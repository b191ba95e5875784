/** The RT-Thread bridge of rtthread_port/rtt_chassis_bridge.c as a function of its inputs. */
module BridgeModel {
  import opened Numerics
  import opened Motors
  import opened WireFormat

  const BUFFER_SIZE: nat := 128
  const ZERO_COMMAND_TIMEOUT_MS: uint16 := 100

  datatype Bridge = Bridge(txSequence: uint32, lastState: ChassisState, rxStates: uint32)

  const START := Bridge(0, ZERO_STATE, 0)

  /** What one cycle reads: the clock for each of its two packets, and the datagrams waiting. */
  datatype Cycle = Cycle(beatMs: uint32, commandMs: uint32, datagrams: seq<Packet>)

  function Cut(bytes: Packet): Packet {
    if |bytes| > BUFFER_SIZE then bytes[..BUFFER_SIZE] else bytes
  }

  function Receive(b: Bridge, bytes: Packet): Bridge {
    match ParseState(Cut(bytes))
    case None => b
    case Some(s) => b.(lastState := s, rxStates := Increment32(b.rxStates))
  }

  /** The drain loop ends at the first empty datagram as well as at an empty queue. */
  function ReceiveAll(b: Bridge, ds: seq<Packet>): Bridge
    decreases |ds|
  {
    if ds == [] || |ds[0]| == 0 then b else ReceiveAll(Receive(b, ds[0]), ds[1..])
  }

  /** The two packets a cycle sends. */
  function Sent(b: Bridge, c: Cycle): seq<Packet> {
    [HeartbeatPacket(Increment32(b.txSequence), c.beatMs),
     CurrentPacket(Increment32(Increment32(b.txSequence)), c.commandMs, NO_CURRENT, ZERO_COMMAND_TIMEOUT_MS)]
  }

  function RunCycle(b: Bridge, c: Cycle): Bridge {
    ReceiveAll(b.(txSequence := Increment32(Increment32(b.txSequence))), c.datagrams)
  }

  /** What a cycle reads: the datagrams before the first empty one. */
  function Read(ds: seq<Packet>): seq<Packet> {
    if ds == [] || |ds[0]| == 0 then [] else [ds[0]] + Read(ds[1..])
  }

  /** The states among some datagrams, in order. */
  function States(ds: seq<Packet>): seq<ChassisState> {
    if ds == [] then []
    else
      match ParseState(ds[|ds| - 1])
      case None => States(ds[..|ds| - 1])
      case Some(s) => States(ds[..|ds| - 1]) + [s]
  }

  lemma {:induction false} StatesConcat(a: seq<Packet>, b: seq<Packet>)
    ensures States(a + b) == States(a) + States(b)
  {
    hide ParseState;
    if b == [] {
      assert a + b == a;
    } else {
      StatesConcat(a, b[..|b| - 1]);
      assert (a + b)[..|a + b| - 1] == a + b[..|b| - 1];
    }
  }

  /** Cutting a datagram to the buffer never makes a state packet of it. */
  lemma CutIsHarmless(bytes: Packet)
    ensures ParseState(Cut(bytes)) == ParseState(bytes)
  {
    hide ReadWheels, ReadU16, ReadU32;
  }

  function Newest(states: seq<ChassisState>, none: ChassisState): ChassisState {
    if states == [] then none else states[|states| - 1]
  }

  lemma {:induction false} DrainKeepsNewest(b: Bridge, ds: seq<Packet>)
    ensures var news := States(Read(ds));
            ReceiveAll(b, ds) == Bridge(b.txSequence, Newest(news, b.lastState), (b.rxStates + |news|) % 0x1_0000_0000)
    decreases |ds|
  {
    hide ParseState, Cut;
    if ds == [] || |ds[0]| == 0 {
      assert States([]) == [];
    } else {
      CutIsHarmless(ds[0]);
      DrainKeepsNewest(Receive(b, ds[0]), ds[1..]);
      StatesConcat([ds[0]], Read(ds[1..]));
      OneState(ds[0]);
    }
  }

  lemma OneState(bytes: Packet)
    ensures States([bytes]) == match ParseState(bytes) case None => [] case Some(s) => [s]
  {
    hide ParseState;
    assert [bytes][..0] == [];
  }

  /**
   * A cycle uses two sequence numbers. It keeps the newest state among the datagrams before the first
   * empty one, the old state if there is none, and counts them all.
   */
  lemma CycleKeepsNewest(b: Bridge, c: Cycle)
    ensures var news := States(Read(c.datagrams));
            RunCycle(b, c) == Bridge((b.txSequence + 2) % 0x1_0000_0000, Newest(news, b.lastState),
                                     (b.rxStates + |news|) % 0x1_0000_0000)
  {
    hide ReceiveAll, States, Newest;
    DrainKeepsNewest(b.(txSequence := Increment32(Increment32(b.txSequence))), c.datagrams);
  }

  /** A datagram that is not a state packet changes nothing, not even the count. */
  lemma RejectedChangesNothing(b: Bridge, bytes: Packet)
    ensures ParseState(Cut(bytes)).None? <==> Receive(b, bytes) == b
  {
    if ParseState(Cut(bytes)).Some? {
      assert Receive(b, bytes).rxStates != b.rxStates;
    }
  }
}

/** The bridge's statics, packet buffers and loops, proved against BridgeModel. */
module BridgeObject {
  import opened Numerics
  import opened Motors
  import opened WireFormat
  import opened BridgeModel

  class RttBridge {
    var txSequence: uint32
    var rxStateCount: uint32
    // last_state, in place; motor i sits in slot i - 1
    const targetRpm: array<int16>
    const feedbackRpm: array<int16>
    const currentCommand: array<int16>
    var onlineMask: uint16
    var faultMask: uint16
    // the network
    var sent: seq<Packet>

    ghost predicate Valid() {
      && targetRpm.Length == 4 && feedbackRpm.Length == 4 && currentCommand.Length == 4
      && targetRpm != feedbackRpm && targetRpm != currentCommand && feedbackRpm != currentCommand
    }

    static ghost function Four(a: array<int16>): Wheels<int16>
      requires a.Length == 4
      reads a
    {
      Wheels(a[0], a[1], a[2], a[3])
    }

    ghost function LastState(): ChassisState
      requires Valid()
      reads this, targetRpm, feedbackRpm, currentCommand
    {
      ChassisState(Four(targetRpm), Four(feedbackRpm), Four(currentCommand), onlineMask, faultMask)
    }

    ghost function Model(): Bridge
      requires Valid()
      reads this, targetRpm, feedbackRpm, currentCommand
    {
      Bridge(txSequence, LastState(), rxStateCount)
    }

    constructor ()
      ensures Valid() && Model() == START && sent == []
      ensures fresh(targetRpm) && fresh(feedbackRpm) && fresh(currentCommand)
    {
      txSequence, rxStateCount, onlineMask, faultMask, sent := 0, 0, 0, 0, [];
      targetRpm := new int16[4](_ => 0);
      feedbackRpm := new int16[4](_ => 0);
      currentCommand := new int16[4](_ => 0);
    }

    /** One of parse_chassis_state's loops; returns the advanced offset. */
    method ReadFour(packet: Packet, offset: nat, into: array<int16>) returns (next: nat)
      requires into.Length == 4 && offset + 8 <= |packet|
      modifies into
      ensures Four(into) == ReadWheels(packet, offset)
      ensures next == offset + 8
    {
      hide ReadI16;
      next := offset;
      for i := 0 to 4
        invariant next == offset + 2 * i
        invariant 0 < i ==> into[0] == ReadI16(packet, offset)
        invariant 1 < i ==> into[1] == ReadI16(packet, offset + 2)
        invariant 2 < i ==> into[2] == ReadI16(packet, offset + 4)
        invariant 3 < i ==> into[3] == ReadI16(packet, offset + 6)
      {
        into[i] := ReadI16(packet, next);
        next := next + 2;
      }
    }

    method ParseChassisState(packet: Packet) returns (ok: bool)
      requires Valid()
      modifies this`onlineMask, this`faultMask, targetRpm, feedbackRpm, currentCommand
      ensures ok <==> ParseState(packet).Some?
      ensures LastState() == if ok then ParseState(packet).value else old(LastState())
    {
      hide ReadU16, ReadU32, ReadWheels;
      if |packet| != HEADER_SIZE + STATE_PAYLOAD_SIZE {
        return false;
      }
      if || ReadU32(packet, 0) != MAGIC || ReadU16(packet, 4) != VERSION
         || ReadU16(packet, 6) != MSG_CHASSIS_STATE || ReadU16(packet, 16) != STATE_PAYLOAD_SIZE
      {
        return false;
      }
      var offset := HEADER_SIZE;
      offset := ReadFour(packet, offset, targetRpm);
      offset := ReadFour(packet, offset, feedbackRpm);
      offset := ReadFour(packet, offset, currentCommand);
      onlineMask := ReadU16(packet, offset);
      offset := offset + 2;
      faultMask := ReadU16(packet, offset);
      return true;
    }

    method SendHeartbeat(ms: uint32)
      modifies this`txSequence, this`sent
      ensures txSequence == Increment32(old(txSequence))
      ensures sent == old(sent) + [HeartbeatPacket(txSequence, ms)]
    {
      hide ReadU16, HighWord, LowWord;
      txSequence := Increment32(txSequence);
      var packet := new uint8[20];
      var h := Header(MSG_HEARTBEAT, txSequence, ms, 0, 0);
      WriteHeader(packet, h);
      WordsDetermine(packet[..], HeaderWords(h));
      sent := sent + [packet[..]];
    }

    method SendZeroCurrentCommand(ms: uint32)
      modifies this`txSequence, this`sent
      ensures txSequence == Increment32(old(txSequence))
      ensures sent == old(sent) + [CurrentPacket(txSequence, ms, NO_CURRENT, ZERO_COMMAND_TIMEOUT_MS)]
    {
      hide ReadU16, HighWord, LowWord, ToUint16;
      txSequence := Increment32(txSequence);
      var packet := new uint8[30];
      var h := Header(MSG_CURRENT_COMMAND, txSequence, ms, CURRENT_PAYLOAD_SIZE, 0);
      ghost var z := ToUint16(0);
      ghost var words := HeaderWords(h) + [z, z, z, z, ZERO_COMMAND_TIMEOUT_MS];
      WriteHeader(packet, h);
      assert Carries(packet[..], words, 20);
      WriteWheels(packet, HEADER_SIZE, NO_CURRENT);
      WriteU16(packet, 28, ZERO_COMMAND_TIMEOUT_MS);
      assert Carries(packet[..], words, 30);
      WordsDetermine(packet[..], words);
      sent := sent + [packet[..]];
    }

    /** One turn of the bridge thread's loop. */
    method RunOnce(c: Cycle)
      requires Valid()
      modifies this, targetRpm, feedbackRpm, currentCommand
      ensures Model() == RunCycle(old(Model()), c)
      ensures sent == old(sent) + Sent(old(Model()), c)
    {
      hide HeartbeatPacket, CurrentPacket, ParseState;
      SendHeartbeat(c.beatMs);
      SendZeroCurrentCommand(c.commandMs);
      ghost var start, out := Model(), sent;
      var i := 0;
      while i < |c.datagrams| && |c.datagrams[i]| > 0
        invariant 0 <= i <= |c.datagrams|
        invariant ReceiveAll(start, c.datagrams) == ReceiveAll(Model(), c.datagrams[i..])
        invariant txSequence == start.txSequence && sent == out
      {
        assert c.datagrams[i..][1..] == c.datagrams[i + 1..];
        var ok := ParseChassisState(Cut(c.datagrams[i]));
        if ok {
          rxStateCount := Increment32(rxStateCount);
        }
        i := i + 1;
      }
    }
  }
}
