/** The proxy's state structure, packet buffers and loops, proved against ProxyModel. */
module ProxyObject {
  import opened Numerics
  import opened Motors
  import opened Motor3508
  import opened WireFormat
  import opened ProxyModel

  const ZERO_REPEAT: nat := 20

  class CanProxy {
    const feedback: array<Feedback>
    const currentCommand: array<int16>
    const targetRpm: array<int16>
    const lastFeedbackMs: array<uint64>
    var lastRtMs: uint64
    var lastCurrentCommandMs: uint64
    var rxHeartbeat: uint64
    var rxCurrentCommand: uint64
    var invalidPackets: uint64
    var txSequence: uint32
    var currentTimeoutMs: uint16
    var peer: Option<Peer>
    // main's loop variables
    var lastStateMs: uint64
    var lastCurrentMs: uint64
    // what was handed to the CAN socket and the network: the C code ignores failing writes
    var frames: seq<(uint64, CanData)>
    var sent: seq<(Peer, Packet)>

    ghost predicate Valid() {
      && feedback.Length == 5 && currentCommand.Length == 5
      && targetRpm.Length == 5 && lastFeedbackMs.Length == 5
      && currentCommand != targetRpm
    }

    ghost function Model(): Proxy
      requires Valid()
      reads this, feedback, currentCommand, targetRpm, lastFeedbackMs
    {
      Proxy(FromSlots(feedback[..]), FromSlots(currentCommand[..]), FromSlots(targetRpm[..]),
            FromSlots(lastFeedbackMs[..]), lastRtMs, lastCurrentCommandMs, rxHeartbeat, rxCurrentCommand,
            invalidPackets, txSequence, currentTimeoutMs, peer, lastStateMs, lastCurrentMs)
    }

    constructor ()
      ensures Valid() && Model() == START && frames == [] && sent == []
      ensures fresh(feedback) && fresh(currentCommand) && fresh(targetRpm) && fresh(lastFeedbackMs)
    {
      feedback := new Feedback[5](_ => NO_FEEDBACK);
      currentCommand := new int16[5](_ => 0);
      targetRpm := new int16[5](_ => 0);
      lastFeedbackMs := new uint64[5](_ => 0);
      lastRtMs, lastCurrentCommandMs, rxHeartbeat, rxCurrentCommand, invalidPackets := 0, 0, 0, 0, 0;
      txSequence, currentTimeoutMs, peer := 0, DEFAULT_COMMAND_TIMEOUT_MS, None;
      lastStateMs, lastCurrentMs, frames, sent := 0, 0, [], [];
    }

    method DrainFeedback(queue: seq<RxFrame>)
      requires Valid()
      modifies feedback, lastFeedbackMs
      ensures Model() == DrainAll(old(Model()), queue)
    {
      hide BytesToI16, ToInt8;
      for i := 0 to |queue|
        invariant Model() == DrainAll(old(Model()), queue[..i])
      {
        assert queue[..i + 1][..i] == queue[..i];
        if queue[i].dlc >= 8 {
          var ok, fb := ParseFeedback(queue[i].id, queue[i].data, queue[i].stampMs);
          if ok {
            feedback[fb.id] := fb;
            lastFeedbackMs[fb.id] := fb.lastUpdateMs;
            assert fb == queue[i].Decode();
          }
        }
      }
      assert queue[..|queue|] == queue;
    }

    /** `memset(current_command, 0, ...)`. */
    method ClearCommand()
      requires Valid()
      modifies currentCommand
      ensures FromSlots(currentCommand[..]) == NO_CURRENT
    {
      for i := 0 to 5
        invariant forall j :: 0 <= j < i ==> currentCommand[j] == 0
      {
        currentCommand[i] := 0;
      }
    }

    /** The loop that clamps four currents out of a packet. */
    method LoadCommand(packet: Packet, limit: Int32)
      requires Valid() && |packet| >= HEADER_SIZE + 8
      modifies currentCommand
      ensures FromSlots(currentCommand[..]) == ClampAll(ReadWheels(packet, HEADER_SIZE), limit)
    {
      hide ReadI16, ClampCurrent;
      var offset := HEADER_SIZE;
      for i := 1 to 5
        invariant offset == HEADER_SIZE + 2 * (i - 1)
        invariant forall j: MotorId :: j < i ==>
                    currentCommand[j] == ClampCurrent(ReadWheels(packet, HEADER_SIZE).At(j), limit)
      {
        assert ReadI16(packet, offset) == ReadWheels(packet, HEADER_SIZE).At(i);
        currentCommand[i] := ClampCurrent(ReadI16(packet, offset), limit);
        offset := offset + 2;
      }
    }

    /** One turn of receive_udp's loop. */
    method HandleDatagram(d: Datagram, o: Options, nowMs: uint64)
      requires Valid()
      modifies this`lastRtMs, this`lastCurrentCommandMs, this`rxHeartbeat, this`rxCurrentCommand,
               this`invalidPackets, this`currentTimeoutMs, this`peer, currentCommand
      ensures Model() == Receive(old(Model()), o, d, nowMs)
    {
      hide ReadI16, ReadU16, ReadU32, ClampCurrent;
      var packet := Truncated(d.bytes);
      var parsed := ParseHeader(packet);
      if parsed.None? {
        invalidPackets := Increment64(invalidPackets);
        return;
      }
      var header := parsed.value;
      peer := Some(d.peer);
      lastRtMs := nowMs;
      if header.kind == MSG_HEARTBEAT {
        rxHeartbeat := Increment64(rxHeartbeat);
      } else if header.kind == MSG_ESTOP {
        ClearCommand();
      } else if header.kind == MSG_CURRENT_COMMAND {
        if header.payloadLength != CURRENT_PAYLOAD_SIZE {
          invalidPackets := Increment64(invalidPackets);
          return;
        }
        rxCurrentCommand := Increment64(rxCurrentCommand);
        if !o.allowCurrent {
          ClearCommand();
          return;
        }
        LoadCommand(packet, o.maxCurrent);
        currentTimeoutMs := ReadU16(packet, HEADER_SIZE + 8);
        if currentTimeoutMs == 0 {
          currentTimeoutMs := DEFAULT_COMMAND_TIMEOUT_MS;
        }
        lastCurrentCommandMs := nowMs;
      }
    }

    method ReceiveUdp(queue: seq<Datagram>, o: Options, nowMs: uint64)
      requires Valid()
      modifies this`lastRtMs, this`lastCurrentCommandMs, this`rxHeartbeat, this`rxCurrentCommand,
               this`invalidPackets, this`currentTimeoutMs, this`peer, currentCommand
      ensures Model() == ReceiveAll(old(Model()), o, queue, nowMs)
    {
      hide Receive;
      for i := 0 to |queue|
        invariant Model() == ReceiveAll(old(Model()), o, queue[..i], nowMs)
      {
        assert queue[..i + 1][..i] == queue[..i];
        HandleDatagram(queue[i], o, nowMs);
      }
      assert queue[..|queue|] == queue;
    }

    method OnlineMaskNow(nowMs: uint64) returns (mask: uint16)
      requires Valid()
      ensures mask == OnlineMask(FromSlots(lastFeedbackMs[..]), nowMs)
    {
      hide WrapSub64;
      mask := 0;
      var bit := 1;
      for i := 1 to 5
        invariant bit == if i == 1 then 1 else if i == 2 then 2 else if i == 3 then 4 else if i == 4 then 8 else 16
        invariant mask < bit
        invariant mask == (if 1 < i && OnlineBit(nowMs, lastFeedbackMs[1]) then 1 else 0)
                          + (if 2 < i && OnlineBit(nowMs, lastFeedbackMs[2]) then 2 else 0)
                          + (if 3 < i && OnlineBit(nowMs, lastFeedbackMs[3]) then 4 else 0)
                          + (if 4 < i && OnlineBit(nowMs, lastFeedbackMs[4]) then 8 else 0)
      {
        if lastFeedbackMs[i] != 0 && WrapSub64(nowMs, lastFeedbackMs[i]) <= ONLINE_LIMIT_MS {
          mask := mask + bit;
        }
        bit := bit * 2;
      }
    }

    /** Serialises the state into a packet buffer field by field. */
    method WriteState(packet: array<uint8>, sequence: uint32, ms: uint32, nowMs: uint64)
      requires Valid() && packet.Length == HEADER_SIZE + STATE_PAYLOAD_SIZE
      modifies packet
      ensures packet[..] == StatePacket(sequence, ms, 0, Snapshot(Model(), nowMs))
    {
      hide HighWord, LowWord, ReadU16, OnlineMask, ToUint16;
      ghost var s := Snapshot(Model(), nowMs);
      var h := Header(MSG_CHASSIS_STATE, sequence, ms, STATE_PAYLOAD_SIZE, 0);
      ghost var words := HeaderWords(h) + StateWords(s);
      WriteHeader(packet, h);
      assert Carries(packet[..], words, 20);
      WriteWheels(packet, 20, Wheels(targetRpm[1], targetRpm[2], targetRpm[3], targetRpm[4]));
      assert Carries(packet[..], words, 28);
      WriteWheels(packet, 28, Wheels(feedback[1].speedRpm, feedback[2].speedRpm, feedback[3].speedRpm, feedback[4].speedRpm));
      assert Carries(packet[..], words, 36);
      WriteWheels(packet, 36, Wheels(currentCommand[1], currentCommand[2], currentCommand[3], currentCommand[4]));
      assert Carries(packet[..], words, 44);
      var mask := OnlineMaskNow(nowMs);
      WriteU16(packet, 44, mask);
      WriteU16(packet, 46, 0);
      assert Carries(packet[..], words, 48);
      WordsDetermine(packet[..], words);
    }

    /** send_chassis_state: nothing happens, not even to the sequence number, before a peer is known. */
    method SendChassisState(nowMs: uint64, ms: uint32)
      requires Valid()
      modifies this`txSequence, this`sent
      ensures var was := old(Model());
              && Model() == was.(txSequence := if was.peer.Some? then Increment32(was.txSequence) else was.txSequence)
              && sent == if was.peer.Some?
                         then old(sent) + [(was.peer.value, StatePacket(txSequence, ms, 0, Snapshot(was, nowMs)))]
                         else old(sent)
    {
      hide StatePacket, OnlineMask;
      if peer.None? {
        return;
      }
      txSequence := Increment32(txSequence);
      var packet := new uint8[48];
      WriteState(packet, txSequence, ms, nowMs);
      sent := sent + [(peer.value, packet[..])];
    }

    method SendCurrents(nowMs: uint64)
      requires Valid()
      modifies this`frames
      ensures frames == old(frames) + [(nowMs, Pack(Model().current))]
    {
      var data := new uint8[8];
      PackCurrentArray(currentCommand, data);
      frames := frames + [(nowMs, data[..])];
    }

    /** The command window and the rate limiter of main's loop. */
    method CheckWindow(nowMs: uint64, o: Options)
      requires Valid()
      modifies this`lastCurrentMs, this`frames, currentCommand
      ensures Model() == Gate(old(Model()), o, nowMs)
      ensures frames == match FrameSent(old(Model()), o, nowMs)
                        case None => old(frames)
                        case Some(d) => old(frames) + [(nowMs, d)]
    {
      hide WrapSub64, Pack;
      if && o.allowCurrent
         && lastCurrentCommandMs != 0
         && WrapSub64(nowMs, lastCurrentCommandMs) <= currentTimeoutMs
      {
        if WrapSub64(nowMs, lastCurrentMs) >= FRAME_PERIOD_MS {
          SendCurrents(nowMs);
          lastCurrentMs := nowMs;
        }
      } else {
        ClearCommand();
      }
    }

    /** One turn of main's loop. */
    method LoopTurn(t: Turn, o: Options)
      requires Valid()
      modifies this, feedback, currentCommand, lastFeedbackMs
      ensures var fed := Fed(old(Model()), o, t);
              var gated := Gate(fed, o, t.now);
              && Model() == Publish(gated, t.now)
              && frames == (match FrameSent(fed, o, t.now)
                            case None => old(frames)
                            case Some(d) => old(frames) + [(t.now, d)])
              && sent == (match StateSent(gated, t.now, t.stampMs)
                          case None => old(sent)
                          case Some(s) => old(sent) + [(s.peer, s.Bytes())])
    {
      hide DrainAll, ReceiveAll, Gate, FrameSent, StatePacket, Snapshot, WrapSub64;
      DrainFeedback(t.frames);
      ReceiveUdp(t.datagrams, o, t.now);
      CheckWindow(t.now, o);
      if WrapSub64(t.now, lastStateMs) >= STATE_PERIOD_MS {
        SendChassisState(t.now, t.stampMs);
        lastStateMs := t.now;
      }
    }

    /** main's loop over all turns. */
    method MainLoop(turns: seq<Turn>, o: Options)
      requires Valid() && Model() == START && frames == [] && sent == []
      modifies this, feedback, currentCommand, lastFeedbackMs
      ensures Model() == Run(o, turns).proxy
      ensures frames == Run(o, turns).frames
      ensures |sent| == |Run(o, turns).published|
      ensures forall k :: 0 <= k < |sent| ==>
                sent[k] == (Run(o, turns).published[k].peer, Run(o, turns).published[k].Bytes())
    {
      hide Fed, Gate, Publish, FrameSent, StateSent, StatePacket;
      for i := 0 to |turns|
        invariant Model() == Run(o, turns[..i]).proxy && frames == Run(o, turns[..i]).frames
        invariant |sent| == |Run(o, turns[..i]).published|
        invariant forall k :: 0 <= k < |sent| ==>
                    sent[k] == (Run(o, turns[..i]).published[k].peer, Run(o, turns[..i]).published[k].Bytes())
      {
        assert turns[..i + 1][..i] == turns[..i];
        LoopTurn(turns[i], o);
      }
      assert turns[..|turns|] == turns;
    }

    /** The shutdown burst, as handed to the CAN socket. */
    method SendZeroCurrent() returns (burst: seq<CanData>)
      ensures burst == seq(ZERO_REPEAT, _ => Pack(NO_CURRENT))
    {
      var zeros := new int16[5](_ => 0);
      burst := [];
      for i := 0 to ZERO_REPEAT
        invariant burst == seq(i, _ => Pack(NO_CURRENT))
        invariant FromSlots(zeros[..]) == NO_CURRENT
      {
        var data := new uint8[8];
        PackCurrentArray(zeros, data);
        burst := burst + [data[..]];
      }
    }
  }
}
