/**
 * Big-endian packets of the RT-Thread bridge protocol. can_proxy.c and rtt_chassis_bridge.c each
 * carry the same read and write primitives; they are modelled once. Shifts and masks are written
 * as arithmetic.
 */
module WireFormat {
  import opened Numerics
  import opened Motors

  type Packet = seq<uint8>

  const HEADER_SIZE: nat := 20
  const STATE_PAYLOAD_SIZE: uint16 := 28
  const CURRENT_PAYLOAD_SIZE: uint16 := 10
  const MAGIC: uint32 := 0x524B4348
  const VERSION: uint16 := 1
  const MSG_CHASSIS_STATE: uint16 := 2
  const MSG_HEARTBEAT: uint16 := 3
  const MSG_ESTOP: uint16 := 4
  const MSG_CURRENT_COMMAND: uint16 := 5

  function ReadU16(b: Packet, offset: nat): uint16
    requires offset + 2 <= |b|
  {
    b[offset] as int * 0x100 + b[offset + 1]
  }

  function ReadU32(b: Packet, offset: nat): uint32
    requires offset + 4 <= |b|
  {
    b[offset] as int * 0x100_0000 + b[offset + 1] as int * 0x1_0000 + b[offset + 2] as int * 0x100 + b[offset + 3]
  }

  function ReadI16(b: Packet, offset: nat): int16
    requires offset + 2 <= |b|
  {
    ToInt16(ReadU16(b, offset))
  }

  function HighWord(v: uint32): uint16 {
    v / 0x1_0000
  }

  function LowWord(v: uint32): uint16 {
    v % 0x1_0000
  }

  /** Every field of the protocol is a whole number of 16-bit words. */
  function FromWords(words: seq<uint16>): Packet {
    seq(2 * |words|, i requires 0 <= i < 2 * |words| =>
      if i % 2 == 0 then words[i / 2] / 0x100 else words[i / 2] % 0x100)
  }

  /** The words of b up to a byte bound. */
  predicate Carries(b: Packet, words: seq<uint16>, bytes: nat)
    requires bytes <= |b| && bytes <= 2 * |words|
  {
    forall k :: 0 <= k < bytes && k % 2 == 0 && k + 2 <= bytes ==> ReadU16(b, k) == words[k / 2]
  }

  lemma PacketCarries(words: seq<uint16>)
    ensures Carries(FromWords(words), words, 2 * |words|)
  {
  }

  /** A packet is determined by its words. */
  lemma WordsDetermine(b: Packet, words: seq<uint16>)
    requires |b| == 2 * |words| && Carries(b, words, |b|)
    ensures b == FromWords(words)
  {
    forall i | 0 <= i < |b|
      ensures b[i] == FromWords(words)[i]
    {
      var k := i - i % 2;
      assert ReadU16(b, k) == words[k / 2];
    }
  }

  lemma WordsOf32(b: Packet, offset: nat)
    requires offset + 4 <= |b|
    ensures ReadU32(b, offset) == ReadU16(b, offset) * 0x1_0000 + ReadU16(b, offset + 2)
    ensures HighWord(ReadU32(b, offset)) == ReadU16(b, offset)
    ensures LowWord(ReadU32(b, offset)) == ReadU16(b, offset + 2)
  {
  }

  lemma SignedWord(v: int16, u: uint16)
    ensures ToInt16(ToUint16(v)) == v && ToUint16(ToInt16(u)) == u
  {
  }

  datatype Header = Header(
    kind: uint16, sequence: uint32, monotonicMs: uint32, payloadLength: uint16, flags: uint16)

  function HeaderWords(h: Header): seq<uint16> {
    [HighWord(MAGIC), LowWord(MAGIC), VERSION, h.kind,
     HighWord(h.sequence), LowWord(h.sequence), HighWord(h.monotonicMs), LowWord(h.monotonicMs),
     h.payloadLength, h.flags]
  }

  datatype ChassisState = ChassisState(
    target: Wheels<int16>, feedbackRpm: Wheels<int16>, current: Wheels<int16>,
    onlineMask: uint16, faultMask: uint16)

  const ZERO_STATE := ChassisState(NO_CURRENT, NO_CURRENT, NO_CURRENT, 0, 0)

  function StateWords(s: ChassisState): seq<uint16> {
    [ToUint16(s.target.m1), ToUint16(s.target.m2), ToUint16(s.target.m3), ToUint16(s.target.m4),
     ToUint16(s.feedbackRpm.m1), ToUint16(s.feedbackRpm.m2), ToUint16(s.feedbackRpm.m3), ToUint16(s.feedbackRpm.m4),
     ToUint16(s.current.m1), ToUint16(s.current.m2), ToUint16(s.current.m3), ToUint16(s.current.m4),
     s.onlineMask, s.faultMask]
  }

  function StatePacket(sequence: uint32, ms: uint32, flags: uint16, s: ChassisState): Packet {
    FromWords(HeaderWords(Header(MSG_CHASSIS_STATE, sequence, ms, STATE_PAYLOAD_SIZE, flags)) + StateWords(s))
  }

  function HeartbeatPacket(sequence: uint32, ms: uint32): Packet {
    FromWords(HeaderWords(Header(MSG_HEARTBEAT, sequence, ms, 0, 0)))
  }

  function CurrentPacket(sequence: uint32, ms: uint32, current: Wheels<int16>, timeoutMs: uint16): Packet {
    FromWords(HeaderWords(Header(MSG_CURRENT_COMMAND, sequence, ms, CURRENT_PAYLOAD_SIZE, 0)) +
              [ToUint16(current.m1), ToUint16(current.m2), ToUint16(current.m3), ToUint16(current.m4), timeoutMs])
  }

  method WriteU16(buffer: array<uint8>, offset: nat, value: uint16)
    requires offset + 2 <= buffer.Length
    modifies buffer
    ensures ReadU16(buffer[..], offset) == value
    ensures forall k: nat :: k + 2 <= buffer.Length && (k + 2 <= offset || offset + 2 <= k) ==>
              ReadU16(buffer[..], k) == old(ReadU16(buffer[..], k))
  {
    buffer[offset] := value / 0x100;
    buffer[offset + 1] := value % 0x100;
  }

  method WriteI16(buffer: array<uint8>, offset: nat, value: int16)
    requires offset + 2 <= buffer.Length
    modifies buffer
    ensures ReadU16(buffer[..], offset) == ToUint16(value)
    ensures forall k: nat :: k + 2 <= buffer.Length && (k + 2 <= offset || offset + 2 <= k) ==>
              ReadU16(buffer[..], k) == old(ReadU16(buffer[..], k))
  {
    WriteU16(buffer, offset, ToUint16(value));
  }

  method WriteU32(buffer: array<uint8>, offset: nat, value: uint32)
    requires offset + 4 <= buffer.Length
    modifies buffer
    ensures ReadU16(buffer[..], offset) == HighWord(value) && ReadU16(buffer[..], offset + 2) == LowWord(value)
    ensures forall k: nat :: k + 2 <= buffer.Length && (k + 2 <= offset || offset + 4 <= k) ==>
              ReadU16(buffer[..], k) == old(ReadU16(buffer[..], k))
  {
    buffer[offset] := value / 0x100_0000;
    buffer[offset + 1] := (value / 0x1_0000) % 0x100;
    buffer[offset + 2] := (value / 0x100) % 0x100;
    buffer[offset + 3] := value % 0x100;
  }

  /** write_header of either side; ms is that side's clock reading. */
  method WriteHeader(buffer: array<uint8>, h: Header)
    requires buffer.Length >= HEADER_SIZE
    modifies buffer
    ensures Carries(buffer[..], HeaderWords(h), HEADER_SIZE)
  {
    hide HighWord, LowWord, ReadU16;
    WriteU32(buffer, 0, MAGIC);
    WriteU16(buffer, 4, VERSION);
    WriteU16(buffer, 6, h.kind);
    WriteU32(buffer, 8, h.sequence);
    WriteU32(buffer, 12, h.monotonicMs);
    WriteU16(buffer, 16, h.payloadLength);
    WriteU16(buffer, 18, h.flags);
  }

  /** The loop both sides use for four signed fields: the words from offset on, the rest unchanged. */
  method WriteWheels(buffer: array<uint8>, offset: nat, w: Wheels<int16>)
    requires offset % 2 == 0 && offset + 8 <= buffer.Length
    modifies buffer
    ensures ReadU16(buffer[..], offset) == ToUint16(w.m1) && ReadU16(buffer[..], offset + 2) == ToUint16(w.m2)
    ensures ReadU16(buffer[..], offset + 4) == ToUint16(w.m3) && ReadU16(buffer[..], offset + 6) == ToUint16(w.m4)
    ensures forall k: nat :: k + 2 <= buffer.Length && (k + 2 <= offset || offset + 8 <= k) ==>
              ReadU16(buffer[..], k) == old(ReadU16(buffer[..], k))
  {
    hide ReadU16, ToUint16;
    var at := offset;
    for i := 1 to 5
      invariant at == offset + 2 * (i - 1)
      invariant forall m: MotorId :: m < i ==> ReadU16(buffer[..], offset + 2 * (m - 1)) == ToUint16(w.At(m))
      invariant forall k: nat :: k + 2 <= buffer.Length && (k + 2 <= offset || offset + 8 <= k) ==>
                  ReadU16(buffer[..], k) == old(ReadU16(buffer[..], k))
    {
      WriteI16(buffer, at, w.At(i));
      at := at + 2;
    }
    assert ReadU16(buffer[..], offset + 2 * (1 - 1)) == ToUint16(w.At(1));
    assert ReadU16(buffer[..], offset + 2 * (2 - 1)) == ToUint16(w.At(2));
    assert ReadU16(buffer[..], offset + 2 * (3 - 1)) == ToUint16(w.At(3));
    assert ReadU16(buffer[..], offset + 2 * (4 - 1)) == ToUint16(w.At(4));
  }

  /** can_proxy.c's parse_header: flags and sequence are read and never checked. */
  function ParseHeader(b: Packet): Option<Header> {
    if |b| < HEADER_SIZE then None
    else if ReadU32(b, 0) != MAGIC || ReadU16(b, 4) != VERSION then None
    else if |b| != HEADER_SIZE + ReadU16(b, 16) then None
    else Some(Header(ReadU16(b, 6), ReadU32(b, 8), ReadU32(b, 12), ReadU16(b, 16), ReadU16(b, 18)))
  }

  function ReadWheels(b: Packet, offset: nat): Wheels<int16>
    requires offset + 8 <= |b|
  {
    Wheels(ReadI16(b, offset), ReadI16(b, offset + 2), ReadI16(b, offset + 4), ReadI16(b, offset + 6))
  }

  /** rtt_chassis_bridge.c's parse_chassis_state. */
  function ParseState(b: Packet): Option<ChassisState> {
    if |b| != HEADER_SIZE + STATE_PAYLOAD_SIZE then None
    else if || ReadU32(b, 0) != MAGIC || ReadU16(b, 4) != VERSION
            || ReadU16(b, 6) != MSG_CHASSIS_STATE || ReadU16(b, 16) != STATE_PAYLOAD_SIZE then None
    else Some(ChassisState(ReadWheels(b, 20), ReadWheels(b, 28), ReadWheels(b, 36), ReadU16(b, 44), ReadU16(b, 46)))
  }

  lemma HeartbeatSize(sequence: uint32, ms: uint32)
    ensures |HeartbeatPacket(sequence, ms)| == 20
  {
  }

  lemma StateSize(sequence: uint32, ms: uint32, s: ChassisState)
    ensures |StatePacket(sequence, ms, 0, s)| == 48
  {
  }

  lemma HeaderReads(b: Packet, h: Header)
    requires |b| >= HEADER_SIZE && Carries(b, HeaderWords(h), HEADER_SIZE)
    ensures ReadU32(b, 0) == MAGIC && ReadU16(b, 4) == VERSION && ReadU16(b, 6) == h.kind
    ensures ReadU32(b, 8) == h.sequence && ReadU32(b, 12) == h.monotonicMs
    ensures ReadU16(b, 16) == h.payloadLength && ReadU16(b, 18) == h.flags
  {
    hide ReadU16, ReadU32;
    WordsOf32(b, 0);
    WordsOf32(b, 8);
    WordsOf32(b, 12);
    assert ReadU16(b, 0) == HeaderWords(h)[0] && ReadU16(b, 2) == HeaderWords(h)[1];
  }

  lemma PacketHeader(h: Header, payload: seq<uint16>)
    requires h.payloadLength == 2 * |payload|
    ensures ParseHeader(FromWords(HeaderWords(h) + payload)) == Some(h)
  {
    hide ReadU16, ReadU32;
    var words := HeaderWords(h) + payload;
    PacketCarries(words);
    assert Carries(FromWords(words), HeaderWords(h), HEADER_SIZE);
    HeaderReads(FromWords(words), h);
  }

  /** Proxy to bridge: every chassis state the proxy serialises is parsed back field for field. */
  lemma StateRoundTrip(sequence: uint32, ms: uint32, flags: uint16, s: ChassisState)
    ensures ParseState(StatePacket(sequence, ms, flags, s)) == Some(s)
  {
    hide ReadU16, ReadU32, ToInt16, ToUint16;
    var h := Header(MSG_CHASSIS_STATE, sequence, ms, STATE_PAYLOAD_SIZE, flags);
    var words := HeaderWords(h) + StateWords(s);
    PacketCarries(words);
    assert Carries(FromWords(words), HeaderWords(h), HEADER_SIZE);
    HeaderReads(FromWords(words), h);
    forall v: int16
      ensures ToInt16(ToUint16(v)) == v
    {
      SignedWord(v, 0);
    }
  }

  /** Every packet the bridge accepts is reproduced byte for byte from its header fields and state. */
  lemma AcceptedStateReencodes(b: Packet)
    requires ParseState(b).Some?
    ensures b == StatePacket(ReadU32(b, 8), ReadU32(b, 12), ReadU16(b, 18), ParseState(b).value)
  {
    hide ReadU16, ReadU32, ToInt16, ToUint16;
    var h := Header(MSG_CHASSIS_STATE, ReadU32(b, 8), ReadU32(b, 12), STATE_PAYLOAD_SIZE, ReadU16(b, 18));
    var words := HeaderWords(h) + StateWords(ParseState(b).value);
    WordsOf32(b, 0);
    WordsOf32(b, 8);
    WordsOf32(b, 12);
    forall u: uint16
      ensures ToUint16(ToInt16(u)) == u
    {
      SignedWord(0, u);
    }
    WordsDetermine(b, words);
  }

  /** Bridge to proxy: heartbeats and current commands parse back with the proxy's parser. */
  lemma BridgePacketsParse(sequence: uint32, ms: uint32, current: Wheels<int16>, timeoutMs: uint16)
    ensures ParseHeader(HeartbeatPacket(sequence, ms)) == Some(Header(MSG_HEARTBEAT, sequence, ms, 0, 0))
    ensures var p := CurrentPacket(sequence, ms, current, timeoutMs);
            && ParseHeader(p) == Some(Header(MSG_CURRENT_COMMAND, sequence, ms, CURRENT_PAYLOAD_SIZE, 0))
            && |p| == 30
            && ReadWheels(p, HEADER_SIZE) == current
            && ReadU16(p, HEADER_SIZE + 8) == timeoutMs
  {
    hide ReadU16, ReadU32, ToInt16, ToUint16;
    var beat := Header(MSG_HEARTBEAT, sequence, ms, 0, 0);
    PacketHeader(beat, []);
    assert HeaderWords(beat) + [] == HeaderWords(beat);
    var h := Header(MSG_CURRENT_COMMAND, sequence, ms, CURRENT_PAYLOAD_SIZE, 0);
    var payload := [ToUint16(current.m1), ToUint16(current.m2), ToUint16(current.m3), ToUint16(current.m4), timeoutMs];
    PacketHeader(h, payload);
    PacketCarries(HeaderWords(h) + payload);
    forall v: int16
      ensures ToInt16(ToUint16(v)) == v
    {
      SignedWord(v, 0);
    }
  }
}
