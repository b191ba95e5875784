/** The bridge protocol byte by byte, as rtt_bridge_protocol.h and the packet writers fix it. */
module WireLayout {
  import opened Numerics
  import opened Motors
  import opened WireFormat

  predicate WordAt(b: Packet, k: nat, value: int) {
    k + 2 <= |b| && IsWord(b[k], b[k + 1], value)
  }

  predicate LongAt(b: Packet, k: nat, value: uint32) {
    WordAt(b, k, value / 0x1_0000) && WordAt(b, k + 2, value)
  }

  /** Four signed words, motor 1 first. */
  predicate WheelsAt(b: Packet, k: nat, w: Wheels<int16>) {
    forall i: MotorId :: WordAt(b, k + 2 * (i - 1), w.At(i))
  }

  /** "RKCH", version 1, and a payload length that matches. */
  predicate ValidHeader(b: Packet) {
    && |b| >= 20
    && b[..6] == [0x52, 0x4B, 0x43, 0x48, 0, 1]
    && WordAt(b, 16, |b| - 20) && |b| - 20 < 0x1_0000
  }

  /** The twenty header bytes of a packet. */
  predicate HeaderAt(b: Packet, h: Header) {
    && ValidHeader(b) && |b| == 20 + h.payloadLength
    && WordAt(b, 6, h.kind) && LongAt(b, 8, h.sequence) && LongAt(b, 12, h.monotonicMs) && WordAt(b, 18, h.flags)
  }

  /** The proxy's parser accepts exactly the packets with a valid header, and reads what it says. */
  lemma HeaderLaw(b: Packet)
    ensures ParseHeader(b).Some? <==> ValidHeader(b)
    ensures ParseHeader(b).Some? ==> HeaderAt(b, ParseHeader(b).value)
  {
    if |b| >= 20 {
      MagicLaw(b);
      WordsLaw(b);
    }
  }

  lemma MagicLaw(b: Packet)
    requires |b| >= 20
    ensures ReadU32(b, 0) == MAGIC && ReadU16(b, 4) == VERSION <==> b[..6] == [0x52, 0x4B, 0x43, 0x48, 0, 1]
  {
    assert b[..6] == [b[0], b[1], b[2], b[3], b[4], b[5]];
  }

  /** Reading and the bytes agree, everywhere in a packet. */
  lemma WordsLaw(b: Packet)
    ensures forall k: nat :: k + 2 <= |b| ==> WordAt(b, k, ReadU16(b, k)) && WordAt(b, k, ReadI16(b, k))
    ensures forall k: nat, v: uint16 :: k + 2 <= |b| && WordAt(b, k, v) ==> ReadU16(b, k) == v
    ensures forall k: nat :: k + 4 <= |b| ==> LongAt(b, k, ReadU32(b, k))
  {
    hide WordAt, ReadU16, ReadI16, ReadU32;
    forall k: nat | k + 2 <= |b|
      ensures WordAt(b, k, ReadU16(b, k)) && WordAt(b, k, ReadI16(b, k))
    {
      WordLaw(b, k);
    }
    forall k: nat, v: uint16 | k + 2 <= |b| && WordAt(b, k, v)
      ensures ReadU16(b, k) == v
    {
      WordIsRead(b, k, v);
    }
    forall k: nat | k + 4 <= |b|
      ensures LongAt(b, k, ReadU32(b, k))
    {
      WordsOf32(b, k);
      WordLaw(b, k);
      WordLaw(b, k + 2);
      LongLaw(b, k);
    }
  }

  lemma WordLaw(b: Packet, k: nat)
    requires k + 2 <= |b|
    ensures WordAt(b, k, ReadU16(b, k)) && WordAt(b, k, ReadI16(b, k))
  {
    Congruent(b[k] as int * 0x100 + b[k + 1]);
    hide ToInt16;
  }

  lemma Congruent(u: uint16)
    ensures u == ToInt16(u) % 0x1_0000
  {
  }

  lemma WordIsRead(b: Packet, k: nat, v: uint16)
    requires k + 2 <= |b| && WordAt(b, k, v)
    ensures ReadU16(b, k) == v
  {
  }

  lemma LongLaw(b: Packet, k: nat)
    requires k + 4 <= |b|
    requires HighWord(ReadU32(b, k)) == ReadU16(b, k) && LowWord(ReadU32(b, k)) == ReadU16(b, k + 2)
    requires WordAt(b, k, ReadU16(b, k)) && WordAt(b, k + 2, ReadU16(b, k + 2))
    ensures LongAt(b, k, ReadU32(b, k))
  {
    hide ReadU32, ReadU16;
  }

  /** The bridge's parser accepts exactly the 48-byte state packets, and reads what they say. */
  lemma StateLaw(b: Packet)
    ensures ParseState(b).Some? <==> ValidHeader(b) && |b| == 48 && WordAt(b, 6, 2)
    ensures ParseState(b).Some? ==>
              var s := ParseState(b).value;
              && WheelsAt(b, 20, s.target) && WheelsAt(b, 28, s.feedbackRpm) && WheelsAt(b, 36, s.current)
              && WordAt(b, 44, s.onlineMask) && WordAt(b, 46, s.faultMask)
  {
    WordsLaw(b);
    if |b| == 48 {
      MagicLaw(b);
      ReadsLaw(b);
      hide ReadI16, ReadU16, ReadU32, WordAt;
    }
  }

  lemma ReadsLaw(b: Packet)
    requires |b| == 48
    ensures WheelsAt(b, 20, ReadWheels(b, 20)) && WheelsAt(b, 28, ReadWheels(b, 28)) && WheelsAt(b, 36, ReadWheels(b, 36))
    ensures ReadU16(b, 6) == 2 <==> WordAt(b, 6, 2)
    ensures ReadU16(b, 16) == 28 <==> WordAt(b, 16, 28)
  {
    hide ReadWheels, WheelsAt;
    WheelsLaw(b, 20);
    WheelsLaw(b, 28);
    WheelsLaw(b, 36);
  }

  lemma WheelsLaw(b: Packet, k: nat)
    requires k + 8 <= |b|
    ensures WheelsAt(b, k, ReadWheels(b, k))
  {
    WordsLaw(b);
    var w := ReadWheels(b, k);
    hide ReadI16, WordAt;
    assert WordAt(b, k, w.m1) && WordAt(b, k + 2, w.m2) && WordAt(b, k + 4, w.m3) && WordAt(b, k + 6, w.m4);
    WheelsFrom(b, k, w);
  }

  lemma WheelsFrom(b: Packet, k: nat, w: Wheels<int16>)
    requires WordAt(b, k, w.m1) && WordAt(b, k + 2, w.m2) && WordAt(b, k + 4, w.m3) && WordAt(b, k + 6, w.m4)
    ensures WheelsAt(b, k, w)
  {
    hide WordAt;
    forall i: MotorId
      ensures WordAt(b, k + 2 * (i - 1), w.At(i))
    {
      assert i == 1 || i == 2 || i == 3 || i == 4;
    }
  }

  /** Casting to uint16 does not change the two bytes. */
  lemma CastLaw(b: Packet)
    ensures forall k: nat, v: int16 :: WordAt(b, k, ToUint16(v)) <==> WordAt(b, k, v)
  {
  }

  /** Every packet either side builds: its header, then its payload words. */
  lemma PacketLayout(h: Header, payload: seq<uint16>)
    requires h.payloadLength == 2 * |payload|
    ensures var b := FromWords(HeaderWords(h) + payload);
            HeaderAt(b, h) && forall j :: 0 <= j < |payload| ==> WordAt(b, 20 + 2 * j, payload[j])
  {
    hide FromWords, ParseHeader, HeaderAt, WordAt;
    var words := HeaderWords(h) + payload;
    var b := FromWords(words);
    PacketHeader(h, payload);
    HeaderLaw(b);
    forall j | 0 <= j < |payload|
      ensures WordAt(b, 20 + 2 * j, payload[j])
    {
      assert words[10 + j] == payload[j];
      WordFromWords(words, 10 + j);
    }
  }

  lemma WordFromWords(words: seq<uint16>, j: nat)
    requires j < |words|
    ensures WordAt(FromWords(words), 2 * j, words[j])
  {
  }

  lemma HeartbeatLayout(sequence: uint32, ms: uint32)
    ensures HeaderAt(HeartbeatPacket(sequence, ms), Header(3, sequence, ms, 0, 0))
  {
    hide HeaderAt, HeaderWords;
    var h := Header(MSG_HEARTBEAT, sequence, ms, 0, 0);
    PacketLayout(h, []);
    assert HeaderWords(h) + [] == HeaderWords(h);
  }

  lemma CurrentLayout(sequence: uint32, ms: uint32, current: Wheels<int16>, timeoutMs: uint16)
    ensures var b := CurrentPacket(sequence, ms, current, timeoutMs);
            && HeaderAt(b, Header(5, sequence, ms, 10, 0))
            && WheelsAt(b, 20, current) && WordAt(b, 28, timeoutMs)
  {
    hide HeaderAt, HeaderWords, FromWords, WordAt, WheelsAt, ToUint16;
    var b := CurrentPacket(sequence, ms, current, timeoutMs);
    var payload := [ToUint16(current.m1), ToUint16(current.m2), ToUint16(current.m3), ToUint16(current.m4), timeoutMs];
    PacketLayout(Header(MSG_CURRENT_COMMAND, sequence, ms, CURRENT_PAYLOAD_SIZE, 0), payload);
    CastLaw(b);
    assert WordAt(b, 20 + 2 * 0, payload[0]) && WordAt(b, 20 + 2 * 1, payload[1]);
    assert WordAt(b, 20 + 2 * 2, payload[2]) && WordAt(b, 20 + 2 * 3, payload[3]) && WordAt(b, 20 + 2 * 4, payload[4]);
    WheelsFrom(b, 20, current);
  }

  lemma StateLayout(sequence: uint32, ms: uint32, s: ChassisState)
    ensures var b := StatePacket(sequence, ms, 0, s);
            && HeaderAt(b, Header(2, sequence, ms, 28, 0))
            && WheelsAt(b, 20, s.target) && WheelsAt(b, 28, s.feedbackRpm) && WheelsAt(b, 36, s.current)
            && WordAt(b, 44, s.onlineMask) && WordAt(b, 46, s.faultMask)
  {
    hide HeaderAt, HeaderWords, FromWords, WordAt, WheelsAt, ToUint16;
    var b, words := StatePacket(sequence, ms, 0, s), StateWords(s);
    PacketLayout(Header(MSG_CHASSIS_STATE, sequence, ms, STATE_PAYLOAD_SIZE, 0), words);
    CastLaw(b);
    assert WordAt(b, 20 + 2 * 0, words[0]) && WordAt(b, 20 + 2 * 1, words[1]);
    assert WordAt(b, 20 + 2 * 2, words[2]) && WordAt(b, 20 + 2 * 3, words[3]);
    WheelsFrom(b, 20, s.target);
    assert WordAt(b, 20 + 2 * 4, words[4]) && WordAt(b, 20 + 2 * 5, words[5]);
    assert WordAt(b, 20 + 2 * 6, words[6]) && WordAt(b, 20 + 2 * 7, words[7]);
    WheelsFrom(b, 28, s.feedbackRpm);
    assert WordAt(b, 20 + 2 * 8, words[8]) && WordAt(b, 20 + 2 * 9, words[9]);
    assert WordAt(b, 20 + 2 * 10, words[10]) && WordAt(b, 20 + 2 * 11, words[11]);
    WheelsFrom(b, 36, s.current);
    assert WordAt(b, 20 + 2 * 12, words[12]) && WordAt(b, 20 + 2 * 13, words[13]);
  }
}
