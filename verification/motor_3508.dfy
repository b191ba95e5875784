/** The CAN codec of src/motor_3508.c and the feedback slots it maintains. */
module Motor3508 {
  import opened Numerics
  import opened Motors

  const COMMAND_ID: uint32 := 0x200
  const FEEDBACK_ID_BASE: uint32 := 0x200
  const FIRST_FEEDBACK_ID: uint32 := 0x201
  const LAST_FEEDBACK_ID: uint32 := 0x204

  type CanData = s: seq<uint8> | |s| == 8 witness [0, 0, 0, 0, 0, 0, 0, 0]

  /** bytes_to_i16: shifts and masks are written as arithmetic. */
  function BytesToI16(high: uint8, low: uint8): int16 {
    ToInt16(high * 0x100 + low)
  }

  function HighByte(value: int16): uint8 {
    ToUint16(value) / 0x100
  }

  function LowByte(value: int16): uint8 {
    ToUint16(value) % 0x100
  }

  function Pack(w: Wheels<int16>): CanData {
    [HighByte(w.m1), LowByte(w.m1), HighByte(w.m2), LowByte(w.m2),
     HighByte(w.m3), LowByte(w.m3), HighByte(w.m4), LowByte(w.m4)]
  }

  /** What the motor controllers read back from a current frame: big-endian, motor 1 first. */
  function Unpack(d: CanData): Wheels<int16> {
    Wheels(BytesToI16(d[0], d[1]), BytesToI16(d[2], d[3]),
           BytesToI16(d[4], d[5]), BytesToI16(d[6], d[7]))
  }

  lemma BytesRoundTrip(v: int16)
    ensures BytesToI16(HighByte(v), LowByte(v)) == v
  {
  }

  lemma WordRoundTrip(high: uint8, low: uint8)
    ensures HighByte(BytesToI16(high, low)) == high && LowByte(BytesToI16(high, low)) == low
  {
    var u := high * 0x100 + low;
    assert ToUint16(ToInt16(u)) == u;
  }

  /** Packing is a bijection between four int16 values and eight bytes. */
  lemma PackBijection(w: Wheels<int16>, d: CanData)
    ensures Unpack(Pack(w)) == w
    ensures Pack(Unpack(d)) == d
  {
    hide BytesToI16, HighByte, LowByte;
    BytesRoundTrip(w.m1);
    BytesRoundTrip(w.m2);
    BytesRoundTrip(w.m3);
    BytesRoundTrip(w.m4);
    WordRoundTrip(d[0], d[1]);
    WordRoundTrip(d[2], d[3]);
    WordRoundTrip(d[4], d[5]);
    WordRoundTrip(d[6], d[7]);
  }

  /** motor3508_pack_current_array: writes slots 1..4 of the currents into the frame. */
  method PackCurrentArray(currents: array<int16>, data: array<uint8>)
    requires currents.Length == 5 && data.Length == 8
    modifies data
    ensures data[..] == Pack(FromSlots(currents[..]))
  {
    PackCurrent(currents[1], currents[2], currents[3], currents[4], data);
  }

  method PackCurrent(c1: int16, c2: int16, c3: int16, c4: int16, data: array<uint8>)
    requires data.Length == 8
    modifies data
    ensures data[..] == Pack(Wheels(c1, c2, c3, c4))
  {
    hide HighByte, LowByte;
    data[0], data[1] := HighByte(c1), LowByte(c1);
    data[2], data[3] := HighByte(c2), LowByte(c2);
    data[4], data[5] := HighByte(c3), LowByte(c3);
    data[6], data[7] := HighByte(c4), LowByte(c4);
  }

  /** Motor i's current is the i-th big-endian word of a current frame, in two's complement. */
  lemma PackLayout(w: Wheels<int16>, i: MotorId)
    ensures IsWord(Pack(w)[2 * (i - 1)], Pack(w)[2 * (i - 1) + 1], w.At(i))
  {
  }

  /**
   * A feedback frame is one of at least eight bytes from motor 0x201 to 0x204. Decoding keeps its
   * seven used bytes, three big-endian words and a byte, its sender and its time.
   */
  lemma DecodeIsFaithful(f: RxFrame)
    ensures f.IsFeedback() <==> f.dlc >= 8 && 0x201 <= f.id <= 0x204
    ensures f.IsFeedback() ==>
              var d := f.Decode();
              && IsWord(f.data[0], f.data[1], d.angle)
              && IsWord(f.data[2], f.data[3], d.speedRpm)
              && IsWord(f.data[4], f.data[5], d.current)
              && f.data[6] == d.temperature % 0x100
              && d.id == f.id - 0x200 && d.lastUpdateMs == f.stampMs && d.online
  {
    hide BytesToI16;
    WordLaw(f.data[0], f.data[1]);
    WordLaw(f.data[2], f.data[3]);
    WordLaw(f.data[4], f.data[5]);
  }

  lemma WordLaw(high: uint8, low: uint8)
    ensures IsWord(high, low, BytesToI16(high, low))
  {
  }

  /** One received CAN frame with the clock reading taken when it is parsed. */
  datatype RxFrame = RxFrame(id: uint32, dlc: uint8, data: CanData, stampMs: uint64) {
    /** Long enough, and sent by one of the four motors. */
    predicate IsFeedback() {
      dlc >= 8 && FIRST_FEEDBACK_ID <= id <= LAST_FEEDBACK_ID
    }

    function Motor(): MotorId
      requires IsFeedback()
    {
      id - FEEDBACK_ID_BASE
    }

    function Decode(): Feedback
      requires IsFeedback()
    {
      Feedback(Motor(), BytesToI16(data[0], data[1]), BytesToI16(data[2], data[3]),
               BytesToI16(data[4], data[5]), ToInt8(data[6]), stampMs, true)
    }
  }

  /** motor3508_parse_feedback. */
  method ParseFeedback(canId: uint32, data: CanData, nowMs: uint64) returns (ok: bool, feedback: Feedback)
    ensures ok <==> 0x201 <= canId <= 0x204
    ensures ok ==> feedback == RxFrame(canId, 8, data, nowMs).Decode()
  {
    feedback := Feedback(0, 0, 0, 0, 0, 0, false);
    if canId < FIRST_FEEDBACK_ID || canId > LAST_FEEDBACK_ID {
      return false, feedback;
    }
    feedback := feedback.(
      id := canId - FEEDBACK_ID_BASE,
      angle := BytesToI16(data[0], data[1]),
      speedRpm := BytesToI16(data[2], data[3]),
      current := BytesToI16(data[4], data[5]),
      temperature := ToInt8(data[6]),
      lastUpdateMs := nowMs,
      online := true);
    return true, feedback;
  }

  /** motor3508_update_feedback. */
  method UpdateFeedback(canId: uint32, data: CanData, feedbacks: array<Feedback>, nowMs: uint64) returns (ok: bool)
    requires feedbacks.Length == 5
    modifies feedbacks
    ensures ok <==> 0x201 <= canId <= 0x204
    ensures FromSlots(feedbacks[..]) == StoreAll(old(FromSlots(feedbacks[..])), [RxFrame(canId, 8, data, nowMs)])
    ensures feedbacks[0] == old(feedbacks[0])
  {
    ghost var was, f := FromSlots(feedbacks[..]), RxFrame(canId, 8, data, nowMs);
    StoreAppend(was, [], f);
    assert [] + [f] == [f];
    var feedback;
    ok, feedback := ParseFeedback(canId, data, nowMs);
    if ok {
      feedbacks[feedback.id] := feedback;
    }
  }

  /** The drain loop's effect on the feedback slots. */
  function StoreAll(slots: Wheels<Feedback>, log: seq<RxFrame>): Wheels<Feedback> {
    if log == [] then slots
    else
      var rest := StoreAll(slots, log[..|log| - 1]);
      var f := log[|log| - 1];
      if f.IsFeedback() then rest.Put(f.Motor(), f.Decode()) else rest
  }

  /** The most recent frame motor i sent, among frames of at least eight bytes. */
  function LastFrame(log: seq<RxFrame>, i: MotorId): Option<RxFrame> {
    if log == [] then None
    else
      var f := log[|log| - 1];
      if f.dlc >= 8 && f.id == 0x200 + i then Some(f)
      else LastFrame(log[..|log| - 1], i)
  }

  lemma {:induction false} LastFrameIsFeedback(log: seq<RxFrame>, i: MotorId)
    ensures LastFrame(log, i).Some? ==>
              && LastFrame(log, i).value in log
              && LastFrame(log, i).value.IsFeedback()
              && LastFrame(log, i).value.Motor() == i
  {
    if log != [] {
      LastFrameIsFeedback(log[..|log| - 1], i);
    }
  }

  /** Slot i always holds the decode of motor i's last valid frame; other frames never touch it. */
  lemma {:induction false} SlotsRefineLog(slots: Wheels<Feedback>, log: seq<RxFrame>, i: MotorId)
    ensures LastFrame(log, i).Some? ==> LastFrame(log, i).value.IsFeedback()
    ensures StoreAll(slots, log).At(i) ==
            if LastFrame(log, i).Some? then LastFrame(log, i).value.Decode() else slots.At(i)
    ensures LastFrame(log, i).Some? ==> StoreAll(slots, log).At(i).id == i
  {
    LastFrameIsFeedback(log, i);
    if log != [] {
      SlotsRefineLog(slots, log[..|log| - 1], i);
    }
  }

  lemma StoreAppend(slots: Wheels<Feedback>, log: seq<RxFrame>, f: RxFrame)
    ensures StoreAll(slots, log + [f]) ==
            if f.IsFeedback() then StoreAll(slots, log).Put(f.Motor(), f.Decode()) else StoreAll(slots, log)
  {
    assert (log + [f])[..|log|] == log;
  }

  lemma {:induction false} StoreConcat(slots: Wheels<Feedback>, a: seq<RxFrame>, b: seq<RxFrame>)
    ensures StoreAll(slots, a + b) == StoreAll(StoreAll(slots, a), b)
  {
    if b == [] {
      assert a + b == a;
    } else {
      var init := b[..|b| - 1];
      StoreConcat(slots, a, init);
      assert (a + b)[..|a + b| - 1] == a + init;
    }
  }
}
