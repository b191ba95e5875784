/** The four wheels and the feedback record of one motor (chassis_types.h). */
module Motors {
  import opened Numerics

  type MotorId = i: int | 1 <= i <= 4 witness 1

  /** One value per motor; the C arrays hold five slots and never use slot 0. */
  datatype Wheels<T> = Wheels(m1: T, m2: T, m3: T, m4: T) {
    function At(i: MotorId): T {
      if i == 1 then m1 else if i == 2 then m2 else if i == 3 then m3 else m4
    }

    function Put(i: MotorId, v: T): Wheels<T> {
      if i == 1 then this.(m1 := v)
      else if i == 2 then this.(m2 := v)
      else if i == 3 then this.(m3 := v)
      else this.(m4 := v)
    }
  }

  /** The wheels held in slots 1..4 of a five-slot array. */
  function FromSlots<T>(s: seq<T>): Wheels<T>
    requires |s| == 5
  {
    Wheels(s[1], s[2], s[3], s[4])
  }

  datatype Option<T> = None | Some(value: T)

  datatype Feedback = Feedback(
    id: uint8, angle: int16, speedRpm: int16, current: int16,
    temperature: int8, lastUpdateMs: uint64, online: bool)

  const NO_TARGET: Wheels<real> := Wheels(0.0, 0.0, 0.0, 0.0)
  const NO_CURRENT: Wheels<int16> := Wheels(0, 0, 0, 0)
}
