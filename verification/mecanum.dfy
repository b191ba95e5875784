/** Mecanum kinematics and the uniform scaling of src/chassis_control.c, lines 52-91. */
module Mecanum {
  import opened Numerics
  import opened Motors

  /** A body velocity in wheel rpm, signs as in update_targets_from_command. */
  datatype Body = Body(forward: real, strafe: real, rotate: real) {
    function Scale(k: real): Body {
      Body(Times(forward, k), Times(strafe, k), Times(rotate, k))
    }

    function L1(): real {
      Abs(forward) + Abs(strafe) + Abs(rotate)
    }
  }

  function Mix(b: Body): Wheels<real> {
    Wheels(-(b.forward + b.strafe) - b.rotate,
           -(b.forward - b.strafe) - b.rotate,
           (b.forward - b.strafe) - b.rotate,
           (b.forward + b.strafe) - b.rotate)
  }

  /** The body velocity a set of wheel speeds produces (inverse kinematics). */
  function Unmix(w: Wheels<real>): Body {
    Body((w.m3 + w.m4 - w.m1 - w.m2) / 4.0,
         (w.m2 + w.m4 - w.m1 - w.m3) / 4.0,
         -(w.m1 + w.m2 + w.m3 + w.m4) / 4.0)
  }

  function Max(a: real, b: real): real {
    if b > a then b else a
  }

  function Max4(a: real, b: real, c: real, d: real): real {
    Max(Max(Max(a, b), c), d)
  }

  function Peak(w: Wheels<real>): real {
    Max4(Abs(w.m1), Abs(w.m2), Abs(w.m3), Abs(w.m4))
  }

  // Products have a name so that most proofs can treat them as opaque terms.
  function Times(x: real, k: real): real {
    x * k
  }

  function ScaleWheels(w: Wheels<real>, k: real): Wheels<real> {
    Wheels(Times(w.m1, k), Times(w.m2, k), Times(w.m3, k), Times(w.m4, k))
  }

  /** The factor normalize_wheel_targets applies; 1 when it leaves the targets alone. */
  function Factor(peak: real, limit: real): real {
    if peak > limit && peak > 0.0 then limit / peak else 1.0
  }

  function Normalize(w: Wheels<real>, limit: real): Wheels<real> {
    if Peak(w) > limit && Peak(w) > 0.0 then ScaleWheels(w, limit / Peak(w)) else w
  }

  predicate Within(w: Wheels<real>, limit: real) {
    forall i: MotorId :: Abs(w.At(i)) <= limit
  }

  /** The largest wheel speed of a body command is its L1 norm. */
  lemma PeakIsL1(b: Body)
    ensures Peak(Mix(b)) == b.L1()
  {
  }

  lemma WithinIsPeak(w: Wheels<real>, limit: real)
    ensures Within(w, limit) <==> Peak(w) <= limit
  {
    if Within(w, limit) {
      assert Abs(w.At(1)) <= limit && Abs(w.At(2)) <= limit && Abs(w.At(3)) <= limit && Abs(w.At(4)) <= limit;
    }
  }

  lemma AbsTimes(x: real, k: real)
    ensures Abs(Times(x, k)) == Times(Abs(x), Abs(k)) && Abs(k) >= 0.0
  {
  }

  lemma MaxTimes(a: real, b: real, k: real)
    requires k >= 0.0
    ensures Max(Times(a, k), Times(b, k)) == Times(Max(a, b), k)
  {
    if b > a {
      assert (b - a) * k >= 0.0;
    } else {
      assert (a - b) * k >= 0.0;
    }
  }

  lemma Max4Times(a: real, b: real, c: real, d: real, k: real)
    requires k >= 0.0
    ensures Max4(Times(a, k), Times(b, k), Times(c, k), Times(d, k)) == Times(Max4(a, b, c, d), k)
  {
    hide Max, Times;
    MaxTimes(a, b, k);
    MaxTimes(Max(a, b), c, k);
    MaxTimes(Max(Max(a, b), c), d, k);
  }

  lemma PeakScale(w: Wheels<real>, k: real)
    ensures Peak(ScaleWheels(w, k)) == Times(Peak(w), Abs(k))
  {
    hide Abs, Max4, Times;
    AbsTimes(w.m1, k);
    AbsTimes(w.m2, k);
    AbsTimes(w.m3, k);
    AbsTimes(w.m4, k);
    Max4Times(Abs(w.m1), Abs(w.m2), Abs(w.m3), Abs(w.m4), Abs(k));
  }

  lemma DivTimes(a: real, b: real)
    requires b > 0.0
    ensures Times(b, a / b) == a && Times(b, Abs(a / b)) == Abs(a)
    ensures 0.0 <= a < b ==> 0.0 <= a / b < 1.0
  {
    var q := a / b;
    assert q * b == a;
    if q >= 1.0 {
      assert (q - 1.0) * b >= 0.0;
    }
    if q < 0.0 {
      assert q * b < 0.0;
    }
  }

  /** Scaled targets peak at |limit|; targets that are left alone keep their peak. */
  lemma NormalizedPeak(w: Wheels<real>, limit: real)
    ensures Peak(Normalize(w, limit)) ==
            if Peak(w) > limit && Peak(w) > 0.0 then Abs(limit) else Peak(w)
  {
    hide Abs, Max4, Times;
    var p := Peak(w);
    if p > limit && p > 0.0 {
      PeakScale(w, limit / p);
      DivTimes(limit, p);
    }
  }

  /** For every limit, of either sign, no normalised target exceeds its magnitude. */
  lemma NormalizedWithin(w: Wheels<real>, limit: real)
    ensures Within(Normalize(w, limit), Abs(limit))
  {
    NormalizedPeak(w, limit);
    WithinIsPeak(Normalize(w, limit), Abs(limit));
  }

  /** The wheel limit holds after normalisation for every target exactly when it is not negative. */
  lemma LimitHoldsIff(limit: real)
    ensures (forall w: Wheels<real> :: Within(Normalize(w, limit), limit)) <==> 0.0 <= limit
  {
    if 0.0 <= limit {
      forall w: Wheels<real>
        ensures Within(Normalize(w, limit), limit)
      {
        NormalizedWithin(w, limit);
      }
    } else {
      var w := Normalize(NO_TARGET, limit);
      assert !Within(w, limit) by {
        assert Abs(w.At(1)) == 0.0;
      }
    }
  }

  /** The factor is the largest k in [0,1] that brings the peak within the limit. */
  lemma FactorIsLargest(peak: real, limit: real, k: real)
    requires 0.0 <= limit && 0.0 <= peak
    ensures 0.0 <= Factor(peak, limit) <= 1.0
    ensures Times(peak, Factor(peak, limit)) <= limit
    ensures Factor(peak, limit) < 1.0 <==> peak > limit
    ensures k <= 1.0 && Times(peak, k) <= limit ==> k <= Factor(peak, limit)
  {
    if peak > limit {
      DivTimes(limit, peak);
      var f := limit / peak;
      if k > f {
        assert (k - f) * peak > 0.0;
      }
    }
  }

  /** Inverse kinematics recovers the commanded motion up to the one common factor. */
  lemma RoundTrip(b: Body, limit: real)
    ensures Unmix(Normalize(Mix(b), limit)) == b.Scale(Factor(b.L1(), limit))
  {
    PeakIsL1(b);
    hide Abs, Max4, Times;
    if b.L1() > limit && b.L1() > 0.0 {
      UnmixScaled(b, limit / b.L1());
    } else {
      TimesOne(b);
    }
  }

  lemma TimesIsOdd(x: real, k: real)
    ensures Times(-x, k) == -Times(x, k)
  {
  }

  lemma TimesOne(b: Body)
    ensures b.Scale(1.0) == b
  {
  }

  lemma UnmixScaled(b: Body, k: real)
    ensures Unmix(ScaleWheels(Mix(b), k)) == b.Scale(k)
  {
  }

  /** Opposite wheels stay balanced through the scaling. */
  lemma WheelsBalance(b: Body, limit: real)
    ensures var t := Normalize(Mix(b), limit); t.m1 + t.m4 == t.m2 + t.m3
  {
    hide Abs, Max4, Times;
    var p := Peak(Mix(b));
    if p > limit && p > 0.0 {
      BalanceScaled(Mix(b), limit / p);
    }
  }

  lemma BalanceScaled(w: Wheels<real>, k: real)
    requires w.m1 + w.m4 == w.m2 + w.m3
    ensures var t := ScaleWheels(w, k); t.m1 + t.m4 == t.m2 + t.m3
  {
    assert (w.m1 + w.m4) * k == (w.m2 + w.m3) * k;
  }

  /** Normalising twice changes nothing, for every target, exactly when the limit is not negative. */
  lemma IdempotentIff(limit: real)
    ensures (forall w: Wheels<real> :: Normalize(Normalize(w, limit), limit) == Normalize(w, limit))
            <==> 0.0 <= limit
  {
    if 0.0 <= limit {
      forall w: Wheels<real>
        ensures Normalize(Normalize(w, limit), limit) == Normalize(w, limit)
      {
        NormalizedPeak(w, limit);
      }
    } else {
      var w := Wheels(-limit, 0.0, 0.0, 0.0);
      assert Peak(w) == -limit && limit / Peak(w) == -1.0;
      var once := Normalize(w, limit);
      assert once == Wheels(limit, 0.0, 0.0, 0.0);
      assert Peak(once) == -limit;
      assert Normalize(once, limit) == w;
    }
  }

  lemma NormalizeIsOdd(w: Wheels<real>, limit: real)
    ensures Normalize(ScaleWheels(w, -1.0), limit) == ScaleWheels(Normalize(w, limit), -1.0)
  {
    NegatedPeak(w);
    hide Abs, Max4, Times, ScaleWheels;
    var p := Peak(w);
    if p > limit && p > 0.0 {
      ScaleTwice(w, limit / p);
    }
  }

  lemma NegatedPeak(w: Wheels<real>)
    ensures Peak(ScaleWheels(w, -1.0)) == Peak(w)
  {
  }

  lemma TimesCommutes(x: real, j: real, k: real)
    ensures Times(Times(x, j), k) == Times(Times(x, k), j)
  {
  }

  lemma ScaleTwice(w: Wheels<real>, k: real)
    ensures ScaleWheels(ScaleWheels(w, -1.0), k) == ScaleWheels(ScaleWheels(w, k), -1.0)
  {
    hide Times;
    TimesCommutes(w.m1, -1.0, k);
    TimesCommutes(w.m2, -1.0, k);
    TimesCommutes(w.m3, -1.0, k);
    TimesCommutes(w.m4, -1.0, k);
  }

  /** The loops of normalize_wheel_targets, on the five-slot array. */
  method NormalizeWheelTargets(target: array<real>, maxAbsRpm: real)
    requires target.Length == 5
    modifies target
    ensures FromSlots(target[..]) == Normalize(old(FromSlots(target[..])), maxAbsRpm)
    ensures target[0] == old(target[0])
  {
    hide Abs, Times;
    ghost var was := FromSlots(target[..]);
    var peak := Abs(target[1]);
    for i := 2 to 5
      invariant peak == PeakUpTo(was, i - 1)
    {
      var value := Abs(target[i]);
      if value > peak {
        peak := value;
      }
    }
    PeakUpToAll(was);
    if peak > maxAbsRpm && peak > 0.0 {
      var scale := maxAbsRpm / peak;
      for i := 1 to 5
        invariant forall j: MotorId :: target[j] == if j < i then Times(was.At(j), scale) else was.At(j)
        invariant target[0] == old(target[0])
      {
        assert target[i] == was.At(i);
        target[i] := Times(target[i], scale);
      }
      assert FromSlots(target[..]) == ScaleWheels(was, scale);
    }
  }

  lemma PeakUpToAll(w: Wheels<real>)
    ensures PeakUpTo(w, 4) == Peak(w)
  {
    assert PeakUpTo(w, 2) == Max(Abs(w.m1), Abs(w.m2));
  }

  ghost function PeakUpTo(w: Wheels<real>, i: MotorId): real {
    if i == 1 then Abs(w.At(1)) else Max(PeakUpTo(w, i - 1), Abs(w.At(i)))
  }
}
