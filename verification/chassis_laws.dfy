/**
 * What an active step of src/chassis_control.c computes, in plain arithmetic: from the commanded axes
 * to the wheel targets, and from targets and measured speeds to the rounded currents.
 */
module ChassisLaws {
  import opened Numerics
  import opened Motors
  import opened Mecanum
  import opened ChassisControl
  import opened ChassisHistory
  import Pid
  import PidRuns

  /** The body velocity in rpm: each axis limited to [-1, 1] and scaled, the forward axis inverted. */
  lemma BodyLaw(config: Config, cmd: Command) returns (axes: Command)
    ensures axes.forward == if cmd.forward > 1.0 then 1.0 else if cmd.forward < -1.0 then -1.0 else cmd.forward
    ensures axes.strafe == if cmd.strafe > 1.0 then 1.0 else if cmd.strafe < -1.0 then -1.0 else cmd.strafe
    ensures axes.rotate == if cmd.rotate > 1.0 then 1.0 else if cmd.rotate < -1.0 then -1.0 else cmd.rotate
    ensures var b := BodyOf(config, cmd);
            && b.forward == -(axes.forward * config.maxTranslateRpm)
            && b.strafe == axes.strafe * config.maxTranslateRpm && b.rotate == axes.rotate * config.maxRotateRpm
  {
    hide Command.Clamped, Times;
    axes := cmd.Clamped();
    TimesIsOdd(axes.forward, config.maxTranslateRpm);
    TimesLaw(axes.forward, config.maxTranslateRpm);
    TimesLaw(axes.strafe, config.maxTranslateRpm);
    TimesLaw(axes.rotate, config.maxRotateRpm);
  }

  /** The mixing signs of the wheel layout. */
  lemma MixLaw(b: Body)
    ensures var f, s, r := b.forward, b.strafe, b.rotate;
            Mix(b) == Wheels(-f - s - r, -f + s - r, f - s - r, f + s - r)
  {
  }

  /**
   * The targets are the mixed wheel speeds times one factor, the one that brings the sum of the
   * three magnitudes within the translation limit.
   */
  lemma TargetsLaw(config: Config, cmd: Command) returns (sum: real, k: real)
    ensures var b := BodyOf(config, cmd);
            sum == (if b.forward < 0.0 then -b.forward else b.forward)
                   + (if b.strafe < 0.0 then -b.strafe else b.strafe)
                   + (if b.rotate < 0.0 then -b.rotate else b.rotate)
    ensures k == if sum > config.maxTranslateRpm && sum > 0.0 then config.maxTranslateRpm / sum else 1.0
    ensures var w, t := Mix(BodyOf(config, cmd)), Targets(config, cmd);
            t.m1 == w.m1 * k && t.m2 == w.m2 * k && t.m3 == w.m3 * k && t.m4 == w.m4 * k
  {
    hide BodyOf, Mix, Factor, Normalize, Body.L1;
    var b := BodyOf(config, cmd);
    sum, k := b.L1(), Factor(b.L1(), config.maxTranslateRpm);
    FactorLaw(b, config.maxTranslateRpm);
    NormalizedMix(b, config.maxTranslateRpm);
  }

  lemma TimesLaw(x: real, k: real)
    ensures Times(x, k) == x * k
  {
  }

  lemma FactorLaw(b: Body, limit: real)
    ensures var f, s, r := b.forward, b.strafe, b.rotate;
            var sum := (if f < 0.0 then -f else f) + (if s < 0.0 then -s else s) + (if r < 0.0 then -r else r);
            b.L1() == sum && Factor(b.L1(), limit) == if sum > limit && sum > 0.0 then limit / sum else 1.0
  {
    assert Abs(b.forward) == if b.forward < 0.0 then -b.forward else b.forward;
    assert Abs(b.strafe) == if b.strafe < 0.0 then -b.strafe else b.strafe;
    assert Abs(b.rotate) == if b.rotate < 0.0 then -b.rotate else b.rotate;
  }

  lemma NormalizedMix(b: Body, limit: real)
    ensures var w, t, k := Mix(b), Normalize(Mix(b), limit), Factor(b.L1(), limit);
            t.m1 == w.m1 * k && t.m2 == w.m2 * k && t.m3 == w.m3 * k && t.m4 == w.m4 * k
  {
    hide Times, Peak, Mix, Body.L1;
    PeakIsL1(b);
    var w, k := Mix(b), Factor(b.L1(), limit);
    TimesLaw(w.m1, k);
    TimesLaw(w.m2, k);
    TimesLaw(w.m3, k);
    TimesLaw(w.m4, k);
  }

  /**
   * Motor i's current in an active step after any history on a running clock, with the shipped gains
   * and limits as numbers. Since the controller is PI, the integral moves exactly when the output is
   * strictly inside its limits.
   */
  lemma CurrentLaw(config: Config, t0: uint64, memory: Wheels<Feedback>, es: seq<Event>, now: uint64, dt: real,
                   i: MotorId)
    returns (e: real, sum: real, limited: real, raw: real, out: real)
    requires ClockRuns(t0, es) && LastTime(t0, es) <= now && Active(config, es, now)
    ensures LastOrder(es).MoveOrder? && LastHeard(es, i).Heard?
    ensures e == Targets(config, LastOrder(es).cmd).At(i) - LastHeard(es, i).fb.speedRpm as real
    ensures sum == Run(Init(config, t0, memory), es).pid.At(i).integral + e * (if dt <= 0.0 then 0.001 else dt)
    ensures limited == if sum > 2500.0 then 2500.0 else if sum < -2500.0 then -2500.0 else sum
    ensures raw == 2.0 * e + (if i == 1 then 0.35 else if i == 2 then 0.30 else if i == 3 then 0.40 else 0.60) * limited
    ensures out == if raw > 6500.0 then 6500.0 else if raw < -6500.0 then -6500.0 else raw
    ensures var c := Run(Init(config, t0, memory), es);
            var o := Step(c, now, dt);
            var current := o.currents.At(i) as real;
            && out - 0.5 <= current <= out + 0.5
            && (current == out - 0.5 || current == out + 0.5 ==> o.currents.At(i) % 2 == 0)
            && o.next.pid.At(i).integral == if -6500.0 < out < 6500.0 then limited else c.pid.At(i).integral
  {
    hide Step, Targets, Run, Init, RoundEven, PidRuns.Run, Pid.Step;
    var c := Run(Init(config, t0, memory), es);
    assert HeardInTime(config, es, i, now);
    StepRefinesHistory(config, t0, memory, es, now, dt);
    PidsRefineHistory(config, t0, memory, es);
    var x := InputAt(config, es, i, dt);
    sum, limited, raw, out := ShippedStep(i, Inputs(config, es, i), x);
    e := x.target - x.actual;
    var p := Step(c, now, dt).next.pid.At(i);
    assert p.output == out && IsNearestEven(out, Step(c, now, dt).currents.At(i));
  }

  /** One more step of a shipped PID after any run. */
  lemma ShippedStep(i: MotorId, ins: seq<PidRuns.Input>, x: PidRuns.Input)
    returns (sum: real, limited: real, raw: real, out: real)
    ensures sum == PidRuns.Run(ShippedGains(i), ins).integral + (x.target - x.actual) * (if x.dt <= 0.0 then 0.001 else x.dt)
    ensures limited == if sum > 2500.0 then 2500.0 else if sum < -2500.0 then -2500.0 else sum
    ensures raw == 2.0 * (x.target - x.actual)
                   + (if i == 1 then 0.35 else if i == 2 then 0.30 else if i == 3 then 0.40 else 0.60) * limited
    ensures out == if raw > 6500.0 then 6500.0 else if raw < -6500.0 then -6500.0 else raw
    ensures var s, t := PidRuns.Run(ShippedGains(i), ins), PidRuns.Run(ShippedGains(i), ins + [x]);
            t.output == out && t.integral == if -6500.0 < out < 6500.0 then limited else s.integral
  {
    hide PidRuns.Run, Pid.Step, PidRuns.OverrideFires;
    var g := ShippedGains(i);
    PidRuns.RunAppend(g, ins, x);
    PidRuns.RunKeepsGains(g, ins);
    PidRuns.SaturationHasErrorSign(g, ins, x);
    var h;
    h, sum, limited, raw := PidRuns.ControlLaw(PidRuns.Run(g, ins), x.target, x.actual, x.dt);
    out := PidRuns.Run(g, ins + [x]).output;
  }
}
