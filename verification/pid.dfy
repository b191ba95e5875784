/** The anti-windup PID of src/pid.c. */
module Pid {
  import opened Numerics

  datatype Gains = Gains(
    kp: real, ki: real, kd: real,
    outputMax: real, outputMin: real, integralMax: real, integralMin: real)

  datatype State = State(
    gains: Gains, target: real, actual: real,
    error: real, lastError: real, prevError: real,
    integral: real, derivative: real, output: real)

  /** The state pid_init leaves behind. */
  function Fresh(gains: Gains): State {
    State(gains, 0.0, 0.0, 0.0, 0.0, 0.0, 0.0, 0.0, 0.0)
  }

  /** A non-positive time step is replaced by one millisecond. */
  function EffectiveDt(dt: real): real {
    if dt <= 0.0 then 0.001 else dt
  }

  function Area(error: real, dt: real): real {
    error * EffectiveDt(dt)
  }

  /** The integral this step proposes, clamped. */
  function Proposed(s: State, error: real, dt: real): real {
    Clamp(s.integral + Area(error, dt), s.gains.integralMin, s.gains.integralMax)
  }

  function Slope(error: real, before: real, dt: real): real {
    (error - before) / EffectiveDt(dt)
  }

  function Combine(g: Gains, error: real, integral: real, derivative: real): real {
    g.kp * error + g.ki * integral + g.kd * derivative
  }

  /** The output before its limits are applied. */
  function Raw(s: State, error: real, dt: real): real {
    Combine(s.gains, error, Proposed(s, error, dt), Slope(error, s.error, dt))
  }

  /** The proposed integral is kept unless the output saturates in the error's own direction. */
  predicate Integrates(g: Gains, output: real, error: real) {
    || g.outputMin < output < g.outputMax
    || (output == g.outputMax && error < 0.0)
    || (output == g.outputMin && error > 0.0)
  }

  function Step(s: State, target: real, actual: real, dt: real): State {
    var error := target - actual;
    var output := Clamp(Raw(s, error, dt), s.gains.outputMin, s.gains.outputMax);
    State(s.gains, target, actual, error, s.error, s.lastError,
          if Integrates(s.gains, output, error) then Proposed(s, error, dt) else s.integral,
          Slope(error, s.error, dt), output)
  }

  /** The C structure, updated in place. */
  class PIDController {
    var kp: real
    var ki: real
    var kd: real
    var target: real
    var actual: real
    var error: real
    var lastError: real
    var prevError: real
    var integral: real
    var derivative: real
    var output: real
    var outputMax: real
    var outputMin: real
    var integralMax: real
    var integralMin: real

    ghost function Model(): State
      reads this
    {
      State(Gains(kp, ki, kd, outputMax, outputMin, integralMax, integralMin),
            target, actual, error, lastError, prevError, integral, derivative, output)
    }

    constructor (gains: Gains)
      ensures Model() == Fresh(gains) == State(gains, 0.0, 0.0, 0.0, 0.0, 0.0, 0.0, 0.0, 0.0)
    {
      kp, ki, kd := gains.kp, gains.ki, gains.kd;
      outputMax, outputMin := gains.outputMax, gains.outputMin;
      integralMax, integralMin := gains.integralMax, gains.integralMin;
      new;
      Reset();
    }

    method Reset()
      modifies this
      ensures Model() == Fresh(old(Model().gains)) == State(old(Model().gains), 0.0, 0.0, 0.0, 0.0, 0.0, 0.0, 0.0, 0.0)
    {
      target := 0.0;
      actual := 0.0;
      error := 0.0;
      lastError := 0.0;
      prevError := 0.0;
      integral := 0.0;
      derivative := 0.0;
      output := 0.0;
    }

    method Calculate(newTarget: real, newActual: real, dtS: real) returns (result: real)
      modifies this
      ensures Model() == Step(old(Model()), newTarget, newActual, dtS)
      ensures result == output
    {
      var dt := dtS;
      if dt <= 0.0 {
        dt := 0.001;
      }
      target := newTarget;
      actual := newActual;
      prevError := lastError;
      lastError := error;
      error := target - actual;
      derivative := (error - lastError) / dt;

      var newIntegral := integral + error * dt;
      ghost var was := old(Model());
      assert newIntegral == was.integral + Area(error, dtS);
      assert derivative == Slope(error, was.error, dtS);
      if newIntegral > integralMax {
        newIntegral := integralMax;
      } else if newIntegral < integralMin {
        newIntegral := integralMin;
      }

      assert newIntegral == Proposed(was, error, dtS);
      result := kp * error + ki * newIntegral + kd * derivative;
      ghost var raw := result;
      assert raw == Combine(was.gains, error, newIntegral, derivative);
      assert raw == Raw(was, error, dtS);
      if result > outputMax {
        result := outputMax;
      } else if result < outputMin {
        result := outputMin;
      }

      assert result == Clamp(raw, outputMin, outputMax);
      if || (result < outputMax && result > outputMin)
         || (result == outputMax && error < 0.0)
         || (result == outputMin && error > 0.0)
      {
        integral := newIntegral;
      }
      output := result;
    }
  }
}

/** What src/pid.c guarantees over whole runs between two resets. */
module PidRuns {
  import opened Numerics
  import opened Pid

  datatype Input = Input(target: real, actual: real, dt: real) {
    function Error(): real {
      target - actual
    }

    /** Error times time step, where a step that is not positive counts one millisecond. */
    function InputArea(): real {
      (target - actual) * (if dt <= 0.0 then 0.001 else dt)
    }
  }

  /**
   * The control law in plain arithmetic, for every state, gains and input. The output is the textbook
   * sum over the limited integral, or the limit that sum passes; at a limit the integral moves only
   * when the error points away from it.
   */
  lemma ControlLaw(s: State, target: real, actual: real, dt: real) returns (h: real, sum: real, limited: real, raw: real)
    ensures h == if dt <= 0.0 then 0.001 else dt
    ensures sum == s.integral + (target - actual) * h
    ensures limited == if sum > s.gains.integralMax then s.gains.integralMax
                       else if sum < s.gains.integralMin then s.gains.integralMin else sum
    ensures raw == s.gains.kp * (target - actual) + s.gains.ki * limited
                   + s.gains.kd * ((target - actual - s.error) / h)
    ensures var g, t, e := s.gains, Step(s, target, actual, dt), target - actual;
            && (g.outputMin <= raw <= g.outputMax ==> t.output == raw)
            && (raw > g.outputMax ==> t.output == g.outputMax)
            && (raw < g.outputMin && raw <= g.outputMax ==> t.output == g.outputMin)
            && t.integral == (if || g.outputMin < t.output < g.outputMax
                                 || (t.output == g.outputMax && e < 0.0)
                                 || (t.output == g.outputMin && e > 0.0)
                              then limited else s.integral)
    ensures var t := Step(s, target, actual, dt);
            && t.target == target && t.actual == actual && t.gains == s.gains
            && t.error == target - actual && t.lastError == s.error && t.prevError == s.lastError
            && t.derivative == (target - actual - s.error) / h
  {
    hide Area, Slope, Combine;
    var e := target - actual;
    h := EffectiveDt(dt);
    sum := s.integral + Area(e, dt);
    limited := Proposed(s, e, dt);
    raw := Raw(s, e, dt);
    AreaLaw(e, dt);
    SlopeLaw(e, s.error, dt);
    CombineLaw(s.gains, e, limited, Slope(e, s.error, dt));
  }

  lemma AreaLaw(error: real, dt: real)
    ensures Area(error, dt) == error * (if dt <= 0.0 then 0.001 else dt)
  {
  }

  lemma SlopeLaw(error: real, before: real, dt: real)
    ensures Slope(error, before, dt) == (error - before) / (if dt <= 0.0 then 0.001 else dt)
  {
  }

  lemma CombineLaw(g: Gains, error: real, integral: real, derivative: real)
    ensures Combine(g, error, integral, derivative) == g.kp * error + g.ki * integral + g.kd * derivative
  {
  }

  /** A fresh PID fed with all inputs in order. */
  function Run(g: Gains, ins: seq<Input>): State {
    RunFrom(Fresh(g), ins)
  }

  function RunFrom(s: State, ins: seq<Input>): State {
    if ins == [] then s
    else
      var last := ins[|ins| - 1];
      Step(RunFrom(s, ins[..|ins| - 1]), last.target, last.actual, last.dt)
  }

  lemma RunAppend(g: Gains, ins: seq<Input>, x: Input)
    ensures Run(g, ins + [x]) == Step(Run(g, ins), x.target, x.actual, x.dt)
  {
    assert (ins + [x])[..|ins|] == ins;
  }

  lemma {:induction false} RunKeepsGains(g: Gains, ins: seq<Input>)
    ensures Run(g, ins).gains == g
  {
    if ins != [] {
      RunKeepsGains(g, ins[..|ins| - 1]);
    }
  }

  /** The error k steps before the last one; zero before the run began. */
  function ErrorBack(ins: seq<Input>, k: nat): real {
    if k < |ins| then ins[|ins| - 1 - k].target - ins[|ins| - 1 - k].actual else 0.0
  }

  /** The time integral of the error. */
  function SumArea(ins: seq<Input>): real {
    if ins == [] then 0.0 else SumArea(ins[..|ins| - 1]) + ins[|ins| - 1].InputArea()
  }

  /** The textbook PID of an error history: no limits, no state. */
  function Textbook(g: Gains, ins: seq<Input>): real
    requires ins != []
  {
    var h := if ins[|ins| - 1].dt <= 0.0 then 0.001 else ins[|ins| - 1].dt;
    g.kp * ErrorBack(ins, 0) + g.ki * SumArea(ins) + g.kd * ((ErrorBack(ins, 0) - ErrorBack(ins, 1)) / h)
  }

  function SumAbsArea(ins: seq<Input>): real {
    if ins == [] then 0.0 else SumAbsArea(ins[..|ins| - 1]) + Abs(ins[|ins| - 1].InputArea())
  }

  /** Both pairs of limits straddle zero, as every caller in the repository sets them. */
  predicate Straddles(g: Gains) {
    g.outputMin <= 0.0 <= g.outputMax && g.integralMin <= 0.0 <= g.integralMax
  }

  lemma StepStaysInLimits(s: State, x: Input)
    requires Straddles(s.gains) && s.gains.integralMin <= s.integral <= s.gains.integralMax
    ensures var t := Step(s, x.target, x.actual, x.dt);
            && s.gains.outputMin <= t.output <= s.gains.outputMax
            && s.gains.integralMin <= t.integral <= s.gains.integralMax
            && Abs(t.integral) <= Abs(s.integral) + Abs(x.InputArea())
  {
    hide Combine, Slope;
    ClampShrinks(s.integral + x.InputArea(), s.gains.integralMin, s.gains.integralMax);
  }

  lemma ClampShrinks(v: real, lo: real, hi: real)
    requires lo <= 0.0 <= hi
    ensures lo <= Clamp(v, lo, hi) <= hi && Abs(Clamp(v, lo, hi)) <= Abs(v)
  {
  }

  lemma {:induction false} RunInvariants(g: Gains, ins: seq<Input>)
    requires Straddles(g)
    ensures var s := Run(g, ins);
            && g.outputMin <= s.output <= g.outputMax
            && g.integralMin <= s.integral <= g.integralMax
            && Abs(s.integral) <= SumAbsArea(ins)
            && s.error == ErrorBack(ins, 0)
            && s.lastError == ErrorBack(ins, 1)
            && s.prevError == ErrorBack(ins, 2)
  {
    hide Combine, Slope, Area;
    if ins != [] {
      var init := ins[..|ins| - 1];
      RunInvariants(g, init);
      RunKeepsGains(g, init);
      var s := Run(g, init);
      var x := ins[|ins| - 1];
      assert s.error == ErrorBack(ins, 1) && s.lastError == ErrorBack(ins, 2);
      StepStaysInLimits(s, x);
    }
  }

  /** The textbook PID of this history and of all its prefixes stays inside every limit. */
  predicate MeetsNoLimit(g: Gains, ins: seq<Input>) {
    ins == [] ||
    (&& MeetsNoLimit(g, ins[..|ins| - 1])
     && g.integralMin <= SumArea(ins) <= g.integralMax
     && g.outputMin < Textbook(g, ins) < g.outputMax)
  }

  /** As long as the textbook PID of the error history meets no limit, the controller is that PID. */
  lemma {:induction false} TextbookPid(g: Gains, ins: seq<Input>)
    requires MeetsNoLimit(g, ins)
    ensures Run(g, ins).integral == SumArea(ins) && Run(g, ins).error == ErrorBack(ins, 0)
    ensures ins != [] ==> Run(g, ins).output == Textbook(g, ins)
  {
    if ins != [] {
      hide Step, Textbook, SumArea;
      var init := ins[..|ins| - 1];
      TextbookPid(g, init);
      RunKeepsGains(g, init);
      assert ErrorBack(init, 0) == ErrorBack(ins, 1);
      TextbookStep(Run(g, init), ins);
    }
  }

  /** One step of that run. */
  lemma TextbookStep(s: State, ins: seq<Input>)
    requires ins != [] && s.integral == SumArea(ins[..|ins| - 1]) && s.error == ErrorBack(ins, 1)
    requires s.gains.integralMin <= SumArea(ins) <= s.gains.integralMax
    requires s.gains.outputMin < Textbook(s.gains, ins) < s.gains.outputMax
    ensures var x := ins[|ins| - 1];
            var t := Step(s, x.target, x.actual, x.dt);
            t.integral == SumArea(ins) && t.error == ErrorBack(ins, 0) && t.output == Textbook(s.gains, ins)
  {
    hide Area, Slope, Combine, SumArea, Textbook, Input.InputArea;
    var x := ins[|ins| - 1];
    var e := ErrorBack(ins, 0);
    AreaLaw(e, x.dt);
    SumAreaStep(ins);
    assert Proposed(s, e, x.dt) == SumArea(ins);
    TextbookTerms(s.gains, ins);
    assert Raw(s, e, x.dt) == Textbook(s.gains, ins);
  }

  lemma SumAreaStep(ins: seq<Input>)
    requires ins != []
    ensures SumArea(ins) == SumArea(ins[..|ins| - 1]) + Area(ErrorBack(ins, 0), ins[|ins| - 1].dt)
  {
  }

  lemma TextbookTerms(g: Gains, ins: seq<Input>)
    requires ins != []
    ensures Textbook(g, ins) ==
            Combine(g, ErrorBack(ins, 0), SumArea(ins), Slope(ErrorBack(ins, 0), ErrorBack(ins, 1), ins[|ins| - 1].dt))
  {
    hide ErrorBack, SumArea;
  }

  predicate Saturated(s: State) {
    s.output == s.gains.outputMax || s.output == s.gains.outputMin
  }

  /** A positive proportional gain, no negative integral gain, and limits on both sides of zero. */
  predicate Regular(g: Gains) {
    && g.kp > 0.0 && g.ki >= 0.0
    && g.outputMin < 0.0 < g.outputMax && g.integralMin < 0.0 < g.integralMax
  }

  /** Proportional-integral gains. */
  predicate IsPi(g: Gains) {
    Regular(g) && g.kd == 0.0
  }

  function IntegralTerm(g: Gains, integral: real): real {
    g.ki * integral
  }

  predicate IntegralInLimits(s: State) {
    s.gains.integralMin <= s.integral <= s.gains.integralMax
  }

  /** The integral term on its own stays strictly inside the output limits. */
  predicate Inside(s: State) {
    && IntegralInLimits(s)
    && s.gains.outputMin < IntegralTerm(s.gains, s.integral) < s.gains.outputMax
  }

  /** A step whose integral is kept only because of an override disjunct (pid.c lines 90-91). */
  predicate OverrideFires(s: State, x: Input) {
    var t := Step(s, x.target, x.actual, x.dt);
    || (t.output == s.gains.outputMax && t.error < 0.0)
    || (t.output == s.gains.outputMin && t.error > 0.0)
  }

  /** A limit is met only by an error of its own sign, and then the integral is frozen. */
  predicate SaturatesForward(s: State, x: Input) {
    var t := Step(s, x.target, x.actual, x.dt);
    && (t.output == s.gains.outputMax ==> t.error > 0.0)
    && (t.output == s.gains.outputMin ==> t.error < 0.0)
    && (Saturated(t) ==> t.integral == s.integral)
  }

  lemma MulMono(k: real, a: real, b: real)
    requires 0.0 <= k && a <= b
    ensures k * a <= k * b
  {
  }

  lemma AreaSign(error: real, dt: real)
    ensures (error >= 0.0 ==> Area(error, dt) >= 0.0) && (error <= 0.0 ==> Area(error, dt) <= 0.0)
  {
  }

  /**
   * Without a derivative gain the raw output is a term with the error's sign plus the integral
   * term, which has moved in the error's direction or not at all.
   */
  lemma PiTerms(s: State, x: Input) returns (p: real, i: real)
    requires IsPi(s.gains) && IntegralInLimits(s)
    ensures Raw(s, x.Error(), x.dt) == p + i
    ensures (p > 0.0 <==> x.Error() > 0.0) && (p < 0.0 <==> x.Error() < 0.0)
    ensures i == IntegralTerm(s.gains, Proposed(s, x.Error(), x.dt))
    ensures x.Error() >= 0.0 ==> i >= IntegralTerm(s.gains, s.integral)
    ensures x.Error() <= 0.0 ==> i <= IntegralTerm(s.gains, s.integral)
  {
    hide Slope, Area;
    var g, proposed := s.gains, Proposed(s, x.Error(), x.dt);
    p, i := g.kp * x.Error(), g.ki * proposed;
    AreaSign(x.Error(), x.dt);
    if x.Error() >= 0.0 {
      MulMono(g.ki, s.integral, proposed);
    }
    if x.Error() <= 0.0 {
      MulMono(g.ki, proposed, s.integral);
    }
    assert g.kd * Slope(x.Error(), s.error, x.dt) == 0.0;
  }

  /** One step from inside: it stays inside, saturates only forward, and needs no override. */
  lemma InsideStep(s: State, x: Input)
    requires IsPi(s.gains) && Inside(s)
    ensures Inside(Step(s, x.target, x.actual, x.dt))
    ensures SaturatesForward(s, x) && !OverrideFires(s, x)
  {
    hide Raw, IntegralTerm, Area;
    var p, i := PiTerms(s, x);
  }

  /** Being inside is exactly what forward saturation takes. */
  lemma SaturatesForwardIff(s: State)
    requires IsPi(s.gains) && IntegralInLimits(s)
    ensures (forall x: Input :: SaturatesForward(s, x)) <==> Inside(s)
  {
    hide Raw, IntegralTerm, Area;
    if Inside(s) {
      forall x: Input
        ensures SaturatesForward(s, x)
      {
        InsideStep(s, x);
      }
    } else {
      var still := Input(0.0, 0.0, 1.0);
      var p, i := PiTerms(s, still);
      assert !SaturatesForward(s, still);
    }
  }

  /** Every run since reset stays inside, for every choice of PI gains. */
  lemma {:induction false} RunsStayInside(g: Gains, ins: seq<Input>)
    requires IsPi(g)
    ensures Inside(Run(g, ins))
  {
    RunKeepsGains(g, ins);
    if ins != [] {
      var init := ins[..|ins| - 1];
      hide Inside;
      RunsStayInside(g, init);
      RunKeepsGains(g, init);
      InsideStep(Run(g, init), ins[|ins| - 1]);
    } else {
      assert IntegralTerm(g, 0.0) == 0.0;
    }
  }

  /** In every run since reset, saturation at a limit has the limit's sign and freezes the integral. */
  lemma SaturationHasErrorSign(g: Gains, ins: seq<Input>, x: Input)
    requires IsPi(g)
    ensures SaturatesForward(Run(g, ins), x)
  {
    hide Inside, SaturatesForward;
    RunsStayInside(g, ins);
    RunKeepsGains(g, ins);
    InsideStep(Run(g, ins), x);
  }

  /** Every step of the burst, run from s, ends saturated. */
  predicate AllSaturated(s: State, burst: seq<Input>) {
    burst == [] ||
    (AllSaturated(s, burst[..|burst| - 1]) && Saturated(RunFrom(s, burst)))
  }

  /** From inside, a burst of saturated steps leaves the integral as it found it. */
  lemma {:induction false} BurstFromInside(s: State, burst: seq<Input>)
    requires IsPi(s.gains) && Inside(s) && AllSaturated(s, burst)
    ensures var t := RunFrom(s, burst); t.integral == s.integral && t.gains == s.gains && Inside(t)
  {
    hide IntegralTerm;
    if burst != [] {
      var init := burst[..|burst| - 1];
      BurstFromInside(s, init);
      InsideStep(RunFrom(s, init), burst[|burst| - 1]);
    }
  }

  /** No wind-up: after any run, a saturated burst of any length leaves the integral where it was. */
  lemma BurstKeepsIntegral(g: Gains, ins: seq<Input>, burst: seq<Input>)
    requires IsPi(g)
    ensures AllSaturated(Run(g, ins), burst) ==> RunFrom(Run(g, ins), burst).integral == Run(g, ins).integral
  {
    hide Inside;
    RunsStayInside(g, ins);
    RunKeepsGains(g, ins);
    if AllSaturated(Run(g, ins), burst) {
      BurstFromInside(Run(g, ins), burst);
    }
  }

  /**
   * The override disjuncts fire in no run since reset exactly when the derivative gain is zero: a
   * derivative kick is the only way to meet a limit with an error of the other sign.
   */
  lemma OverridesDeadIff(g: Gains)
    requires Regular(g)
    ensures (forall ins: seq<Input>, x: Input :: !OverrideFires(Run(g, ins), x)) <==> g.kd == 0.0
  {
    if g.kd == 0.0 {
      forall ins: seq<Input>, x: Input
        ensures !OverrideFires(Run(g, ins), x)
      {
        RunsStayInside(g, ins);
        RunKeepsGains(g, ins);
        InsideStep(Run(g, ins), x);
      }
    } else {
      var ins, x := DerivativeKick(g);
      assert OverrideFires(Run(g, ins), x);
    }
  }

  lemma RunOfOne(g: Gains, x: Input)
    ensures Run(g, [x]).error == x.Error() && Run(g, [x]).gains == g
  {
    hide Raw, Proposed, Slope;
    RunAppend(g, [], x);
    RunKeepsGains(g, [x]);
    assert [] + [x] == [x];
  }

  lemma SlopeOfJump(error: real, jump: real)
    ensures Slope(error, error - jump, 1.0) == jump
  {
  }

  /** The derivative gain times this jump outweighs the other two terms at the upper limit. */
  lemma KickUp(s: State, jump: real)
    requires Regular(s.gains) && s.error == -1.0 - jump
    requires s.gains.kd * jump == s.gains.outputMax + s.gains.kp - s.gains.ki * s.gains.integralMin
    ensures OverrideFires(s, Input(-1.0, 0.0, 1.0))
  {
    hide Slope, Area;
    SlopeOfJump(-1.0, jump);
    MulMono(s.gains.ki, s.gains.integralMin, Proposed(s, -1.0, 1.0));
    assert Raw(s, -1.0, 1.0) >= s.gains.outputMax;
    hide Raw;
  }

  lemma KickDown(s: State, jump: real)
    requires Regular(s.gains) && s.error == 1.0 - jump
    requires s.gains.kd * jump == s.gains.outputMin - s.gains.kp - s.gains.ki * s.gains.integralMax
    ensures OverrideFires(s, Input(1.0, 0.0, 1.0))
  {
    hide Slope, Area;
    SlopeOfJump(1.0, jump);
    MulMono(s.gains.ki, Proposed(s, 1.0, 1.0), s.gains.integralMax);
    assert Raw(s, 1.0, 1.0) <= s.gains.outputMin;
    hide Raw;
  }

  lemma Divides(a: real, b: real)
    requires b != 0.0
    ensures b * (a / b) == a
  {
  }

  /** One step, then a second whose derivative drives the output against its error. */
  lemma DerivativeKick(g: Gains) returns (ins: seq<Input>, x: Input)
    requires Regular(g) && g.kd != 0.0
    ensures OverrideFires(Run(g, ins), x)
  {
    hide OverrideFires, Run;
    if g.kd > 0.0 {
      var reach := g.outputMax + g.kp - g.ki * g.integralMin;
      ins, x := [Input(-1.0 - reach / g.kd, 0.0, 1.0)], Input(-1.0, 0.0, 1.0);
      RunOfOne(g, ins[0]);
      Divides(reach, g.kd);
      KickUp(Run(g, ins), reach / g.kd);
    } else {
      var reach := g.outputMin - g.kp - g.ki * g.integralMax;
      ins, x := [Input(1.0 - reach / g.kd, 0.0, 1.0)], Input(1.0, 0.0, 1.0);
      RunOfOne(g, ins[0]);
      Divides(reach, g.kd);
      KickDown(Run(g, ins), reach / g.kd);
    }
  }
}
