/** Reversing every command and every wheel speed reverses everything the controller does. */
module ChassisSymmetry {
  import opened Numerics
  import opened Motors
  import opened Mecanum
  import opened ChassisControl
  import opened ChassisHistory
  import opened ChassisRestart
  import Pid

  function Reversed(cmd: Command): Command {
    Command(-cmd.forward, -cmd.strafe, -cmd.rotate)
  }

  /** The event of the reversed world; the speed -32768 has no opposite in int16. */
  function Reverse(e: Event): Event
    requires e.Received? ==> e.fb.speedRpm != -32768
  {
    match e
    case Commanded(cmd, at) => Commanded(Reversed(cmd), at)
    case Received(fb) => Received(fb.(speedRpm := -fb.speedRpm))
    case _ => e
  }

  predicate Reversible(es: seq<Event>) {
    forall k :: 0 <= k < |es| ==> es[k].Received? ==> es[k].fb.speedRpm != -32768
  }

  function ReverseAll(es: seq<Event>): seq<Event>
    requires Reversible(es)
  {
    if es == [] then [] else ReverseAll(es[..|es| - 1]) + [Reverse(es[|es| - 1])]
  }

  predicate MirrorPid(a: Pid.State, b: Pid.State) {
    && a.gains == b.gains
    && b.target == -a.target && b.actual == -a.actual
    && b.error == -a.error && b.lastError == -a.lastError && b.prevError == -a.prevError
    && b.integral == -a.integral && b.derivative == -a.derivative && b.output == -a.output
  }

  predicate MirrorSlot(a: Feedback, b: Feedback) {
    a.online == b.online &&
    (a.online ==> a.speedRpm != -32768 && b == a.(speedRpm := -a.speedRpm))
  }

  predicate MirrorTargets(a: Wheels<real>, b: Wheels<real>) {
    b == Wheels(-a.m1, -a.m2, -a.m3, -a.m4)
  }

  predicate MirrorCurrents(a: Wheels<int16>, b: Wheels<int16>) {
    b.m1 + a.m1 == 0 && b.m2 + a.m2 == 0 && b.m3 + a.m3 == 0 && b.m4 + a.m4 == 0
  }

  predicate MirrorPids(a: Wheels<Pid.State>, b: Wheels<Pid.State>) {
    MirrorPid(a.m1, b.m1) && MirrorPid(a.m2, b.m2) && MirrorPid(a.m3, b.m3) && MirrorPid(a.m4, b.m4)
  }

  predicate Mirror(a: Controller, b: Controller) {
    && a.config == b.config && a.lastCommandMs == b.lastCommandMs
    && b.command == Reversed(a.command)
    && Shipped(a)
    && MirrorPids(a.pid, b.pid)
    && MirrorTargets(a.target, b.target)
    && MirrorSlot(a.feedback.m1, b.feedback.m1) && MirrorSlot(a.feedback.m2, b.feedback.m2)
    && MirrorSlot(a.feedback.m3, b.feedback.m3) && MirrorSlot(a.feedback.m4, b.feedback.m4)
  }

  lemma AreaIsOdd(error: real, dt: real)
    ensures Pid.Area(-error, dt) == -Pid.Area(error, dt)
  {
  }

  lemma SlopeIsOdd(error: real, before: real, dt: real)
    ensures Pid.Slope(-error, -before, dt) == -Pid.Slope(error, before, dt)
  {
    var e := Pid.EffectiveDt(dt);
    assert (-error - -before) / e == -((error - before) / e);
  }

  lemma CombineIsOdd(g: Pid.Gains, error: real, integral: real, derivative: real)
    ensures Pid.Combine(g, -error, -integral, -derivative) == -Pid.Combine(g, error, integral, derivative)
  {
  }

  /** One PID step is odd when its limits are symmetric. */
  lemma MirrorPidStep(a: Pid.State, b: Pid.State, target: real, actual: real, dt: real)
    requires MirrorPid(a, b)
    requires a.gains.outputMin == -a.gains.outputMax && a.gains.outputMax > 0.0
    requires a.gains.integralMin == -a.gains.integralMax && a.gains.integralMax > 0.0
    ensures MirrorPid(Pid.Step(a, target, actual, dt), Pid.Step(b, -target, -actual, dt))
  {
    var error := target - actual;
    assert -target - -actual == -error;
    AreaIsOdd(error, dt);
    SlopeIsOdd(error, a.error, dt);
    hide Pid.Area, Pid.Slope, Pid.Combine;
    assert Pid.Proposed(b, -error, dt) == -Pid.Proposed(a, error, dt);
    CombineIsOdd(a.gains, error, Pid.Proposed(a, error, dt), Pid.Slope(error, a.error, dt));
    assert Pid.Raw(b, -error, dt) == -Pid.Raw(a, error, dt);
  }

  lemma MirrorDrive(i: MotorId, a: Pid.State, b: Pid.State, target: real, fa: Feedback, fb: Feedback, dt: real)
    requires MirrorPid(a, b) && a.gains == ShippedGains(i)
    requires MirrorSlot(fa, fb) && fa.online
    ensures MirrorPid(Drive(a, target, fa, dt), Drive(b, -target, fb, dt))
    ensures CurrentOf(Drive(b, -target, fb, dt)) == -CurrentOf(Drive(a, target, fa, dt))
    ensures Drive(a, target, fa, dt).gains == a.gains
  {
    hide Pid.Step, RoundEven;
    MirrorPidStep(a, b, target, fa.speedRpm as real, dt);
    var out := Drive(a, target, fa, dt).output;
    OutputBounded(i, a, target, fa.speedRpm as real, dt);
    RoundEvenBounded(out, 6500);
    RoundEvenIsOdd(out);
  }

  lemma OutputBounded(i: MotorId, s: Pid.State, target: real, actual: real, dt: real)
    requires s.gains == ShippedGains(i)
    ensures -6500.0 <= Pid.Step(s, target, actual, dt).output <= 6500.0
    ensures Pid.Step(s, target, actual, dt).gains == s.gains
  {
    hide Pid.Raw, Pid.Proposed, Pid.Slope;
  }

  lemma BodyIsOdd(config: Config, cmd: Command)
    ensures Mix(BodyOf(config, Reversed(cmd))) == ScaleWheels(Mix(BodyOf(config, cmd)), -1.0)
  {
    TimesIsOdd(-cmd.Clamped().forward, config.maxTranslateRpm);
    TimesIsOdd(cmd.Clamped().strafe, config.maxTranslateRpm);
    TimesIsOdd(cmd.Clamped().rotate, config.maxRotateRpm);
    var b := BodyOf(config, cmd);
    assert BodyOf(config, Reversed(cmd)) == Body(-b.forward, -b.strafe, -b.rotate) by {
      hide Times;
    }
  }

  lemma TargetsAreOdd(config: Config, cmd: Command)
    ensures MirrorTargets(Targets(config, cmd), Targets(config, Reversed(cmd)))
  {
    BodyIsOdd(config, cmd);
    NormalizeIsOdd(Mix(BodyOf(config, cmd)), config.maxTranslateRpm);
    hide Normalize;
  }

  lemma MirrorDriveAll(a: Controller, b: Controller, t: Wheels<real>, u: Wheels<real>, dt: real)
    requires Mirror(a, b) && MirrorTargets(t, u)
    requires a.feedback.m1.online && a.feedback.m2.online && a.feedback.m3.online && a.feedback.m4.online
    ensures var p, q := DriveAll(a.pid, t, a.feedback, dt), DriveAll(b.pid, u, b.feedback, dt);
            && MirrorPids(p, q)
            && MirrorCurrents(CurrentsOf(p), CurrentsOf(q))
            && Shipped(a.(pid := p))
  {
    hide CurrentOf, Drive, MirrorPid;
    MirrorDrive(1, a.pid.m1, b.pid.m1, t.m1, a.feedback.m1, b.feedback.m1, dt);
    MirrorDrive(2, a.pid.m2, b.pid.m2, t.m2, a.feedback.m2, b.feedback.m2, dt);
    MirrorDrive(3, a.pid.m3, b.pid.m3, t.m3, a.feedback.m3, b.feedback.m3, dt);
    MirrorDrive(4, a.pid.m4, b.pid.m4, t.m4, a.feedback.m4, b.feedback.m4, dt);
  }

  lemma MirrorReset(a: Controller, b: Controller)
    requires Mirror(a, b)
    ensures Mirror(ResetMotion(a), ResetMotion(b))
    ensures Mirror(a.(pid := ResetPids(a.pid), target := NO_TARGET), b.(pid := ResetPids(b.pid), target := NO_TARGET))
  {
    hide MirrorPids, MirrorSlot;
    MirrorFresh(a.pid, b.pid);
  }

  lemma MirrorFresh(a: Wheels<Pid.State>, b: Wheels<Pid.State>)
    requires MirrorPids(a, b)
    ensures MirrorPids(ResetPids(a), ResetPids(b))
  {
  }

  lemma MirrorGate(a: Controller, b: Controller, now: uint64)
    requires Mirror(a, b)
    ensures a.command.IsZero() == b.command.IsZero()
    ensures AllOnline(a, now) == AllOnline(b, now)
    ensures Expired(a.config, now, a.lastCommandMs) == Expired(b.config, now, b.lastCommandMs)
  {
    hide MirrorPids, Shipped;
  }

  lemma MirrorActive(a: Controller, b: Controller, now: uint64, dt: real)
    requires Mirror(a, b) && AllOnline(a, now)
    ensures var t, u := Targets(a.config, a.command), Targets(b.config, b.command);
            var p, q := DriveAll(a.pid, t, a.feedback, dt), DriveAll(b.pid, u, b.feedback, dt);
            && Mirror(a.(pid := p, target := t), b.(pid := q, target := u))
            && MirrorCurrents(CurrentsOf(p), CurrentsOf(q))
  {
    hide Targets, DriveAll, CurrentsOf, MirrorPids, MirrorSlot;
    TargetsAreOdd(a.config, a.command);
    MirrorDriveAll(a, b, Targets(a.config, a.command), Targets(b.config, b.command), dt);
  }

  lemma MirrorStep(a: Controller, b: Controller, now: uint64, dt: real)
    requires Mirror(a, b)
    ensures Mirror(Step(a, now, dt).next, Step(b, now, dt).next)
    ensures MirrorCurrents(Step(a, now, dt).currents, Step(b, now, dt).currents)
    ensures Step(a, now, dt).online == Step(b, now, dt).online
  {
    hide Step, Mirror, Targets, DriveAll, CurrentsOf, ResetPids, ResetMotion, Command.IsZero, AllOnline, Expired;
    StepForms(a, now, dt);
    StepForms(b, now, dt);
    MirrorReset(a, b);
    MirrorGate(a, b, now);
    if !Expired(a.config, now, a.lastCommandMs) && !a.command.IsZero() && AllOnline(a, now) {
      MirrorActive(a, b, now, dt);
    }
  }

  lemma MirrorApply(a: Controller, b: Controller, e: Event)
    requires Mirror(a, b) && (e.Received? ==> e.fb.speedRpm != -32768)
    ensures Mirror(Apply(a, e), Apply(b, Reverse(e)))
  {
    hide Step, MirrorPids;
    match e
    case Stepped(at, dt) => MirrorStep(a, b, at, dt);
    case Stopped(_) => MirrorReset(a, b);
    case _ =>
  }

  lemma FreshIsSymmetric(config: Config, t0: uint64, memory: Wheels<Feedback>)
    ensures var c := Init(config, t0, memory); Mirror(c, c)
  {
  }

  /**
   * Odd symmetry over runs: the reversed history drives the mirrored controller at every point, and
   * one more step there returns the same flag and the opposite currents.
   */
  lemma {:induction false} ReversedRun(config: Config, t0: uint64, memory: Wheels<Feedback>, es: seq<Event>,
                                       now: uint64, dt: real)
    requires Reversible(es)
    ensures var a := Run(Init(config, t0, memory), es);
            var b := Run(Init(config, t0, memory), ReverseAll(es));
            && Mirror(a, b)
            && MirrorCurrents(Step(a, now, dt).currents, Step(b, now, dt).currents)
            && Step(a, now, dt).online == Step(b, now, dt).online
  {
    hide Step, Mirror, Apply;
    var c := Init(config, t0, memory);
    if es == [] {
      FreshIsSymmetric(config, t0, memory);
    } else {
      var init, last := es[..|es| - 1], es[|es| - 1];
      ReversedRun(config, t0, memory, init, now, dt);
      MirrorApply(Run(c, init), Run(c, ReverseAll(init)), last);
      assert (ReverseAll(init) + [Reverse(last)])[..|ReverseAll(init)|] == ReverseAll(init);
    }
    MirrorStep(Run(c, es), Run(c, ReverseAll(es)), now, dt);
  }
}
