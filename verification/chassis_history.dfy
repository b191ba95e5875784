/** Runs of the chassis controller, described by their event history alone. */
module ChassisHistory {
  import opened Numerics
  import opened Motors
  import opened ChassisControl
  import opened PidRuns
  import Pid

  /** The calls a main loop makes on one controller; a second chassis_init starts a new run. */
  datatype Event =
    | Commanded(cmd: Command, at: uint64)
    | Stopped(at: uint64)
    | Received(fb: Feedback)
    | Stepped(at: uint64, dt: real)

  function Apply(c: Controller, e: Event): Controller {
    match e
    case Commanded(cmd, at) => SetCommand(c, cmd, at)
    case Stopped(at) => Stop(c, at)
    case Received(fb) => UpdateFeedback(c, fb)
    case Stepped(at, dt) => Step(c, at, dt).next
  }

  function Run(c: Controller, es: seq<Event>): Controller {
    if es == [] then c else Apply(Run(c, es[..|es| - 1]), es[|es| - 1])
  }

  /** The last chassis_set_command or chassis_stop of a history. */
  datatype Order = NoOrder | StopOrder | MoveOrder(cmd: Command, at: uint64)

  function LastOrder(es: seq<Event>): Order {
    if es == [] then NoOrder
    else match es[|es| - 1]
      case Commanded(cmd, at) => MoveOrder(cmd, at)
      case Stopped(_) => StopOrder
      case _ => LastOrder(es[..|es| - 1])
  }

  datatype Slot = Silent | Heard(fb: Feedback)

  /** Motor i's last feedback in a history. */
  function LastHeard(es: seq<Event>, i: MotorId): Slot {
    if es == [] then Silent
    else if es[|es| - 1].Received? && es[|es| - 1].fb.id == i then Heard(es[|es| - 1].fb)
    else LastHeard(es[..|es| - 1], i)
  }

  /** Motor i has been heard, reported itself online, and its stamp is no older than the timeout. */
  predicate HeardInTime(config: Config, es: seq<Event>, i: MotorId, now: uint64) {
    && LastHeard(es, i).Heard? && LastHeard(es, i).fb.online
    && 0.0 <= config.feedbackTimeoutMs
    && (now - LastHeard(es, i).fb.lastUpdateMs) as real <= config.feedbackTimeoutMs
  }

  predicate AllHeard(config: Config, es: seq<Event>, now: uint64) {
    forall i: MotorId :: HeardInTime(config, es, i, now)
  }

  /** On some axis the command is outside the dead band. */
  predicate AsksForMotion(cmd: Command) {
    || cmd.forward <= -0.0001 || cmd.forward >= 0.0001
    || cmd.strafe <= -0.0001 || cmd.strafe >= 0.0001
    || cmd.rotate <= -0.0001 || cmd.rotate >= 0.0001
  }

  /** The order in force asks for motion and is still inside its window. */
  predicate Moving(config: Config, es: seq<Event>, now: uint64) {
    match LastOrder(es)
    case MoveOrder(cmd, at) => AsksForMotion(cmd) && at <= now && (now - at) as real <= config.commandTimeoutMs
    case _ => false
  }

  predicate Active(config: Config, es: seq<Event>, now: uint64) {
    Moving(config, es, now) && AllHeard(config, es, now)
  }

  /** What an active step feeds motor i's PID. */
  function InputAt(config: Config, es: seq<Event>, i: MotorId, dt: real): Input
    requires LastOrder(es).MoveOrder? && LastHeard(es, i).Heard?
  {
    Input(Targets(config, LastOrder(es).cmd).At(i), LastHeard(es, i).fb.speedRpm as real, dt)
  }

  /** Motor i's PID inputs since the last inactive step, stop or start. */
  function Inputs(config: Config, es: seq<Event>, i: MotorId): seq<Input> {
    if es == [] then []
    else
      var init := es[..|es| - 1];
      match es[|es| - 1]
      case Stopped(_) => []
      case Stepped(at, dt) =>
        if Active(config, init, at) && HeardInTime(config, init, i, at) then
          Inputs(config, init, i) + [InputAt(config, init, i, dt)]
        else []
      case _ => Inputs(config, init, i)
  }

  /** The clock reading of the last timed event, or the start time. */
  function LastTime(t0: uint64, es: seq<Event>): uint64 {
    if es == [] then t0
    else match es[|es| - 1]
      case Received(_) => LastTime(t0, es[..|es| - 1])
      case e => e.at
  }

  /** The monotonic clock: no call carries an earlier time than the one before it. */
  predicate ClockRuns(t0: uint64, es: seq<Event>) {
    es == [] ||
    (ClockRuns(t0, es[..|es| - 1]) &&
     (es[|es| - 1].Received? || LastTime(t0, es[..|es| - 1]) <= es[|es| - 1].at))
  }

  /** The targets in force: those of the last active step, unless something cleared them. */
  function TargetsOf(config: Config, es: seq<Event>): Wheels<real> {
    if es == [] then NO_TARGET
    else
      var init := es[..|es| - 1];
      match es[|es| - 1]
      case Stopped(_) => NO_TARGET
      case Stepped(at, _) =>
        if Active(config, init, at) && LastOrder(init).MoveOrder? then Targets(config, LastOrder(init).cmd)
        else NO_TARGET
      case _ => TargetsOf(config, init)
  }

  /** How the command field relates to the orders: an expired command may already be cleared. */
  ghost predicate CommandAgrees(t0: uint64, es: seq<Event>, c: Controller) {
    match LastOrder(es)
    case MoveOrder(cmd, at) =>
      && c.lastCommandMs == at
      && at <= LastTime(t0, es)
      && (c.command == cmd.Clamped() ||
          (c.command == STOPPED &&
           (!AsksForMotion(cmd) || (LastTime(t0, es) - at) as real > c.config.commandTimeoutMs)))
    case _ => c.command == STOPPED
  }

  ghost predicate SlotsAgree(es: seq<Event>, c: Controller) {
    forall i: MotorId ::
      match LastHeard(es, i)
      case Heard(fb) => c.feedback.At(i) == fb
      case Silent => !c.feedback.At(i).online
  }

  ghost predicate PidsAgree(config: Config, es: seq<Event>, c: Controller) {
    forall i: MotorId :: c.pid.At(i) == PidRuns.Run(ShippedGains(i), Inputs(config, es, i))
  }

  lemma ClampTwice(cmd: Command)
    ensures cmd.Clamped().Clamped() == cmd.Clamped()
    ensures STOPPED.IsZero() && STOPPED.Clamped() == STOPPED
  {
  }

  lemma AllOnlineIsAllHeard(es: seq<Event>, c: Controller, now: uint64)
    requires SlotsAgree(es, c)
    ensures AllOnline(c, now) <==> AllHeard(c.config, es, now)
  {
    assert forall i: MotorId :: HeardInTime(c.config, es, i, now) <==> Online(c.config, c.feedback.At(i), now);
    if AllHeard(c.config, es, now) {
      assert HeardInTime(c.config, es, 1, now) && HeardInTime(c.config, es, 2, now);
      assert HeardInTime(c.config, es, 3, now) && HeardInTime(c.config, es, 4, now);
    }
  }

  /** A step drives the motors exactly when the history says so. */
  lemma StepGate(t0: uint64, es: seq<Event>, c: Controller, now: uint64)
    requires CommandAgrees(t0, es, c) && LastTime(t0, es) <= now
    ensures !Expired(c.config, now, c.lastCommandMs) && !c.command.IsZero() <==> Moving(c.config, es, now)
    ensures Moving(c.config, es, now) ==>
              LastOrder(es).MoveOrder? && c.command == LastOrder(es).cmd.Clamped() && c.lastCommandMs == LastOrder(es).at
  {
    ClampTwice(STOPPED);
  }

  lemma {:induction false} RunKeepsConfig(c: Controller, es: seq<Event>)
    ensures Run(c, es).config == c.config
  {
    if es != [] {
      RunKeepsConfig(c, es[..|es| - 1]);
    }
  }

  lemma {:induction false} SlotsRefine(config: Config, t0: uint64, memory: Wheels<Feedback>, es: seq<Event>)
    ensures SlotsAgree(es, Run(Init(config, t0, memory), es))
  {
    hide DriveAll, Targets, CurrentsOf;
    var c := Run(Init(config, t0, memory), es);
    if es != [] {
      var init := es[..|es| - 1];
      var was := Run(Init(config, t0, memory), init);
      SlotsRefine(config, t0, memory, init);
      forall i: MotorId
        ensures c.feedback.At(i) == if es[|es| - 1].Received? && es[|es| - 1].fb.id == i
                                    then es[|es| - 1].fb else was.feedback.At(i)
      {
      }
    }
  }

  /** After every run, on any clock, slot i carries id i. */
  lemma {:induction false} SlotsHaveIds(config: Config, t0: uint64, memory: Wheels<Feedback>, es: seq<Event>, i: MotorId)
    ensures Run(Init(config, t0, memory), es).feedback.At(i).id == i
  {
    hide DriveAll, Targets, CurrentsOf;
    if es != [] {
      SlotsHaveIds(config, t0, memory, es[..|es| - 1], i);
    }
  }

  lemma {:induction false} CommandRefines(config: Config, t0: uint64, memory: Wheels<Feedback>, es: seq<Event>)
    requires ClockRuns(t0, es)
    ensures CommandAgrees(t0, es, Run(Init(config, t0, memory), es))
  {
    hide DriveAll, Targets, CurrentsOf;
    var c := Run(Init(config, t0, memory), es);
    RunKeepsConfig(Init(config, t0, memory), es);
    if es != [] {
      var init := es[..|es| - 1];
      CommandRefines(config, t0, memory, init);
      RunKeepsConfig(Init(config, t0, memory), init);
      ClampTwice(STOPPED);
    }
  }

  lemma AgreementFixesGains(config: Config, es: seq<Event>, c: Controller)
    requires PidsAgree(config, es, c)
    ensures forall i: MotorId :: c.pid.At(i).gains == ShippedGains(i)
    ensures forall i: MotorId :: ResetPids(c.pid).At(i) == Pid.Fresh(ShippedGains(i))
  {
    forall i: MotorId
      ensures c.pid.At(i).gains == ShippedGains(i)
    {
      RunKeepsGains(ShippedGains(i), Inputs(config, es, i));
    }
    assert c.pid.m1 == c.pid.At(1) && c.pid.m2 == c.pid.At(2) && c.pid.m3 == c.pid.At(3) && c.pid.m4 == c.pid.At(4);
  }

  lemma TargetsOfClamped(config: Config, cmd: Command)
    ensures Targets(config, cmd.Clamped()) == Targets(config, cmd)
  {
    ClampTwice(cmd);
    assert BodyOf(config, cmd.Clamped()) == BodyOf(config, cmd);
  }

  /** What one step does, told from the history of a controller that agrees with it. */
  ghost predicate StepTells(config: Config, es: seq<Event>, now: uint64, dt: real, o: Outcome) {
    && o.online == AllHeard(config, es, now)
    && if Active(config, es, now) then
         && o.next.target == Targets(config, LastOrder(es).cmd)
         && (forall i: MotorId ::
               && HeardInTime(config, es, i, now)
               && o.next.pid.At(i) ==
                  PidRuns.Run(ShippedGains(i), Inputs(config, es, i) + [InputAt(config, es, i, dt)])
               && o.currents.At(i) == CurrentOf(o.next.pid.At(i)))
       else
         && o.next.target == NO_TARGET
         && o.currents == NO_CURRENT
         && (forall i: MotorId :: o.next.pid.At(i) == Pid.Fresh(ShippedGains(i)))
  }

  lemma StepFromAgreement(config: Config, t0: uint64, es: seq<Event>, c: Controller, now: uint64, dt: real)
    requires c.config == config && LastTime(t0, es) <= now
    requires CommandAgrees(t0, es, c) && SlotsAgree(es, c) && PidsAgree(config, es, c)
    ensures StepTells(config, es, now, dt, Step(c, now, dt))
  {
    hide Step, Targets, CurrentOf, Pid.Step, Command.IsZero, Command.Clamped, AllOnline, Expired, CommandAgrees, Moving, AsksForMotion;
    StepGate(t0, es, c, now);
    StepForms(c, now, dt);
    AllOnlineIsAllHeard(es, c, now);
    AgreementFixesGains(config, es, c);
    if Active(config, es, now) {
      TargetsOfClamped(config, LastOrder(es).cmd);
      forall i: MotorId
        ensures HeardInTime(config, es, i, now)
        ensures Step(c, now, dt).next.pid.At(i) ==
                PidRuns.Run(ShippedGains(i), Inputs(config, es, i) + [InputAt(config, es, i, dt)])
      {
        assert HeardInTime(config, es, i, now);
        RunAppend(ShippedGains(i), Inputs(config, es, i), InputAt(config, es, i, dt));
      }
    }
  }

  /**
   * History refinement: every motor's PID is a fresh PID fed with exactly the active steps since
   * the last inactive step, stop or start, and the targets are those of the last active step.
   */
  lemma {:induction false} PidsRefineHistory(config: Config, t0: uint64, memory: Wheels<Feedback>, es: seq<Event>)
    requires ClockRuns(t0, es)
    ensures var c := Run(Init(config, t0, memory), es);
            PidsAgree(config, es, c) && c.target == TargetsOf(config, es)
  {
    hide Targets, CurrentOf, Step;
    if es != [] {
      var init := es[..|es| - 1];
      var c := Run(Init(config, t0, memory), init);
      PidsRefineHistory(config, t0, memory, init);
      SlotsRefine(config, t0, memory, init);
      CommandRefines(config, t0, memory, init);
      RunKeepsConfig(Init(config, t0, memory), init);
      match es[|es| - 1]
      case Stepped(at, dt) => StepFromAgreement(config, t0, init, c, at, dt);
      case Stopped(_) => AgreementFixesGains(config, init, c);
      case _ =>
    }
  }

  /**
   * The outcome of a step after any history on a running clock. It is active exactly when the last
   * order asks for motion inside its window and all four motors were heard in time; then each
   * current is the rounded output of the refined PID, otherwise every current is zero.
   */
  lemma StepRefinesHistory(config: Config, t0: uint64, memory: Wheels<Feedback>, es: seq<Event>, now: uint64, dt: real)
    requires ClockRuns(t0, es) && LastTime(t0, es) <= now
    ensures var o := Step(Run(Init(config, t0, memory), es), now, dt);
            && StepTells(config, es, now, dt, o)
            && (Active(config, es, now) ==>
                  forall i: MotorId ::
                    && o.currents.At(i) == RoundEven(o.next.pid.At(i).output)
                    && -6500 <= o.currents.At(i) <= 6500)
  {
    hide Step, Targets, RoundEven;
    PidsRefineHistory(config, t0, memory, es);
    SlotsRefine(config, t0, memory, es);
    CommandRefines(config, t0, memory, es);
    RunKeepsConfig(Init(config, t0, memory), es);
    StepFromAgreement(config, t0, es, Run(Init(config, t0, memory), es), now, dt);
    if Active(config, es, now) {
      forall i: MotorId
        ensures HeardInTime(config, es, i, now)
        ensures var p := PidRuns.Run(ShippedGains(i), Inputs(config, es, i) + [InputAt(config, es, i, dt)]);
                CurrentOf(p) == RoundEven(p.output) && -6500 <= RoundEven(p.output) <= 6500
      {
        assert HeardInTime(config, es, i, now);
        CastIsLossless(i, Inputs(config, es, i) + [InputAt(config, es, i, dt)]);
      }
    }
  }

  /** The output limits make the int16 cast of every reachable output lossless. */
  lemma CastIsLossless(i: MotorId, ins: seq<Input>)
    ensures var p := PidRuns.Run(ShippedGains(i), ins);
            CurrentOf(p) == RoundEven(p.output) && -6500 <= RoundEven(p.output) <= 6500
  {
    RunInvariants(ShippedGains(i), ins);
    RoundEvenBounded(PidRuns.Run(ShippedGains(i), ins).output, 6500);
  }

  /**
   * No motor winds up: whatever its PID has been fed, a burst of saturated steps of any length
   * leaves its integral where it was, saturation has the error's sign, and no override disjunct fires.
   */
  lemma MotorsCannotWindUp(i: MotorId, ins: seq<Input>, burst: seq<Input>, x: Input)
    ensures var s := PidRuns.Run(ShippedGains(i), ins);
            && (AllSaturated(s, burst) ==> RunFrom(s, burst).integral == s.integral)
            && SaturatesForward(s, x)
            && !OverrideFires(s, x)
  {
    hide SaturatesForward, OverrideFires, AllSaturated;
    var g := ShippedGains(i);
    BurstKeepsIntegral(g, ins, burst);
    SaturationHasErrorSign(g, ins, x);
    OverridesDeadIff(g);
  }
}
