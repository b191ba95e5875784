/** The chassis controller of src/chassis_control.c: its state and its transitions. */
module ChassisControl {
  import opened Numerics
  import opened Motors
  import opened Mecanum
  import Pid

  datatype Command = Command(forward: real, strafe: real, rotate: real) {
    /** Every axis moved to the nearest value in [-1, 1]. */
    function Clamped(): (r: Command)
      ensures -1.0 <= r.forward <= 1.0 && -1.0 <= r.strafe <= 1.0 && -1.0 <= r.rotate <= 1.0
      ensures -1.0 <= forward <= 1.0 ==> r.forward == forward
      ensures -1.0 <= strafe <= 1.0 ==> r.strafe == strafe
      ensures -1.0 <= rotate <= 1.0 ==> r.rotate == rotate
      ensures (forward > 1.0 ==> r.forward == 1.0) && (forward < -1.0 ==> r.forward == -1.0)
      ensures (strafe > 1.0 ==> r.strafe == 1.0) && (strafe < -1.0 ==> r.strafe == -1.0)
      ensures (rotate > 1.0 ==> r.rotate == 1.0) && (rotate < -1.0 ==> r.rotate == -1.0)
    {
      Command(Clamp(forward, -1.0, 1.0), Clamp(strafe, -1.0, 1.0), Clamp(rotate, -1.0, 1.0))
    }

    /** Below the dead band on every axis. */
    predicate IsZero() {
      Abs(forward) < 0.0001 && Abs(strafe) < 0.0001 && Abs(rotate) < 0.0001
    }
  }

  const STOPPED := Command(0.0, 0.0, 0.0)

  datatype Config = Config(
    maxTranslateRpm: real, maxRotateRpm: real, commandTimeoutMs: real, feedbackTimeoutMs: real)

  const DEFAULT_CONFIG := Config(500.0, 400.0, 300.0, 250.0)

  const OUTPUT_LIMIT := 6500.0
  const INTEGRAL_LIMIT := 2500.0

  function ShippedGains(i: MotorId): Pid.Gains {
    Pid.Gains(2.0, if i == 1 then 0.35 else if i == 2 then 0.30 else if i == 3 then 0.40 else 0.60, 0.0,
              OUTPUT_LIMIT, -OUTPUT_LIMIT, INTEGRAL_LIMIT, -INTEGRAL_LIMIT)
  }

  datatype Controller = Controller(
    config: Config,
    pid: Wheels<Pid.State>,
    feedback: Wheels<Feedback>,
    target: Wheels<real>,
    command: Command,
    lastCommandMs: uint64)

  function ResetPids(p: Wheels<Pid.State>): Wheels<Pid.State> {
    Wheels(Pid.Fresh(p.m1.gains), Pid.Fresh(p.m2.gains), Pid.Fresh(p.m3.gains), Pid.Fresh(p.m4.gains))
  }

  /** chassis_init writes id and online only: the rest of each feedback slot is whatever memory held. */
  function Blank(memory: Wheels<Feedback>): Wheels<Feedback> {
    Wheels(memory.m1.(id := 1, online := false), memory.m2.(id := 2, online := false),
           memory.m3.(id := 3, online := false), memory.m4.(id := 4, online := false))
  }

  function Init(config: Config, nowMs: uint64, memory: Wheels<Feedback>): Controller {
    Controller(config,
               Wheels(Pid.Fresh(ShippedGains(1)), Pid.Fresh(ShippedGains(2)),
                      Pid.Fresh(ShippedGains(3)), Pid.Fresh(ShippedGains(4))),
               Blank(memory), NO_TARGET, STOPPED, nowMs)
  }

  function ResetMotion(c: Controller): Controller {
    c.(command := STOPPED, target := NO_TARGET, pid := ResetPids(c.pid))
  }

  function SetCommand(c: Controller, cmd: Command, nowMs: uint64): Controller {
    c.(command := cmd.Clamped(), lastCommandMs := nowMs)
  }

  function Stop(c: Controller, nowMs: uint64): Controller {
    ResetMotion(c).(lastCommandMs := nowMs)
  }

  function UpdateFeedback(c: Controller, fb: Feedback): Controller {
    if 1 <= fb.id <= 4 then c.(feedback := c.feedback.Put(fb.id, fb)) else c
  }

  predicate Online(config: Config, fb: Feedback, nowMs: uint64) {
    fb.online && Elapsed(nowMs, fb.lastUpdateMs) as real <= config.feedbackTimeoutMs
  }

  predicate AllOnline(c: Controller, nowMs: uint64) {
    && Online(c.config, c.feedback.m1, nowMs)
    && Online(c.config, c.feedback.m2, nowMs)
    && Online(c.config, c.feedback.m3, nowMs)
    && Online(c.config, c.feedback.m4, nowMs)
  }

  /** The body velocity update_targets_from_command derives; the forward axis is inverted. */
  function BodyOf(config: Config, cmd: Command): Body {
    var c := cmd.Clamped();
    Body(Times(-c.forward, config.maxTranslateRpm),
         Times(c.strafe, config.maxTranslateRpm),
         Times(c.rotate, config.maxRotateRpm))
  }

  function Targets(config: Config, cmd: Command): Wheels<real> {
    Normalize(Mix(BodyOf(config, cmd)), config.maxTranslateRpm)
  }

  predicate Expired(config: Config, nowMs: uint64, commandMs: uint64) {
    Elapsed(nowMs, commandMs) as real > config.commandTimeoutMs
  }

  datatype Outcome = Outcome(next: Controller, currents: Wheels<int16>, online: bool)

  function Drive(p: Pid.State, target: real, fb: Feedback, dt: real): Pid.State {
    Pid.Step(p, target, fb.speedRpm as real, dt)
  }

  function DriveAll(p: Wheels<Pid.State>, target: Wheels<real>, fb: Wheels<Feedback>, dt: real): Wheels<Pid.State> {
    Wheels(Drive(p.m1, target.m1, fb.m1, dt), Drive(p.m2, target.m2, fb.m2, dt),
           Drive(p.m3, target.m3, fb.m3, dt), Drive(p.m4, target.m4, fb.m4, dt))
  }

  /** `(int16_t)lrintf(output)`. */
  function CurrentOf(p: Pid.State): int16 {
    ToInt16(RoundEven(p.output))
  }

  function CurrentsOf(p: Wheels<Pid.State>): Wheels<int16> {
    Wheels(CurrentOf(p.m1), CurrentOf(p.m2), CurrentOf(p.m3), CurrentOf(p.m4))
  }

  function Step(c: Controller, nowMs: uint64, dt: real): Outcome {
    var live := if Expired(c.config, nowMs, c.lastCommandMs) then ResetMotion(c) else c;
    if live.command.IsZero() then
      Outcome(ResetMotion(live), NO_CURRENT, AllOnline(live, nowMs))
    else if !AllOnline(live, nowMs) then
      Outcome(live.(pid := ResetPids(live.pid), target := NO_TARGET), NO_CURRENT, false)
    else
      var t := Targets(live.config, live.command);
      var p := DriveAll(live.pid, t, live.feedback, dt);
      Outcome(live.(pid := p, target := t), CurrentsOf(p), true)
  }

  /**
   * The wheel targets realise the commanded motion, forward inverted, scaled by the one factor the
   * wheel limit asks for, and no target exceeds the limit's magnitude.
   */
  lemma TargetsFollowCommand(config: Config, cmd: Command)
    ensures var c, t := cmd.Clamped(), Targets(config, cmd);
            var want := Body(-Times(c.forward, config.maxTranslateRpm), Times(c.strafe, config.maxTranslateRpm),
                             Times(c.rotate, config.maxRotateRpm));
            && Unmix(t) == want.Scale(Factor(want.L1(), config.maxTranslateRpm))
            && t.m1 + t.m4 == t.m2 + t.m3
            && Within(t, Abs(config.maxTranslateRpm))
  {
    hide Normalize, Unmix, Mix, Factor, Times, Abs, Within, Body.L1, Body.Scale, Command.Clamped;
    var b := BodyOf(config, cmd);
    TimesIsOdd(cmd.Clamped().forward, config.maxTranslateRpm);
    RoundTrip(b, config.maxTranslateRpm);
    WheelsBalance(b, config.maxTranslateRpm);
    NormalizedWithin(Mix(b), config.maxTranslateRpm);
  }

  /** chassis_step has three outcomes; resetting twice is resetting once. */
  lemma StepForms(c: Controller, now: uint64, dt: real)
    ensures Step(c, now, dt) ==
            if Expired(c.config, now, c.lastCommandMs) || c.command.IsZero() then
              Outcome(ResetMotion(c), NO_CURRENT, AllOnline(c, now))
            else if !AllOnline(c, now) then
              Outcome(c.(pid := ResetPids(c.pid), target := NO_TARGET), NO_CURRENT, false)
            else
              var p := DriveAll(c.pid, Targets(c.config, c.command), c.feedback, dt);
              Outcome(c.(pid := p, target := Targets(c.config, c.command)), CurrentsOf(p), true)
  {
    hide DriveAll, CurrentsOf, Targets;
  }
}
