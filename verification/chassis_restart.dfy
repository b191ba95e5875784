/** Rest, stop and restart of the chassis controller. */
module ChassisRestart {
  import opened Numerics
  import opened Motors
  import opened ChassisControl
  import opened ChassisHistory
  import Pid

  /** No command, no targets, reset PIDs. */
  predicate AtRest(c: Controller) {
    c.command == STOPPED && c.target == NO_TARGET && c.pid == ResetPids(c.pid)
  }

  predicate NoCommands(es: seq<Event>) {
    forall k :: 0 <= k < |es| ==> !es[k].Commanded?
  }

  lemma {:induction false} RestPersists(c: Controller, es: seq<Event>)
    requires AtRest(c) && NoCommands(es)
    ensures AtRest(Run(c, es))
  {
    hide DriveAll, Targets, CurrentsOf;
    if es != [] {
      RestPersists(c, es[..|es| - 1]);
    }
  }

  /**
   * Stopped is absorbing, from any controller state and on any clock: once a step finds the command
   * expired or inside the dead band, nothing but chassis_set_command produces a current again.
   */
  lemma StoppedIsAbsorbing(c: Controller, now: uint64, dt: real, es: seq<Event>, later: uint64, laterDt: real)
    requires || c.config.commandTimeoutMs < 0.0
             || (now - c.lastCommandMs) as real > c.config.commandTimeoutMs
             || (&& -0.0001 < c.command.forward < 0.0001 && -0.0001 < c.command.strafe < 0.0001
                 && -0.0001 < c.command.rotate < 0.0001)
    requires NoCommands(es)
    ensures Step(c, now, dt).currents == NO_CURRENT
    ensures var rest := Run(Step(c, now, dt).next, es);
            AtRest(rest) && Step(rest, later, laterDt).currents == NO_CURRENT
  {
    hide DriveAll, Targets, CurrentsOf;
    RestPersists(Step(c, now, dt).next, es);
  }

  /** A step that reports a motor offline has already zeroed the currents: callers need not. */
  lemma OfflineMeansNoCurrent(c: Controller, now: uint64, dt: real)
    ensures !Step(c, now, dt).online ==> Step(c, now, dt).currents == NO_CURRENT
    ensures Step(c, now, dt).online <==> AllOnline(c, now)
  {
    hide DriveAll, Targets, CurrentsOf;
  }

  /** Equal in everything the controller's behaviour depends on: an offline slot's data does not count. */
  predicate SameControl(a: Controller, b: Controller) {
    && a.config == b.config && a.pid == b.pid && a.target == b.target
    && a.command == b.command && a.lastCommandMs == b.lastCommandMs
    && SameSlot(a.feedback.m1, b.feedback.m1)
    && SameSlot(a.feedback.m2, b.feedback.m2)
    && SameSlot(a.feedback.m3, b.feedback.m3)
    && SameSlot(a.feedback.m4, b.feedback.m4)
  }

  predicate SameSlot(a: Feedback, b: Feedback) {
    a.online == b.online && (a.online ==> a == b)
  }

  lemma SameStep(a: Controller, b: Controller, now: uint64, dt: real)
    requires SameControl(a, b)
    ensures SameControl(Step(a, now, dt).next, Step(b, now, dt).next)
    ensures Step(a, now, dt).currents == Step(b, now, dt).currents
    ensures Step(a, now, dt).online == Step(b, now, dt).online
  {
    hide DriveAll, Targets, CurrentsOf;
    assert AllOnline(a, now) == AllOnline(b, now);
    assert AllOnline(a, now) ==> a.feedback == b.feedback;
  }

  lemma {:induction false} SameRun(a: Controller, b: Controller, es: seq<Event>)
    requires SameControl(a, b)
    ensures SameControl(Run(a, es), Run(b, es))
  {
    hide DriveAll, Targets, CurrentsOf;
    if es != [] {
      SameRun(a, b, es[..|es| - 1]);
      if es[|es| - 1].Stepped? {
        SameStep(Run(a, es[..|es| - 1]), Run(b, es[..|es| - 1]), es[|es| - 1].at, es[|es| - 1].dt);
      }
    }
  }

  predicate Shipped(c: Controller) {
    && c.pid.m1.gains == ShippedGains(1) && c.pid.m2.gains == ShippedGains(2)
    && c.pid.m3.gains == ShippedGains(3) && c.pid.m4.gains == ShippedGains(4)
  }

  lemma {:induction false} RunsKeepShippedGains(c: Controller, es: seq<Event>)
    requires Shipped(c)
    ensures Shipped(Run(c, es))
  {
    hide Targets, CurrentsOf;
    if es != [] {
      RunsKeepShippedGains(c, es[..|es| - 1]);
    }
  }

  /** Motor i's latest feedback in a history, as an event to send again. */
  function Latest(es: seq<Event>, i: MotorId): seq<Event> {
    match LastHeard(es, i)
    case Silent => []
    case Heard(fb) => [Received(fb)]
  }

  function Replay(es: seq<Event>): seq<Event> {
    Latest(es, 1) + Latest(es, 2) + Latest(es, 3) + Latest(es, 4)
  }

  lemma {:induction false} HeardHasId(es: seq<Event>, i: MotorId)
    ensures LastHeard(es, i).Heard? ==> LastHeard(es, i).fb.id == i
  {
    if es != [] {
      HeardHasId(es[..|es| - 1], i);
    }
  }

  /** Applying Latest overwrites one slot, or nothing. */
  lemma ReplayOne(c: Controller, prefix: seq<Event>, es: seq<Event>, i: MotorId)
    ensures var before := Run(c, prefix);
            Run(c, prefix + Latest(es, i)) ==
            match LastHeard(es, i)
            case Silent => before
            case Heard(fb) => before.(feedback := before.feedback.Put(i, fb))
  {
    HeardHasId(es, i);
    match LastHeard(es, i)
    case Silent => assert prefix + Latest(es, i) == prefix;
    case Heard(fb) => assert (prefix + [Received(fb)])[..|prefix|] == prefix;
  }

  /** What slot i holds after a replay over an offline slot. */
  function Slotted(es: seq<Event>, i: MotorId, blank: Feedback): Feedback {
    match LastHeard(es, i)
    case Silent => blank
    case Heard(fb) => fb
  }

  lemma ReplayedSlots(c: Controller, es: seq<Event>)
    ensures Run(c, Replay(es)) ==
            c.(feedback := Wheels(Slotted(es, 1, c.feedback.m1), Slotted(es, 2, c.feedback.m2),
                                  Slotted(es, 3, c.feedback.m3), Slotted(es, 4, c.feedback.m4)))
  {
    var p1 := [] + Latest(es, 1);
    var p2 := p1 + Latest(es, 2);
    var p3 := p2 + Latest(es, 3);
    assert Replay(es) == p3 + Latest(es, 4);
    ReplayOne(c, [], es, 1);
    ReplayOne(c, p1, es, 2);
    ReplayOne(c, p2, es, 3);
    ReplayOne(c, p3, es, 4);
  }

  lemma StoppedMatchesFresh(config: Config, t0: uint64, memory: Wheels<Feedback>, es: seq<Event>,
                            now: uint64, newMemory: Wheels<Feedback>)
    ensures SameControl(Stop(Run(Init(config, t0, memory), es), now),
                        Run(Init(config, now, newMemory), Replay(es)))
  {
    var c := Run(Init(config, t0, memory), es);
    ReplayedSlots(Init(config, now, newMemory), es);
    SlotsRefine(config, t0, memory, es);
    RunsKeepShippedGains(Init(config, t0, memory), es);
    RunKeepsConfig(Init(config, t0, memory), es);
    hide Run, Replay;
    assert forall i: MotorId, blank: Feedback ::
        !blank.online ==> SameSlot(c.feedback.At(i), Slotted(es, i, blank));
  }

  /**
   * Stop equals fresh start: after any history, chassis_stop leaves a controller that behaves, for
   * every future, as a newly initialised one that was told each motor's latest feedback.
   */
  lemma StopIsFreshStart(config: Config, t0: uint64, memory: Wheels<Feedback>, es: seq<Event>,
                         now: uint64, newMemory: Wheels<Feedback>,
                         future: seq<Event>, later: uint64, dt: real)
    ensures var a := Run(Stop(Run(Init(config, t0, memory), es), now), future);
            var b := Run(Run(Init(config, now, newMemory), Replay(es)), future);
            && SameControl(a, b)
            && Step(a, later, dt).currents == Step(b, later, dt).currents
            && Step(a, later, dt).online == Step(b, later, dt).online
  {
    hide SameControl, Run, Stop, Replay, Step;
    StoppedMatchesFresh(config, t0, memory, es, now, newMemory);
    var stopped := Stop(Run(Init(config, t0, memory), es), now);
    var started := Run(Init(config, now, newMemory), Replay(es));
    SameRun(stopped, started, future);
    SameStep(Run(stopped, future), Run(started, future), later, dt);
  }
}
