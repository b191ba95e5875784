/** What the frames on the bus imply about the datagrams and CAN frames the daemon received. */
module DaemonSafety {
  import opened Numerics
  import opened Motors
  import opened Motor3508
  import opened ChassisControl
  import opened ChassisHistory
  import opened DaemonModel
  import opened PidRuns

  datatype Accepted = Nothing | Accepted(cmd: Command, at: uint64)

  /** The last line of a batch that parsed. */
  function LastTriple(lines: seq<Line>, now: uint64): Accepted {
    if lines == [] then Nothing
    else match lines[|lines| - 1]
      case Triple(cmd) => Accepted(cmd, now)
      case Garbled => LastTriple(lines[..|lines| - 1], now)
  }

  /** The last command accepted in any of the turns. */
  function LastAccepted(turns: seq<Turn>): Accepted {
    if turns == [] then Nothing
    else
      var t := turns[|turns| - 1];
      if LastTriple(t.lines, t.now).Accepted? then LastTriple(t.lines, t.now)
      else LastAccepted(turns[..|turns| - 1])
  }

  /** Every CAN frame read so far, in order. */
  function FrameLog(warm: seq<RxFrame>, turns: seq<Turn>): seq<RxFrame> {
    if turns == [] then warm else FrameLog(warm, turns[..|turns| - 1]) + turns[|turns| - 1].frames
  }

  predicate ClockRunsOn(t0: uint64, turns: seq<Turn>) {
    && (turns != [] ==> t0 <= turns[0].now)
    && (forall k :: 0 < k < |turns| ==> turns[k - 1].now <= turns[k].now)
  }

  /** The condition under which the motors may be driven, on raw inputs only. */
  ghost predicate MayDrive(config: Config, warm: seq<RxFrame>, turns: seq<Turn>, now: uint64) {
    && LastAccepted(turns).Accepted?
    && AsksForMotion(LastAccepted(turns).cmd)
    && LastAccepted(turns).at <= now
    && (now - LastAccepted(turns).at) as real <= config.commandTimeoutMs
    && AllFresh(config, FrameLog(warm, turns), now)
  }

  /** Motor i has sent a valid frame, and its last one is no older than the timeout. */
  predicate Fresh(config: Config, log: seq<RxFrame>, i: MotorId, now: uint64) {
    && LastFrame(log, i).Some?
    && 0.0 <= config.feedbackTimeoutMs
    && (now - LastFrame(log, i).value.stampMs) as real <= config.feedbackTimeoutMs
  }

  predicate AllFresh(config: Config, log: seq<RxFrame>, now: uint64) {
    forall i: MotorId :: Fresh(config, log, i, now)
  }

  lemma {:induction false} OrderConcat(a: seq<Event>, b: seq<Event>)
    ensures LastOrder(a + b) == if LastOrder(b).NoOrder? then LastOrder(a) else LastOrder(b)
  {
    if b == [] {
      assert a + b == a;
    } else {
      OrderConcat(a, b[..|b| - 1]);
      assert (a + b)[..|a + b| - 1] == a + b[..|b| - 1];
    }
  }

  lemma {:induction false} HeardConcat(a: seq<Event>, b: seq<Event>, i: MotorId)
    ensures LastHeard(a + b, i) == if LastHeard(b, i).Silent? then LastHeard(a, i) else LastHeard(b, i)
  {
    if b == [] {
      assert a + b == a;
    } else {
      HeardConcat(a, b[..|b| - 1], i);
      assert (a + b)[..|a + b| - 1] == a + b[..|b| - 1];
    }
  }

  lemma {:induction false} LinesOrder(lines: seq<Line>, now: uint64)
    ensures LastOrder(LineEvents(lines, now)) ==
            match LastTriple(lines, now)
            case Nothing => NoOrder
            case Accepted(cmd, at) => MoveOrder(cmd, at)
    ensures forall i: MotorId :: LastHeard(LineEvents(lines, now), i).Silent?
  {
    if lines != [] {
      LinesOrder(lines[..|lines| - 1], now);
      var rest := LineEvents(lines[..|lines| - 1], now);
      forall e: Event
        ensures (rest + [e])[..|rest|] == rest
      {
      }
    }
  }

  lemma {:induction false} FramesHeard(frames: seq<RxFrame>, i: MotorId)
    ensures LastFrame(frames, i).Some? ==> LastFrame(frames, i).value.IsFeedback()
    ensures LastHeard(FrameEvents(frames), i) ==
            if LastFrame(frames, i).Some? then Heard(LastFrame(frames, i).value.Decode()) else Silent
    ensures LastOrder(FrameEvents(frames)).NoOrder?
  {
    hide BytesToI16, ToInt8, LastHeard, LastOrder;
    LastFrameIsFeedback(frames, i);
    NothingHeard(i);
    if frames != [] {
      var init, f := frames[..|frames| - 1], frames[|frames| - 1];
      FramesHeard(init, i);
      if f.IsFeedback() {
        EventHeard(FrameEvents(init), f.Decode(), i);
      }
    }
  }

  lemma NothingHeard(i: MotorId)
    ensures LastHeard([], i).Silent? && LastOrder([]).NoOrder?
  {
  }

  lemma EventHeard(es: seq<Event>, fb: Feedback, i: MotorId)
    ensures LastHeard(es + [Received(fb)], i) == if fb.id == i then Heard(fb) else LastHeard(es, i)
    ensures LastOrder(es + [Received(fb)]) == LastOrder(es)
  {
    assert (es + [Received(fb)])[..|es|] == es;
  }

  lemma {:induction false} LastFrameConcat(a: seq<RxFrame>, b: seq<RxFrame>, i: MotorId)
    ensures LastFrame(a + b, i) == if LastFrame(b, i).None? then LastFrame(a, i) else LastFrame(b, i)
  {
    if b == [] {
      assert a + b == a;
    } else {
      LastFrameConcat(a, b[..|b| - 1], i);
      assert (a + b)[..|a + b| - 1] == a + b[..|b| - 1];
    }
  }

  /** The controller's history before it steps in the last of the turns. */
  function BeforeStep(warm: seq<RxFrame>, loopFrom: uint64, turns: seq<Turn>): seq<Event>
    requires turns != []
  {
    FrameEvents(warm) + LoopEvents(loopFrom, turns[..|turns| - 1]) + TurnInput(turns[|turns| - 1])
  }

  function AsOrder(a: Accepted): Order {
    match a
    case Nothing => NoOrder
    case Accepted(cmd, at) => MoveOrder(cmd, at)
  }

  function AsSlot(log: seq<RxFrame>, i: MotorId): Slot {
    if LastFrame(log, i).Some? && LastFrame(log, i).value.IsFeedback() then Heard(LastFrame(log, i).value.Decode())
    else Silent
  }

  lemma TurnTells(es: seq<Event>, t: Turn, turns: seq<Turn>, i: MotorId)
    requires LastOrder(es) == AsOrder(LastAccepted(turns))
    ensures LastOrder(es + TurnInput(t)) == AsOrder(LastAccepted(turns + [t]))
    ensures LastHeard(es + TurnInput(t), i) ==
            if LastFrame(t.frames, i).Some? then AsSlot(t.frames, i) else LastHeard(es, i)
  {
    var a, b := LineEvents(t.lines, t.now), FrameEvents(t.frames);
    assert (turns + [t])[..|turns|] == turns;
    LinesOrder(t.lines, t.now);
    FramesHeard(t.frames, i);
    OrderConcat(es, TurnInput(t));
    OrderConcat(a, b);
    HeardConcat(es, TurnInput(t), i);
    HeardConcat(a, b, i);
  }

  /** The order in force and each motor's slot, read off the raw inputs. */
  lemma {:induction false} LoopTells(warm: seq<RxFrame>, loopFrom: uint64, turns: seq<Turn>, i: MotorId)
    ensures var es := FrameEvents(warm) + LoopEvents(loopFrom, turns);
            && LastOrder(es) == AsOrder(LastAccepted(turns))
            && LastHeard(es, i) == AsSlot(FrameLog(warm, turns), i)
    ensures turns != [] ==>
              && LastOrder(BeforeStep(warm, loopFrom, turns)) == AsOrder(LastAccepted(turns))
              && LastHeard(BeforeStep(warm, loopFrom, turns), i) == AsSlot(FrameLog(warm, turns), i)
  {
    hide BeforeStep, LoopEvents, LastOrder, LastHeard, LastAccepted, FrameLog;
    if turns == [] {
      WarmTells(warm, loopFrom, i);
    } else {
      var init, t := turns[..|turns| - 1], turns[|turns| - 1];
      LoopTells(warm, loopFrom, init, i);
      TurnTellsAll(warm, loopFrom, init, t, i);
      assert init + [t] == turns;
    }
  }

  lemma WarmTells(warm: seq<RxFrame>, loopFrom: uint64, i: MotorId)
    ensures var es := FrameEvents(warm) + LoopEvents(loopFrom, []);
            LastOrder(es) == AsOrder(LastAccepted([])) && LastHeard(es, i) == AsSlot(FrameLog(warm, []), i)
  {
    hide FrameEvents, LastHeard, LastOrder, LastFrame;
    FramesHeard(warm, i);
    assert FrameEvents(warm) + LoopEvents(loopFrom, []) == FrameEvents(warm);
  }

  lemma TurnTellsAll(warm: seq<RxFrame>, loopFrom: uint64, init: seq<Turn>, t: Turn, i: MotorId)
    requires var es := FrameEvents(warm) + LoopEvents(loopFrom, init);
             LastOrder(es) == AsOrder(LastAccepted(init)) && LastHeard(es, i) == AsSlot(FrameLog(warm, init), i)
    ensures var es, turns := FrameEvents(warm) + LoopEvents(loopFrom, init + [t]), init + [t];
            && LastOrder(es) == AsOrder(LastAccepted(turns))
            && LastHeard(es, i) == AsSlot(FrameLog(warm, turns), i)
            && LastOrder(BeforeStep(warm, loopFrom, turns)) == AsOrder(LastAccepted(turns))
            && LastHeard(BeforeStep(warm, loopFrom, turns), i) == AsSlot(FrameLog(warm, turns), i)
  {
    hide Dt, Previous, LineEvents, FrameEvents, TurnInput, LastTriple, LastAccepted, LastFrame;
    var turns := init + [t];
    assert turns[..|init|] == init;
    var before := FrameEvents(warm) + LoopEvents(loopFrom, init);
    TurnTells(before, t, init, i);
    LastFrameConcat(FrameLog(warm, init), t.frames, i);
    LastFrameIsFeedback(t.frames, i);
    var step := Stepped(t.now, Dt(t.now, Previous(loopFrom, init)));
    assert FrameEvents(warm) + LoopEvents(loopFrom, turns) == before + TurnInput(t) + [step];
    assert (before + TurnInput(t) + [step])[..|before + TurnInput(t)|] == before + TurnInput(t);
  }

  predicate NoTimes(es: seq<Event>) {
    forall k :: 0 <= k < |es| ==> es[k].Received?
  }

  /** Events that all carry the same time, or none, keep the clock running. */
  lemma {:induction false} ClockExtends(t0: uint64, es: seq<Event>, more: seq<Event>, now: uint64)
    requires ClockRuns(t0, es) && LastTime(t0, es) <= now
    requires forall k :: 0 <= k < |more| ==> more[k].Received? || more[k].at == now
    ensures ClockRuns(t0, es + more) && LastTime(t0, es + more) <= now
    ensures NoTimes(more) ==> LastTime(t0, es + more) == LastTime(t0, es)
  {
    if more == [] {
      assert es + more == es;
    } else {
      ClockExtends(t0, es, more[..|more| - 1], now);
      assert (es + more)[..|es + more| - 1] == es + more[..|more| - 1];
    }
  }

  lemma {:induction false} LineTimes(lines: seq<Line>, now: uint64)
    ensures forall k :: 0 <= k < |LineEvents(lines, now)| ==>
              LineEvents(lines, now)[k].Commanded? && LineEvents(lines, now)[k].at == now
  {
    if lines != [] {
      LineTimes(lines[..|lines| - 1], now);
    }
  }

  lemma {:induction false} FrameTimes(frames: seq<RxFrame>)
    ensures NoTimes(FrameEvents(frames))
  {
    if frames != [] {
      FrameTimes(frames[..|frames| - 1]);
    }
  }

  lemma {:induction false} LoopClock(t0: uint64, warm: seq<RxFrame>, loopFrom: uint64, turns: seq<Turn>)
    requires ClockRunsOn(t0, turns)
    ensures var es := FrameEvents(warm) + LoopEvents(loopFrom, turns);
            && ClockRuns(t0, es)
            && LastTime(t0, es) == if turns == [] then t0 else turns[|turns| - 1].now
    ensures turns != [] ==>
              && ClockRuns(t0, BeforeStep(warm, loopFrom, turns))
              && LastTime(t0, BeforeStep(warm, loopFrom, turns)) <= turns[|turns| - 1].now
  {
    hide Dt, Previous, LineEvents, FrameEvents;
    var es := FrameEvents(warm) + LoopEvents(loopFrom, turns);
    if turns == [] {
      FrameTimes(warm);
      ClockExtends(t0, [], FrameEvents(warm), t0);
      assert es == [] + FrameEvents(warm);
    } else {
      var init, t := turns[..|turns| - 1], turns[|turns| - 1];
      LoopClock(t0, warm, loopFrom, init);
      var before := FrameEvents(warm) + LoopEvents(loopFrom, init);
      LineTimes(t.lines, t.now);
      FrameTimes(t.frames);
      ClockExtends(t0, before, TurnInput(t), t.now);
      var step := Stepped(t.now, Dt(t.now, Previous(loopFrom, init)));
      assert es == before + TurnInput(t) + [step];
      assert (before + TurnInput(t) + [step])[..|before + TurnInput(t)|] == before + TurnInput(t);
    }
  }

  /** MayDrive is exactly the controller's own activity test. */
  lemma MayDriveIsActive(config: Config, t0: uint64, warm: seq<RxFrame>, loopFrom: uint64, turns: seq<Turn>)
    requires turns != [] && ClockRunsOn(t0, turns)
    ensures var now := turns[|turns| - 1].now;
            MayDrive(config, warm, turns, now) <==> Active(config, BeforeStep(warm, loopFrom, turns), now)
  {
    var now := turns[|turns| - 1].now;
    var es := BeforeStep(warm, loopFrom, turns);
    AcceptedInPast(t0, turns);
    LoopTells(warm, loopFrom, turns, 1);
    forall i: MotorId
      ensures HeardInTime(config, es, i, now) <==> Fresh(config, FrameLog(warm, turns), i, now)
    {
      LoopTells(warm, loopFrom, turns, i);
      LastFrameIsFeedback(FrameLog(warm, turns), i);
    }
  }

  lemma {:induction false} AcceptedInPast(t0: uint64, turns: seq<Turn>)
    requires turns != [] && ClockRunsOn(t0, turns)
    ensures LastAccepted(turns).Accepted? ==> LastAccepted(turns).at <= turns[|turns| - 1].now
  {
    var t := turns[|turns| - 1];
    TripleTime(t.lines, t.now);
    if |turns| > 1 {
      AcceptedInPast(t0, turns[..|turns| - 1]);
    }
  }

  lemma {:induction false} TripleTime(lines: seq<Line>, now: uint64)
    ensures LastTriple(lines, now).Accepted? ==> LastTriple(lines, now).at == now
  {
    if lines != [] {
      TripleTime(lines[..|lines| - 1], now);
    }
  }

  /** All frames of the polls. */
  function Drained(polls: seq<Poll>): seq<RxFrame> {
    if polls == [] then [] else polls[0].frames + Drained(polls[1..])
  }

  lemma WarmIsFresh(config: Config, t0: uint64, memory: Wheels<Feedback>, log: seq<RxFrame>, now: uint64)
    ensures AllOnline(Warm(config, t0, memory, log), now) <==> AllFresh(config, log, now)
  {
    var es := FrameEvents(log);
    SlotsRefine(config, t0, memory, es);
    RunKeepsConfig(Init(config, t0, memory), es);
    AllOnlineIsAllHeard(es, Warm(config, t0, memory, log), now);
    forall i: MotorId
      ensures HeardInTime(config, es, i, now) <==> Fresh(config, log, i, now)
    {
      FramesHeard(log, i);
    }
    hide HeardInTime, Fresh;
  }

  /** A clock reading inside the wait: less than 1500 ms, modulo 2^64, after it began. */
  predicate InWait(from: uint64, tested: uint64) {
    (tested - from) % 0x1_0000_0000_0000_0000 < 1500
  }

  /**
   * A wait that uses the first n polls. All of them began inside 1500 ms; it succeeds at the last of them if
   * then, for the first time, all motors are fresh, and fails if the next one is too late or there is none.
   */
  ghost predicate WaitedFor(config: Config, from: uint64, polls: seq<Poll>, log: seq<RxFrame>, n: nat,
                            seen: seq<RxFrame>, ok: bool) {
    && n <= |polls| && seen == log + Drained(polls[..n])
    && (forall j :: 0 <= j < n ==> InWait(from, polls[j].tested))
    && (forall j :: 0 <= j < n - 1 ==> !AllFresh(config, log + Drained(polls[..j + 1]), polls[j].checked))
    && (n > 0 ==> (ok <==> AllFresh(config, seen, polls[n - 1].checked)))
    && (if ok then n > 0 else n == |polls| || !InWait(from, polls[n].tested))
  }

  lemma {:induction false} WaitLaw(config: Config, t0: uint64, memory: Wheels<Feedback>, from: uint64,
                                   polls: seq<Poll>, log: seq<RxFrame>) returns (n: nat)
    ensures var (seen, ok) := WaitLog(config, t0, memory, from, polls, log);
            WaitedFor(config, from, polls, log, n, seen, ok)
    decreases |polls|
  {
    if polls == [] || !InWait(from, polls[0].tested) {
      n := 0;
    } else {
      hide WaitedFor, AllFresh, Warm, AllOnline;
      var seen := log + polls[0].frames;
      WarmIsFresh(config, t0, memory, seen, polls[0].checked);
      if AllOnline(Warm(config, t0, memory, seen), polls[0].checked) {
        n := 1;
        WaitEnds(config, from, polls, log);
      } else {
        var m := WaitLaw(config, t0, memory, from, polls[1..], seen);
        var (all, ok) := WaitLog(config, t0, memory, from, polls[1..], seen);
        n := m + 1;
        WaitGoesOn(config, from, polls, log, m, all, ok);
      }
    }
  }

  lemma WaitEnds(config: Config, from: uint64, polls: seq<Poll>, log: seq<RxFrame>)
    requires polls != [] && InWait(from, polls[0].tested)
    requires AllFresh(config, log + polls[0].frames, polls[0].checked)
    ensures WaitedFor(config, from, polls, log, 1, log + polls[0].frames, true)
  {
    hide AllFresh;
    DrainedHead(polls, 1);
  }

  lemma WaitGoesOn(config: Config, from: uint64, polls: seq<Poll>, log: seq<RxFrame>, m: nat, seen: seq<RxFrame>, ok: bool)
    requires polls != [] && InWait(from, polls[0].tested)
    requires !AllFresh(config, log + polls[0].frames, polls[0].checked)
    requires WaitedFor(config, from, polls[1..], log + polls[0].frames, m, seen, ok)
    ensures WaitedFor(config, from, polls, log, m + 1, seen, ok)
  {
    hide AllFresh, InWait, Drained;
    DrainedHead(polls, m + 1);
    DrainedNone();
    var head := log + polls[0].frames;
    assert polls[1..][..0] == [] && head + [] == head;
    forall j | 0 <= j < m + 1
      ensures InWait(from, polls[j].tested)
      ensures j < m ==> !AllFresh(config, log + Drained(polls[..j + 1]), polls[j].checked)
    {
      DrainedHead(polls, j + 1);
      assert log + Drained(polls[..j + 1]) == head + Drained(polls[1..][..j]);
      assert j > 0 ==> polls[j] == polls[1..][j - 1];
    }
  }

  lemma DrainedNone()
    ensures Drained([]) == []
  {
  }

  lemma DrainedHead(polls: seq<Poll>, n: nat)
    requires 0 < n <= |polls|
    ensures Drained(polls[..n]) == polls[0].frames + Drained(polls[1..][..n - 1])
    ensures n == 1 ==> Drained(polls[..n]) == polls[0].frames
  {
    assert polls[..n][1..] == polls[1..][..n - 1];
  }

  /** The loop is entered only after every motor has been heard. */
  lemma WaitHeardAll(config: Config, t0: uint64, memory: Wheels<Feedback>, from: uint64,
                     polls: seq<Poll>, log: seq<RxFrame>)
    ensures var (seen, ok) := WaitLog(config, t0, memory, from, polls, log);
            ok ==> forall i: MotorId :: LastFrame(seen, i).Some?
  {
    var n := WaitLaw(config, t0, memory, from, polls, log);
    var (seen, ok) := WaitLog(config, t0, memory, from, polls, log);
    if ok {
      forall i: MotorId
        ensures LastFrame(seen, i).Some?
      {
        assert Fresh(config, seen, i, polls[n - 1].checked);
      }
    }
  }

  /** The outputs an active step after this history must produce. */
  ghost predicate DrivenBy(config: Config, es: seq<Event>, dt: real, sent: Wheels<int16>) {
    forall i: MotorId ::
      && LastOrder(es).MoveOrder? && LastHeard(es, i).Heard?
      && sent.At(i) ==
         RoundEven(PidRuns.Run(ShippedGains(i), Inputs(config, es, i) + [InputAt(config, es, i, dt)]).output)
  }

  lemma StepIsSafe(config: Config, t0: uint64, memory: Wheels<Feedback>, es: seq<Event>, now: uint64, dt: real)
    requires ClockRuns(t0, es) && LastTime(t0, es) <= now
    ensures var sent := Step(ChassisHistory.Run(Init(config, t0, memory), es), now, dt).currents;
            && (forall i: MotorId :: -6500 <= sent.At(i) <= 6500)
            && (if Active(config, es, now) then DrivenBy(config, es, dt, sent) else sent == NO_CURRENT)
  {
    hide Step, Targets, PidRuns.Run, RoundEven, Init, Inputs, LastTime, ClockRuns;
    StepRefinesHistory(config, t0, memory, es, now, dt);
    var o := Step(ChassisHistory.Run(Init(config, t0, memory), es), now, dt);
    if Active(config, es, now) {
      forall i: MotorId
        ensures LastOrder(es).MoveOrder? && LastHeard(es, i).Heard?
        ensures o.currents.At(i) ==
                RoundEven(PidRuns.Run(ShippedGains(i), Inputs(config, es, i) + [InputAt(config, es, i, dt)]).output)
      {
        assert HeardInTime(config, es, i, now);
        assert o.currents.At(i) == RoundEven(o.next.pid.At(i).output);
      }
    }
  }

  /**
   * The currents sent in turn k are within the output limit, and they are the rounded outputs of the
   * refined PIDs when the raw inputs allow driving and zero otherwise. The last time step is the
   * seconds since the turn before, or since the loop was entered; the 64-bit difference wraps.
   */
  ghost predicate SafeTurn(config: Config, warm: seq<RxFrame>, loopFrom: uint64, turns: seq<Turn>, k: nat,
                           sent: Wheels<int16>)
    requires k < |turns|
  {
    var upTo := turns[..k + 1];
    var now, before := turns[k].now, if k == 0 then loopFrom else turns[k - 1].now;
    var gapMs := if before <= now then now - before else now - before + 0x1_0000_0000_0000_0000;
    && (forall i: MotorId :: -6500 <= sent.At(i) <= 6500)
    && (if MayDrive(config, warm, upTo, now)
        then DrivenBy(config, BeforeStep(warm, loopFrom, upTo), gapMs as real / 1000.0, sent)
        else sent == NO_CURRENT)
  }

  /** Daemon safety: every turn of every run on a running clock sends safe currents. */
  lemma FramesAreSafe(config: Config, t0: uint64, memory: Wheels<Feedback>, warm: seq<RxFrame>,
                      loopFrom: uint64, turns: seq<Turn>, k: nat)
    requires k < |turns| && ClockRunsOn(t0, turns)
    ensures SafeTurn(config, warm, loopFrom, turns, k,
                     Unpack(FrameOf(Warm(config, t0, memory, warm), loopFrom, turns, k)))
  {
    hide Step, MayDrive, Active, DrivenBy, Warm, Pack, Unpack, BeforeStep, LoopEvents, Dt;
    var upTo := turns[..k + 1];
    TurnGap(loopFrom, turns, k);
    LoopClock(t0, warm, loopFrom, upTo);
    MayDriveIsActive(config, t0, warm, loopFrom, upTo);
    HistorySplits(config, t0, memory, warm, loopFrom, turns, k);
    StepIsSafe(config, t0, memory, BeforeStep(warm, loopFrom, upTo), turns[k].now,
               Dt(turns[k].now, Previous(loopFrom, turns[..k])));
    PackBijection(StepOf(Warm(config, t0, memory, warm), loopFrom, turns, k).currents, Pack(NO_CURRENT));
  }

  /** The step of turn k in plain arithmetic. */
  lemma TurnGap(loopFrom: uint64, turns: seq<Turn>, k: nat)
    requires k < |turns|
    ensures var now, before := turns[k].now, if k == 0 then loopFrom else turns[k - 1].now;
            Dt(now, Previous(loopFrom, turns[..k])) ==
            (if before <= now then now - before else now - before + 0x1_0000_0000_0000_0000) as real / 1000.0
  {
  }

  lemma HistorySplits(config: Config, t0: uint64, memory: Wheels<Feedback>, warm: seq<RxFrame>,
                      loopFrom: uint64, turns: seq<Turn>, k: nat)
    requires k < |turns|
    ensures StepOf(Warm(config, t0, memory, warm), loopFrom, turns, k) ==
            Step(ChassisHistory.Run(Init(config, t0, memory), BeforeStep(warm, loopFrom, turns[..k + 1])),
                 turns[k].now, Dt(turns[k].now, Previous(loopFrom, turns[..k])))
  {
    hide Step, Init;
    var rest := LoopEvents(loopFrom, turns[..k]) + TurnInput(turns[k]);
    RunConcat(Init(config, t0, memory), FrameEvents(warm), rest);
    assert turns[..k + 1][..k] == turns[..k];
    assert BeforeStep(warm, loopFrom, turns[..k + 1]) == FrameEvents(warm) + rest;
  }
}
