/** The control loop of tools/chassis_daemon.c as a function of its inputs. */
module DaemonModel {
  import opened Numerics
  import opened Motors
  import opened Motor3508
  import opened ChassisControl
  import opened ChassisHistory

  const WAIT_TIMEOUT_MS: uint64 := 1500
  const ZERO_SEND_REPEAT: nat := 20

  /** A UDP line after parsing: exactly three numbers, or refused. */
  datatype Line = Triple(cmd: Command) | Garbled

  /** What one turn of the loop reads, and whether the CAN write succeeds. */
  datatype Turn = Turn(now: uint64, lines: seq<Line>, frames: seq<RxFrame>, sendOk: bool)

  /**
   * One turn of the wait for all feedback: the clock in the loop test, the drain, the clock in the
   * check. The end of a list of polls stands for the timeout.
   */
  datatype Poll = Poll(tested: uint64, frames: seq<RxFrame>, checked: uint64)

  function LineEvents(lines: seq<Line>, now: uint64): seq<Event> {
    if lines == [] then []
    else
      var rest := LineEvents(lines[..|lines| - 1], now);
      match lines[|lines| - 1]
      case Triple(cmd) => rest + [Commanded(cmd, now)]
      case Garbled => rest
  }

  function FrameEvents(frames: seq<RxFrame>): seq<Event> {
    if frames == [] then []
    else
      var rest := FrameEvents(frames[..|frames| - 1]);
      var f := frames[|frames| - 1];
      if f.IsFeedback() then rest + [Received(f.Decode())] else rest
  }

  /** Everything a turn tells the controller before it steps. */
  function TurnInput(t: Turn): seq<Event> {
    LineEvents(t.lines, t.now) + FrameEvents(t.frames)
  }

  /** The clock reading the next turn measures its dt from. */
  function Previous(loopFrom: uint64, turns: seq<Turn>): uint64 {
    if turns == [] then loopFrom else turns[|turns| - 1].now
  }

  function Dt(now: uint64, previous: uint64): real {
    WrapSub64(now, previous) as real / 1000.0
  }

  /** The controller's history over whole turns. */
  function LoopEvents(loopFrom: uint64, turns: seq<Turn>): seq<Event> {
    if turns == [] then []
    else
      var init := turns[..|turns| - 1];
      var t := turns[|turns| - 1];
      LoopEvents(loopFrom, init) + (TurnInput(t) + [Stepped(t.now, Dt(t.now, Previous(loopFrom, init)))])
  }

  /** The outcome of turn k of a loop entered with controller c. */
  function StepOf(c: Controller, loopFrom: uint64, turns: seq<Turn>, k: nat): Outcome
    requires k < |turns|
  {
    var t := turns[k];
    Step(Run(c, LoopEvents(loopFrom, turns[..k]) + TurnInput(t)), t.now, Dt(t.now, Previous(loopFrom, turns[..k])))
  }

  /** The CAN data of turn k. */
  function FrameOf(c: Controller, loopFrom: uint64, turns: seq<Turn>, k: nat): CanData
    requires k < |turns|
  {
    Pack(StepOf(c, loopFrom, turns, k).currents)
  }

  /** How many turns get their frame out: the first failing write ends the loop. */
  function Served(turns: seq<Turn>): (n: nat)
    ensures n <= |turns|
    ensures forall k :: 0 <= k < n ==> turns[k].sendOk
    ensures n < |turns| ==> !turns[n].sendOk
  {
    if turns == [] || !turns[0].sendOk then 0 else 1 + Served(turns[1..])
  }

  /** How many of a burst's writes succeed. */
  function Delivered(writes: seq<bool>): (n: nat)
    ensures n <= |writes|
    ensures n == |writes| <==> forall k :: 0 <= k < |writes| ==> writes[k]
  {
    if writes == [] then 0
    else Delivered(writes[..|writes| - 1]) + if writes[|writes| - 1] then 1 else 0
  }

  /** It is the number of writes that succeed. */
  lemma {:induction false} DeliveredCounts(writes: seq<bool>)
    ensures Delivered(writes) == |set k | 0 <= k < |writes| && writes[k]|
  {
    if writes != [] {
      var n := |writes| - 1;
      DeliveredCounts(writes[..n]);
      var before := set k | 0 <= k < n && writes[..n][k];
      var now := set k | 0 <= k < |writes| && writes[k];
      assert now == before + if writes[n] then {n} else {};
    }
  }

  /** A controller whose only inputs so far were the frames in the log. */
  function Warm(config: Config, t0: uint64, memory: Wheels<Feedback>, log: seq<RxFrame>): Controller {
    Run(Init(config, t0, memory), FrameEvents(log))
  }

  /** The frames drained while waiting for feedback, and whether all motors came online in time. */
  function WaitLog(config: Config, t0: uint64, memory: Wheels<Feedback>, from: uint64,
                   polls: seq<Poll>, log: seq<RxFrame>): (seq<RxFrame>, bool)
  {
    if polls == [] || WrapSub64(polls[0].tested, from) >= WAIT_TIMEOUT_MS then (log, false)
    else
      var seen := log + polls[0].frames;
      if AllOnline(Warm(config, t0, memory, seen), polls[0].checked) then (seen, true)
      else WaitLog(config, t0, memory, from, polls[1..], seen)
  }

  lemma {:induction false} RunConcat(c: Controller, a: seq<Event>, b: seq<Event>)
    ensures Run(c, a + b) == Run(Run(c, a), b)
  {
    hide Apply;
    if b == [] {
      assert a + b == a;
    } else {
      RunConcat(c, a, b[..|b| - 1]);
      assert (a + b)[..|a + b| - 1] == a + b[..|b| - 1];
    }
  }

  lemma {:induction false} FrameEventsConcat(a: seq<RxFrame>, b: seq<RxFrame>)
    ensures FrameEvents(a + b) == FrameEvents(a) + FrameEvents(b)
  {
    if b == [] {
      assert a + b == a;
    } else {
      FrameEventsConcat(a, b[..|b| - 1]);
      assert (a + b)[..|a + b| - 1] == a + b[..|b| - 1];
    }
  }
}
