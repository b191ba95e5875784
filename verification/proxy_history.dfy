/** What the proxy holds, sends and publishes, told from its inputs alone. */
module ProxyHistory {
  import opened Numerics
  import opened Motors
  import opened Motor3508
  import opened WireFormat
  import opened ProxyModel

  /** The datagrams that decide the current command; every other one leaves it alone. */
  datatype Order = Quiet | Estop | Current(values: Wheels<int16>, timeoutMs: uint16, at: uint64)

  function OrderOf(d: Datagram, now: uint64): Order {
    var b := Truncated(d.bytes);
    match ParseHeader(b)
    case None => Quiet
    case Some(h) =>
      if h.kind == MSG_ESTOP then Estop
      else if h.kind == MSG_CURRENT_COMMAND && h.payloadLength == CURRENT_PAYLOAD_SIZE then
        Current(ReadWheels(b, HEADER_SIZE), ReadU16(b, HEADER_SIZE + 8), now)
      else Quiet
  }

  function LastIn(ds: seq<Datagram>, now: uint64): Order {
    if ds == [] then Quiet
    else
      var last := OrderOf(ds[|ds| - 1], now);
      if last.Quiet? then LastIn(ds[..|ds| - 1], now) else last
  }

  /** The last emergency stop or well-formed current command received in any turn. */
  function LastOrder(turns: seq<Turn>): Order {
    if turns == [] then Quiet
    else
      var t := turns[|turns| - 1];
      var last := LastIn(t.datagrams, t.now);
      if last.Quiet? then LastOrder(turns[..|turns| - 1]) else last
  }

  function CurrentIn(ds: seq<Datagram>, now: uint64): Order {
    if ds == [] then Quiet
    else
      var last := OrderOf(ds[|ds| - 1], now);
      if last.Current? then last else CurrentIn(ds[..|ds| - 1], now)
  }

  /** The last well-formed current command, whether or not an emergency stop came after it. */
  function LastCurrent(turns: seq<Turn>): Order {
    if turns == [] then Quiet
    else
      var t := turns[|turns| - 1];
      var last := CurrentIn(t.datagrams, t.now);
      if last.Quiet? then LastCurrent(turns[..|turns| - 1]) else last
  }

  function LastTime(turns: seq<Turn>): uint64 {
    if turns == [] then 0 else turns[|turns| - 1].now
  }

  /** A current command is in force: allowed, stamped, and inside its own timeout, where 0 stands for 100 ms. */
  predicate InForce(o: Options, order: Order, now: uint64) {
    && order.Current?
    && o.allowCurrent
    && order.at != 0
    && order.at <= now
    && now - order.at <= if order.timeoutMs == 0 then 100 else order.timeoutMs
  }

  /** The current command the proxy must hold. */
  function Due(o: Options, order: Order, now: uint64): Wheels<int16> {
    if InForce(o, order, now) then ClampAll(order.values, o.maxCurrent) else NO_CURRENT
  }

  lemma {:induction false} ReceiveTells(p: Proxy, o: Options, ds: seq<Datagram>, now: uint64)
    ensures var r := ReceiveAll(p, o, ds, now);
            && r.feedback == p.feedback && r.lastFeedbackMs == p.lastFeedbackMs && r.target == p.target
            && r.txSequence == p.txSequence && r.lastStateMs == p.lastStateMs && r.lastFrameMs == p.lastFrameMs
            && (match LastIn(ds, now)
                case Quiet => r.current == p.current
                case Estop => r.current == NO_CURRENT
                case Current(values, _, _) =>
                  r.current == if o.allowCurrent then ClampAll(values, o.maxCurrent) else NO_CURRENT)
            && (match CurrentIn(ds, now)
                case Current(_, timeoutMs, at) =>
                  && at == now
                  && (o.allowCurrent ==> r.lastCommandMs == now && r.timeoutMs == EffectiveTimeout(timeoutMs))
                case _ => r.lastCommandMs == p.lastCommandMs && r.timeoutMs == p.timeoutMs)
    ensures LastIn(ds, now).Current? ==> CurrentIn(ds, now) == LastIn(ds, now)
    ensures LastIn(ds, now).Quiet? ==> CurrentIn(ds, now).Quiet?
    ensures !CurrentIn(ds, now).Estop?
  {
    hide ParseHeader, ReadU16, ReadWheels, ClampAll, EffectiveTimeout;
    if ds != [] {
      ReceiveTells(p, o, ds[..|ds| - 1], now);
    }
  }

  lemma {:induction false} DrainTells(p: Proxy, frames: seq<RxFrame>)
    ensures DrainAll(p, frames) ==
            p.(feedback := StoreAll(p.feedback, frames), lastFeedbackMs := DrainAll(p, frames).lastFeedbackMs)
    ensures (forall i: MotorId :: p.lastFeedbackMs.At(i) == p.feedback.At(i).lastUpdateMs) ==>
              forall i: MotorId ::
                DrainAll(p, frames).lastFeedbackMs.At(i) == DrainAll(p, frames).feedback.At(i).lastUpdateMs
  {
    if frames != [] {
      DrainTells(p, frames[..|frames| - 1]);
      DrainOneStamps(DrainAll(p, frames[..|frames| - 1]), frames[|frames| - 1]);
    }
  }

  lemma DrainOneStamps(p: Proxy, f: RxFrame)
    ensures forall i: MotorId :: p.lastFeedbackMs.At(i) == p.feedback.At(i).lastUpdateMs ==>
              DrainOne(p, f).lastFeedbackMs.At(i) == DrainOne(p, f).feedback.At(i).lastUpdateMs
  {
    hide BytesToI16;
  }

  /** Draining the queues touches neither the rate limiters nor the sequence number. */
  lemma FedKeeps(p: Proxy, o: Options, t: Turn)
    ensures var q := Fed(p, o, t);
            q.txSequence == p.txSequence && q.lastStateMs == p.lastStateMs && q.lastFrameMs == p.lastFrameMs
  {
    DrainTells(p, t.frames);
    ReceiveTells(DrainAll(p, t.frames), o, t.datagrams, t.now);
  }

  /** How the command fields relate to the last order. */
  ghost predicate Holds(o: Options, turns: seq<Turn>, p: Proxy) {
    var order := LastOrder(turns);
    && p.current == Due(o, order, LastTime(turns))
    && (order.Current? ==> LastCurrent(turns) == order)
    && (match LastCurrent(turns)
        case Current(_, timeoutMs, at) =>
          && at <= LastTime(turns)
          && (o.allowCurrent ==> p.lastCommandMs == at && p.timeoutMs == EffectiveTimeout(timeoutMs))
        case _ => p.lastCommandMs == 0)
    && p.lastFrameMs <= LastTime(turns) && p.lastStateMs <= LastTime(turns)
    && p.target == NO_CURRENT
  }

  /** After the command window has been checked, the held command is the due one, and only it is sent. */
  lemma TurnHolds(o: Options, turns: seq<Turn>, t: Turn, p: Proxy)
    requires Holds(o, turns, p) && LastTime(turns) <= t.now
    ensures Holds(o, turns + [t], Gate(Fed(p, o, t), o, t.now))
    ensures WindowOpen(Fed(p, o, t), o, t.now) <==> InForce(o, LastCurrent(turns + [t]), t.now)
    ensures FrameSent(Fed(p, o, t), o, t.now).Some? ==>
              FrameSent(Fed(p, o, t), o, t.now).value == Pack(Due(o, LastOrder(turns + [t]), t.now))
  {
    hide ClampAll, Pack, StoreAll, LastIn, CurrentIn;
    assert (turns + [t])[..|turns|] == turns;
    DrainTells(p, t.frames);
    ReceiveTells(DrainAll(p, t.frames), o, t.datagrams, t.now);
  }

  lemma StartHolds(o: Options)
    ensures Holds(o, [], START)
  {
  }

  /**
   * Proxy history refinement: on a running clock the command held at the send point is the clamped
   * payload of the last effective datagram while that is a current command in force, and zero in
   * every other case.
   */
  lemma {:induction false} RunHolds(o: Options, turns: seq<Turn>)
    requires ClockRuns(turns)
    ensures Holds(o, turns, Run(o, turns).proxy)
  {
    hide Fed, Gate, Due, FrameSent, StateSent, LastOrder, LastCurrent;
    if turns == [] {
      StartHolds(o);
    } else {
      var init, t := turns[..|turns| - 1], turns[|turns| - 1];
      RunHolds(o, init);
      TurnHolds(o, init, t, Run(o, init).proxy);
      assert init + [t] == turns;
    }
  }

  /** A turn adds at most one frame, with the command due in it. */
  lemma TurnFrame(o: Options, turns: seq<Turn>)
    requires ClockRuns(turns) && turns != []
    ensures var before, frames := Run(o, turns[..|turns| - 1]).frames, Run(o, turns).frames;
            || frames == before
            || (exists d :: frames == before + [(LastTime(turns), d)]
                            && Unpack(d) == Due(o, LastOrder(turns), LastTime(turns)))
  {
    hide Gate, Publish, StateSent, Due, Holds, Pack, Unpack, Fed, LastOrder, FrameSent;
    var init, t := turns[..|turns| - 1], turns[|turns| - 1];
    var before := Run(o, init);
    RunHolds(o, init);
    TurnHolds(o, init, t, before.proxy);
    assert init + [t] == turns;
    PackBijection(Due(o, LastOrder(turns), t.now), Pack(NO_CURRENT));
  }

  /** The same for everything on the bus: each frame carries the command due in the turn k that sent it. */
  lemma {:induction false} FramesAreDue(o: Options, turns: seq<Turn>, j: nat) returns (k: nat)
    requires ClockRuns(turns) && j < |Run(o, turns).frames|
    ensures 0 < k <= |turns| && turns[k - 1].now == Run(o, turns).frames[j].0
    ensures |Run(o, turns[..k - 1]).frames| == j && |Run(o, turns[..k]).frames| == j + 1
    ensures Unpack(Run(o, turns).frames[j].1) == Due(o, LastOrder(turns[..k]), turns[k - 1].now)
  {
    hide TakeTurn, Due, Unpack, LastOrder;
    var init := turns[..|turns| - 1];
    TurnFrame(o, turns);
    if j < |Run(o, init).frames| {
      k := FramesAreDue(o, init, j);
      assert init[..k] == turns[..k] && init[..k - 1] == turns[..k - 1];
    } else {
      k := |turns|;
      assert turns[..k] == turns;
    }
  }

  predicate NoCommands(turns: seq<Turn>) {
    forall k :: 0 <= k < |turns| ==> !LastIn(turns[k].datagrams, turns[k].now).Current?
  }

  /** A closed window never reopens by itself: without a new current command the proxy holds zero for ever. */
  lemma {:induction false} ClosedStaysClosed(o: Options, turns: seq<Turn>, more: seq<Turn>)
    requires ClockRuns(turns + more) && NoCommands(more)
    requires !InForce(o, LastOrder(turns), LastTime(turns))
    ensures !InForce(o, LastOrder(turns + more), LastTime(turns + more))
    ensures Run(o, turns + more).proxy.current == NO_CURRENT
  {
    hide ProxyModel.Run, LastIn, CurrentIn, EffectiveTimeout, ClampAll;
    RunHolds(o, turns + more);
    if more == [] {
      assert turns + more == turns;
    } else {
      var init, t := more[..|more| - 1], more[|more| - 1];
      assert (turns + more)[..|turns + more| - 1] == turns + init;
      ClosedStaysClosed(o, turns, init);
      InThePast(o, turns + init);
    }
  }

  lemma InThePast(o: Options, turns: seq<Turn>)
    requires ClockRuns(turns)
    ensures LastOrder(turns).Current? ==> LastOrder(turns).at <= LastTime(turns)
  {
    RunHolds(o, turns);
  }

  /** Every CAN frame read so far. */
  function FrameLog(turns: seq<Turn>): seq<RxFrame> {
    if turns == [] then [] else FrameLog(turns[..|turns| - 1]) + turns[|turns| - 1].frames
  }

  lemma {:induction false} RunSlots(o: Options, turns: seq<Turn>)
    ensures var p := Run(o, turns).proxy;
            && p.feedback == StoreAll(START.feedback, FrameLog(turns))
            && forall i: MotorId :: p.lastFeedbackMs.At(i) == p.feedback.At(i).lastUpdateMs
  {
    hide StoreAll;
    if turns == [] {
      assert StoreAll(START.feedback, []) == START.feedback by {
        StoreNothing(START.feedback);
      }
    } else {
      var init, t := turns[..|turns| - 1], turns[|turns| - 1];
      RunSlots(o, init);
      StoreConcat(START.feedback, FrameLog(init), t.frames);
      DrainTells(Run(o, init).proxy, t.frames);
      ReceiveTells(DrainAll(Run(o, init).proxy, t.frames), o, t.datagrams, t.now);
    }
  }

  lemma StoreNothing(slots: Wheels<Feedback>)
    ensures StoreAll(slots, []) == slots
  {
  }

  function SpeedIn(log: seq<RxFrame>, i: MotorId): int16 {
    if LastFrame(log, i).Some? && LastFrame(log, i).value.IsFeedback() then LastFrame(log, i).value.Decode().speedRpm else 0
  }

  function StampIn(log: seq<RxFrame>, i: MotorId): uint64 {
    if LastFrame(log, i).Some? then LastFrame(log, i).value.stampMs else 0
  }

  /** The state a turn publishes, read off the raw inputs. */
  function Described(o: Options, turns: seq<Turn>): ChassisState
    requires turns != []
  {
    var log, now := FrameLog(turns), turns[|turns| - 1].now;
    ChassisState(NO_CURRENT,
                 Wheels(SpeedIn(log, 1), SpeedIn(log, 2), SpeedIn(log, 3), SpeedIn(log, 4)),
                 Due(o, LastOrder(turns), now),
                 OnlineMask(Wheels(StampIn(log, 1), StampIn(log, 2), StampIn(log, 3), StampIn(log, 4)), now),
                 0)
  }

  lemma SlotTells(turns: seq<Turn>, i: MotorId)
    ensures var f := StoreAll(START.feedback, FrameLog(turns)).At(i);
            f.speedRpm == SpeedIn(FrameLog(turns), i) && f.lastUpdateMs == StampIn(FrameLog(turns), i)
  {
    hide StoreAll, FrameLog, LastFrame;
    SlotsRefineLog(START.feedback, FrameLog(turns), i);
  }

  /** Every published state is exactly the description of some turn's inputs. */
  lemma {:induction false} PublishedAreDescribed(o: Options, turns: seq<Turn>, j: nat) returns (k: nat)
    requires ClockRuns(turns) && j < |Run(o, turns).published|
    ensures 0 < k <= |turns| && Run(o, turns).published[j].state == Described(o, turns[..k])
  {
    hide Described, Snapshot, Fed, Gate, FrameSent, Publish;
    var init := turns[..|turns| - 1];
    if j < |Run(o, init).published| {
      k := PublishedAreDescribed(o, init, j);
      assert init[..k] == turns[..k];
    } else {
      k := |turns|;
      LastPublished(o, turns);
      assert turns[..k] == turns;
    }
  }

  /** The state the last turn's publish attempt describes. */
  function Gated(o: Options, turns: seq<Turn>): Proxy
    requires turns != []
  {
    var t := turns[|turns| - 1];
    Gate(Fed(Run(o, turns[..|turns| - 1]).proxy, o, t), o, t.now)
  }

  lemma GatedIsRun(o: Options, turns: seq<Turn>)
    requires turns != []
    ensures var g, p := Gated(o, turns), Run(o, turns).proxy;
            g.feedback == p.feedback && g.lastFeedbackMs == p.lastFeedbackMs
            && g.current == p.current && g.target == p.target
  {
    hide Gate, Fed, StateDue, FrameSent, StateSent;
  }

  lemma LastPublished(o: Options, turns: seq<Turn>)
    requires ClockRuns(turns) && turns != []
    ensures Snapshot(Gated(o, turns), turns[|turns| - 1].now) == Described(o, turns)
  {
    hide OnlineMask, StoreAll, Due, FrameLog, StampIn, SpeedIn, Run, Gated, LastOrder;
    GatedIsRun(o, turns);
    RunHolds(o, turns);
    RunSlots(o, turns);
    SlotTells(turns, 1);
    SlotTells(turns, 2);
    SlotTells(turns, 3);
    SlotTells(turns, 4);
    var stamps := Run(o, turns).proxy.lastFeedbackMs;
    assert forall i: MotorId :: stamps.At(i) == StampIn(FrameLog(turns), i);
    assert stamps.m1 == stamps.At(1) && stamps.m2 == stamps.At(2) && stamps.m3 == stamps.At(3) && stamps.m4 == stamps.At(4);
  }

  /**
   * The clamp in plain arithmetic. Under a negative limit every value passes one bound or the other,
   * and what is left of it is cut to 16 bits.
   */
  lemma ClampLaw(v: int16, limit: Int32)
    ensures 0 <= limit ==> ClampCurrent(v, limit) == if v > limit then limit else if v < -limit then -limit else v
    ensures limit < 0 ==> (ClampCurrent(v, limit) - (if v > limit then limit else -limit)) % 0x1_0000 == 0
  {
  }

  /** For every limit, casts included, no clamped current exceeds its magnitude. */
  lemma ClampWithin(v: int16, limit: Int32)
    ensures -Magnitude(limit) <= ClampCurrent(v, limit) <= Magnitude(limit)
  {
  }

  /** The configured limit bounds every clamped current exactly when it is not negative. */
  lemma ClampBoundsIff(limit: Int32)
    ensures (forall v: int16 :: -limit <= ClampCurrent(v, limit) <= limit) <==> 0 <= limit
  {
    if limit < 0 {
      var r := ClampCurrent(0, limit);
      assert !(-limit <= r <= limit);
    }
  }

  /** A zero command passes the clamp unharmed: the limit is not negative, or its low 16 bits vanish. */
  predicate ZeroSurvives(limit: Int32) {
    0 <= limit || limit % 0x1_0000 == 0
  }

  /** A negative limit turns the zero command into a current, unless the int16 cast erases it. */
  lemma ZeroSurvivesIff(limit: Int32)
    ensures ClampCurrent(0, limit) == 0 <==> ZeroSurvives(limit)
  {
  }

  /** A stamp counts when it is not zero and lies at most 200 ms back, modulo 2^64. */
  predicate JustHeard(now: uint64, stamp: uint64) {
    stamp != 0 && (now - stamp) % 0x1_0000_0000_0000_0000 <= 200
  }

  /** Bit i - 1 of the mask says whether motor i's stamp counts. */
  lemma MaskBits(stamps: Wheels<uint64>, now: uint64)
    ensures var mask := OnlineMask(stamps, now);
            && (mask % 2 == 1 <==> JustHeard(now, stamps.At(1)))
            && (mask / 2 % 2 == 1 <==> JustHeard(now, stamps.At(2)))
            && (mask / 4 % 2 == 1 <==> JustHeard(now, stamps.At(3)))
            && (mask / 8 % 2 == 1 <==> JustHeard(now, stamps.At(4)))
            && mask < 16
  {
    assert forall stamp: uint64 :: OnlineBit(now, stamp) <==> JustHeard(now, stamp);
    hide OnlineBit, JustHeard;
  }

  /**
   * The proxy's online bit and the chassis controller's saturating test, at the same 200 ms limit,
   * agree on a stamp that is set exactly when the stamp is not in the future, or is so far ahead
   * that the subtraction wraps back into range. ProxyPromises.JustHeardIsPublishedOffline is a run in
   * which a slightly later stamp occurs.
   */
  lemma FreshnessAgreesIff(now: uint64, stamp: uint64)
    requires stamp != 0
    ensures (OnlineBit(now, stamp) <==> Elapsed(now, stamp) as real <= 200.0)
            <==> (stamp <= now || stamp - now >= 0x1_0000_0000_0000_0000 - 200)
  {
    if stamp <= now {
      assert WrapSub64(now, stamp) == now - stamp;
    } else {
      assert WrapSub64(now, stamp) == now - stamp + 0x1_0000_0000_0000_0000;
    }
  }
}

/** How often the proxy may speak. */
module ProxyRates {
  import opened Numerics
  import opened Motor3508
  import opened ProxyModel
  import opened ProxyHistory

  predicate Spaced(times: seq<uint64>, period: nat) {
    forall k :: 0 < k < |times| ==> times[k] - times[k - 1] >= period
  }

  function Times<T>(log: seq<(uint64, T)>): seq<uint64> {
    seq(|log|, i requires 0 <= i < |log| => log[i].0)
  }

  /** Neighbours a period apart put n events at least n - 1 periods apart. */
  lemma {:induction false} SpacedSpan(times: seq<uint64>, period: nat, i: nat, j: nat)
    requires Spaced(times, period) && i <= j < |times|
    ensures times[j] - times[i] >= period * (j - i)
    decreases j
  {
    if i < j {
      SpacedSpan(times, period, i, j - 1);
      assert period * (j - i) == period * (j - 1 - i) + period;
    }
  }

  lemma SpacedAppend(times: seq<uint64>, t: uint64, period: nat)
    requires Spaced(times, period) && (times != [] ==> t - times[|times| - 1] >= period)
    ensures Spaced(times + [t], period)
  {
  }

  lemma TimesAppend<T>(log: seq<(uint64, T)>, x: (uint64, T))
    ensures Times(log + [x]) == Times(log) + [x.0]
  {
  }

  /** When the last current frame went out; zero before the first. */
  function LastFrameTime(tr: Trace): uint64 {
    if tr.frames == [] then 0 else tr.frames[|tr.frames| - 1].0
  }

  lemma {:induction false} FramesAreSpaced(o: Options, turns: seq<Turn>)
    requires ClockRuns(turns)
    ensures var tr := Run(o, turns);
            && Spaced(Times(tr.frames), FRAME_PERIOD_MS)
            && tr.proxy.lastFrameMs == LastFrameTime(tr)
  {
    hide Fed, Due, WindowOpen, StateSent, Spaced, Times, Pack;
    if turns == [] {
      NothingIsSpaced();
    } else {
      var init, t := turns[..|turns| - 1], turns[|turns| - 1];
      var tr := Run(o, init);
      FramesAreSpaced(o, init);
      RunHolds(o, init);
      FedKeeps(tr.proxy, o, t);
      if FrameSent(Fed(tr.proxy, o, t), o, t.now).Some? {
        assert |Times(tr.frames)| == |tr.frames| && (tr.frames != [] ==> Times(tr.frames)[|tr.frames| - 1] == tr.proxy.lastFrameMs) by {
          TimesShape(tr.frames);
        }
        SpacedAppend(Times(tr.frames), t.now, FRAME_PERIOD_MS);
        TimesAppend(tr.frames, Run(o, turns).frames[|tr.frames|]);
      }
    }
  }

  lemma TimesShape<T>(log: seq<(uint64, T)>)
    ensures |Times(log)| == |log|
    ensures forall k :: 0 <= k < |log| ==> Times(log)[k] == log[k].0
  {
  }

  lemma NothingIsSpaced()
    ensures Spaced([], FRAME_PERIOD_MS) && Spaced(Times<CanData>([]), FRAME_PERIOD_MS) && Spaced([], STATE_PERIOD_MS)
  {
  }

  lemma {:induction false} AttemptsAreSpaced(o: Options, turns: seq<Turn>)
    requires ClockRuns(turns)
    ensures var tr := Run(o, turns);
            && Spaced(tr.attempts, STATE_PERIOD_MS)
            && (tr.attempts != [] ==> tr.attempts[|tr.attempts| - 1] == tr.proxy.lastStateMs)
  {
    hide Fed, Due, WindowOpen, FrameSent, StateSent, Spaced;
    if turns == [] {
      NothingIsSpaced();
    } else {
      var init, t := turns[..|turns| - 1], turns[|turns| - 1];
      var tr := Run(o, init);
      AttemptsAreSpaced(o, init);
      RunHolds(o, init);
      FedKeeps(tr.proxy, o, t);
      if tr.attempts == [] || t.now - tr.attempts[|tr.attempts| - 1] >= STATE_PERIOD_MS {
        SpacedAppend(tr.attempts, t.now, STATE_PERIOD_MS);
      }
    }
  }

  /** Rate bound on current frames: any n of them span at least 10 (n - 1) ms. */
  lemma FrameRate(o: Options, turns: seq<Turn>, i: nat, j: nat)
    requires ClockRuns(turns) && i <= j < |Run(o, turns).frames|
    ensures Run(o, turns).frames[j].0 - Run(o, turns).frames[i].0 >= 10 * (j - i)
  {
    FramesAreSpaced(o, turns);
    SpacedSpan(Times(Run(o, turns).frames), FRAME_PERIOD_MS, i, j);
  }

  /** Rate bound on publish attempts: any n of them span at least 20 (n - 1) ms. */
  lemma AttemptRate(o: Options, turns: seq<Turn>, i: nat, j: nat)
    requires ClockRuns(turns) && i <= j < |Run(o, turns).attempts|
    ensures Run(o, turns).attempts[j] - Run(o, turns).attempts[i] >= 20 * (j - i)
  {
    AttemptsAreSpaced(o, turns);
    SpacedSpan(Run(o, turns).attempts, STATE_PERIOD_MS, i, j);
  }

  /**
   * Which turns send: a turn adds a frame exactly when the last current command is in force,
   * whatever emergency stops followed it, and ten milliseconds have passed since the last frame.
   * So an expired command means silence, not zero frames.
   */
  lemma SendsIff(o: Options, turns: seq<Turn>)
    requires ClockRuns(turns) && turns != []
    ensures var before, now := Run(o, turns[..|turns| - 1]), turns[|turns| - 1].now;
            && |Run(o, turns).frames| <= |before.frames| + 1
            && (|Run(o, turns).frames| == |before.frames| + 1 <==>
                InForce(o, LastCurrent(turns), now) && now - LastFrameTime(before) >= 10)
  {
    hide Fed, Gate, Publish, StateSent, Pack, InForce, WindowOpen, FrameDue, Holds, LastCurrent, LastFrameTime;
    var init, t := turns[..|turns| - 1], turns[|turns| - 1];
    RunHolds(o, init);
    TurnHolds(o, init, t, Run(o, init).proxy);
    DueAgrees(o, init, t);
    assert init + [t] == turns;
  }

  lemma DueAgrees(o: Options, turns: seq<Turn>, t: Turn)
    requires ClockRuns(turns) && LastTime(turns) <= t.now
    ensures FrameDue(Fed(Run(o, turns).proxy, o, t), t.now)
            <==> t.now - LastFrameTime(Run(o, turns)) >= FRAME_PERIOD_MS
  {
    hide Fed, Due, Run, LastCurrent, LastOrder, LastFrameTime;
    FramesAreSpaced(o, turns);
    RunHolds(o, turns);
    FedKeeps(Run(o, turns).proxy, o, t);
  }

  /** The k-th state published (counting from one) carries sequence k modulo 2^32, on any clock. */
  lemma {:induction false} SequenceNumbers(o: Options, turns: seq<Turn>)
    ensures var tr := Run(o, turns);
            && tr.proxy.txSequence == |tr.published| % 0x1_0000_0000
            && forall k :: 0 <= k < |tr.published| ==> tr.published[k].sequence == (k + 1) % 0x1_0000_0000
  {
    hide Fed, FrameSent, Snapshot, WindowOpen, FrameDue, StateDue;
    if turns != [] {
      var init, t := turns[..|turns| - 1], turns[|turns| - 1];
      SequenceNumbers(o, init);
      FedKeeps(Run(o, init).proxy, o, t);
    }
  }
}
