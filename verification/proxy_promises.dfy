/** Promises of the bridge protocol document, and exactly when tools/can_proxy.c keeps them. */
module ProxyPromises {
  import opened Numerics
  import opened Motors
  import opened Motor3508
  import opened WireFormat
  import opened ProxyModel
  import opened ProxyHistory
  import ProxyRates

  /** Every current a datagram can carry clamps to zero. */
  predicate NothingDrives(limit: Int32) {
    limit <= 0 && limit % 0x1_0000 == 0
  }

  /** A current that survives the clamp, when there is one. */
  function Driver(limit: Int32): int16 {
    if limit > 0 then 1 else 0
  }

  lemma NothingDrivesIff(limit: Int32)
    ensures (forall v: int16 :: ClampCurrent(v, limit) == 0) <==> NothingDrives(limit)
    ensures ClampCurrent(Driver(limit), limit) == 0 <==> NothingDrives(limit)
  {
    assert (forall v: int16 :: ClampCurrent(v, limit) == 0) ==> ClampCurrent(Driver(limit), limit) == 0;
  }

  lemma NothingIsDue(o: Options, order: Order, now: uint64)
    requires !o.allowCurrent || NothingDrives(o.maxCurrent)
    ensures Due(o, order, now) == NO_CURRENT
  {
    NothingDrivesIff(o.maxCurrent);
    hide ClampCurrent, NothingDrives;
  }

  /** An emergency stop at 10 ms, then a current command at 20 ms, and not one feedback frame. */
  function OverrideTurns(v: int16): seq<Turn> {
    var stop := FromWords(HeaderWords(Header(MSG_ESTOP, 1, 0, 0, 0)));
    var go := CurrentPacket(2, 0, Wheels(v, v, v, v), 100);
    [Turn(10, [], [Datagram(stop, 0)], 0), Turn(20, [], [Datagram(go, 0)], 0)]
  }

  lemma OverrideOrders(v: int16)
    ensures var turns := OverrideTurns(v);
            && ClockRuns(turns)
            && LastOrder(turns[..1]) == Estop && LastCurrent(turns[..1]) == Quiet
            && LastOrder(turns) == Current(Wheels(v, v, v, v), 100, 20)
            && LastCurrent(turns) == LastOrder(turns)
  {
    hide ParseHeader, ReadU16, ReadWheels, HeaderWords, CurrentPacket, LastOrder, LastCurrent;
    var turns := OverrideTurns(v);
    var header := Header(MSG_ESTOP, 1, 0, 0, 0);
    PacketHeader(header, []);
    assert HeaderWords(header) + [] == HeaderWords(header);
    StopSize();
    BridgePacketsParse(2, 0, Wheels(v, v, v, v), 100);
    assert OrderOf(turns[0].datagrams[0], 10) == Estop;
    assert OrderOf(turns[1].datagrams[0], 20) == Current(Wheels(v, v, v, v), 100, 20);
    assert turns[..1] == [turns[0]] && turns[..1] + [turns[1]] == turns;
    LoneOrder([], turns[0]);
    LoneOrder(turns[..1], turns[1]);
    assert [] + [turns[0]] == turns[..1];
  }

  /** The orders after a turn that received one datagram. */
  lemma LoneOrder(turns: seq<Turn>, t: Turn)
    requires |t.datagrams| == 1
    ensures var order := OrderOf(t.datagrams[0], t.now);
            && LastOrder(turns + [t]) == (if order.Quiet? then LastOrder(turns) else order)
            && LastCurrent(turns + [t]) == (if order.Current? then order else LastCurrent(turns))
    ensures LastOrder([]) == Quiet && LastCurrent([]) == Quiet
  {
    hide OrderOf;
    assert (turns + [t])[..|turns|] == turns;
    var order := OrderOf(t.datagrams[0], t.now);
    assert t.datagrams[..0] == [];
    assert LastIn(t.datagrams[..0], t.now) == Quiet && CurrentIn(t.datagrams[..0], t.now) == Quiet;
    assert LastIn(t.datagrams, t.now) == order;
    assert CurrentIn(t.datagrams, t.now) == if order.Current? then order else Quiet;
  }

  lemma NothingHeard(v: int16)
    ensures FrameLog(OverrideTurns(v)) == []
  {
    hide FromWords, HeaderWords, CurrentPacket;
    var turns := OverrideTurns(v);
    assert turns[..1][..0] == [];
    assert FrameLog(turns[..1]) == [];
  }

  lemma StopSize()
    ensures |FromWords(HeaderWords(Header(MSG_ESTOP, 1, 0, 0, 0)))| == 20
  {
  }

  /** What that run leaves behind: one frame, in its second turn, with the clamped command. */
  lemma OverrideOutcome(o: Options, v: int16)
    requires o.allowCurrent
    ensures var turns := OverrideTurns(v);
            var w := ClampAll(Wheels(v, v, v, v), o.maxCurrent);
            && Run(o, turns).proxy.current == w
            && |Run(o, turns[..1]).frames| == 0
            && |Run(o, turns).frames| == 1
            && Unpack(Run(o, turns).frames[0].1) == w
  {
    hide OverrideTurns, ProxyModel.Run, ClampAll, LastOrder, LastCurrent, FrameLog, Unpack;
    var turns := OverrideTurns(v);
    OverrideOrders(v);
    OverrideTimes(v);
    RunHolds(o, turns);
    NoTurnsNoFrames(o);
    assert turns[..1][..0] == [] && turns[..2] == turns;
    ProxyRates.SendsIff(o, turns[..1]);
    ProxyRates.SendsIff(o, turns);
    var k := FramesAreDue(o, turns, 0);
    assert k == 2;
  }

  lemma OverrideTimes(v: int16)
    ensures var turns := OverrideTurns(v);
            |turns| == 2 && turns[0].now == 10 && turns[1].now == 20 && LastTime(turns) == 20
  {
  }

  lemma NoTurnsNoFrames(o: Options)
    ensures Run(o, []).frames == []
  {
  }

  /** If the last turn sent a frame, it was four zeros or all four motors were fresh. */
  predicate GatedByFeedback(o: Options, turns: seq<Turn>)
    requires turns != []
  {
    var frames := Run(o, turns).frames;
    |frames| > |Run(o, turns[..|turns| - 1]).frames| ==>
      Unpack(frames[|frames| - 1].1) == NO_CURRENT || Described(o, turns).onlineMask == 0xF
  }

  /**
   * Feedback gates the currents in every run exactly when the options let no current through at
   * all: the proxy never asks whether the motors have been heard.
   */
  lemma FeedbackGatesIff(o: Options)
    ensures (forall turns: seq<Turn> | turns != [] && ClockRuns(turns) :: GatedByFeedback(o, turns))
            <==> (!o.allowCurrent || NothingDrives(o.maxCurrent))
  {
    hide ProxyModel.Run, Unpack, Described, NothingDrives, ClampAll;
    if !o.allowCurrent || NothingDrives(o.maxCurrent) {
      forall turns: seq<Turn> | turns != [] && ClockRuns(turns)
        ensures GatedByFeedback(o, turns)
      {
        if |Run(o, turns).frames| > 0 {
          var k := FramesAreDue(o, turns, |Run(o, turns).frames| - 1);
          NothingIsDue(o, LastOrder(turns[..k]), turns[k - 1].now);
        }
      }
    } else {
      var v := Driver(o.maxCurrent);
      var turns := OverrideTurns(v);
      OverrideOrders(v);
      OverrideTimes(v);
      OverrideOutcome(o, v);
      NothingHeard(v);
      UnheardMask(o, turns);
      DriverDrives(o);
      assert !GatedByFeedback(o, turns);
    }
  }

  lemma DriverDrives(o: Options)
    requires !NothingDrives(o.maxCurrent)
    ensures var v := Driver(o.maxCurrent); ClampAll(Wheels(v, v, v, v), o.maxCurrent) != NO_CURRENT
  {
    NothingDrivesIff(o.maxCurrent);
    hide ClampCurrent;
  }

  lemma UnheardMask(o: Options, turns: seq<Turn>)
    requires turns != [] && FrameLog(turns) == []
    ensures Described(o, turns).onlineMask == 0
  {
  }

  /** Some emergency stop was the last order of its moment, and now the held command is zero. */
  predicate StopHolds(o: Options, turns: seq<Turn>, k: nat)
    requires k <= |turns|
  {
    LastOrder(turns[..k]) == Estop ==> Run(o, turns).proxy.current == NO_CURRENT
  }

  /**
   * After an emergency stop every later held command is zero, in every run, exactly when the options
   * let no current through at all: the stop is not latched, the next command overrides it.
   */
  lemma StopLatchesIff(o: Options)
    ensures (forall turns: seq<Turn>, k: nat | ClockRuns(turns) && k <= |turns| :: StopHolds(o, turns, k))
            <==> (!o.allowCurrent || NothingDrives(o.maxCurrent))
  {
    hide ProxyModel.Run, NothingDrives, ClampAll;
    if !o.allowCurrent || NothingDrives(o.maxCurrent) {
      forall turns: seq<Turn>, k: nat | ClockRuns(turns) && k <= |turns|
        ensures StopHolds(o, turns, k)
      {
        RunHolds(o, turns);
        NothingIsDue(o, LastOrder(turns), LastTime(turns));
      }
    } else {
      var v := Driver(o.maxCurrent);
      OverrideOrders(v);
      OverrideTimes(v);
      OverrideOutcome(o, v);
      DriverDrives(o);
      assert !StopHolds(o, OverrideTurns(v), 1);
    }
  }

  /** Per run, whatever the options: a stop holds until the next well-formed current command. */
  lemma StopHoldsUntilCommand(o: Options, turns: seq<Turn>, more: seq<Turn>)
    requires ClockRuns(turns + more) && LastOrder(turns) == Estop && NoCommands(more)
    ensures Run(o, turns + more).proxy.current == NO_CURRENT
  {
    ClosedStaysClosed(o, turns, more);
  }

  /** Equal outside the header's sequence number, time and flags. */
  predicate SameButUnchecked(a: Packet, b: Packet) {
    && |a| == |b|
    && forall j :: 0 <= j < |a| && !(8 <= j < 16) && !(18 <= j < 20) ==> a[j] == b[j]
  }

  /** Those three fields are read and never used: a datagram's effect does not depend on them. */
  lemma ReceiveIgnoresUnchecked(p: Proxy, o: Options, d: Datagram, e: Datagram, now: uint64)
    requires SameButUnchecked(d.bytes, e.bytes) && d.peer == e.peer
    ensures Receive(p, o, d, now) == Receive(p, o, e, now)
  {
    hide ClampAll, ToInt16;
    var a, b := Truncated(d.bytes), Truncated(e.bytes);
    assert SameButUnchecked(a, b);
    assert ParseHeader(a).Some? <==> ParseHeader(b).Some?;
    if ParseHeader(a).Some? {
      assert ParseHeader(a).value.kind == ParseHeader(b).value.kind;
      assert ParseHeader(a).value.payloadLength == ParseHeader(b).value.payloadLength;
      if ParseHeader(a).value.payloadLength == CURRENT_PAYLOAD_SIZE {
        assert ReadWheels(a, HEADER_SIZE) == ReadWheels(b, HEADER_SIZE);
      }
    }
  }

  predicate SameTurn(a: Turn, b: Turn) {
    && a.now == b.now && a.frames == b.frames && a.stampMs == b.stampMs
    && |a.datagrams| == |b.datagrams|
    && forall j :: 0 <= j < |a.datagrams| ==>
         a.datagrams[j].peer == b.datagrams[j].peer && SameButUnchecked(a.datagrams[j].bytes, b.datagrams[j].bytes)
  }

  lemma {:induction false} BatchIgnoresUnchecked(p: Proxy, o: Options, ds: seq<Datagram>, es: seq<Datagram>, now: uint64)
    requires |ds| == |es|
    requires forall j :: 0 <= j < |ds| ==> ds[j].peer == es[j].peer && SameButUnchecked(ds[j].bytes, es[j].bytes)
    ensures ReceiveAll(p, o, ds, now) == ReceiveAll(p, o, es, now)
  {
    hide Receive, SameButUnchecked;
    if ds != [] {
      var n := |ds| - 1;
      BatchIgnoresUnchecked(p, o, ds[..n], es[..n], now);
      ReceiveIgnoresUnchecked(ReceiveAll(p, o, ds[..n], now), o, ds[n], es[n], now);
    }
  }

  /** Over whole runs: sequence numbers, times and flags of the senders leave no trace. */
  lemma {:induction false} RunIgnoresUnchecked(o: Options, turns: seq<Turn>, others: seq<Turn>)
    requires |turns| == |others| && forall k :: 0 <= k < |turns| ==> SameTurn(turns[k], others[k])
    ensures Run(o, turns) == Run(o, others)
  {
    hide Gate, Publish, FrameSent, StateSent, StateDue, ReceiveAll, SameButUnchecked;
    if turns != [] {
      var n := |turns| - 1;
      RunIgnoresUnchecked(o, turns[..n], others[..n]);
      assert SameTurn(turns[n], others[n]);
      BatchIgnoresUnchecked(DrainAll(Run(o, turns[..n]).proxy, turns[n].frames), o,
                            turns[n].datagrams, others[n].datagrams, turns[n].now);
    }
  }

  /**
   * So a replay is taken as fresh: whenever a well-formed current command arrives last in a turn,
   * however old and however often received before, it is in force as of now.
   */
  lemma ReplayIsFresh(o: Options, turns: seq<Turn>, t: Turn, d: Datagram, first: uint64)
    requires ClockRuns(turns + [t]) && t.datagrams != [] && t.datagrams[|t.datagrams| - 1] == d
    requires OrderOf(d, first).Current?
    ensures LastOrder(turns + [t]) == OrderOf(d, first).(at := t.now)
    ensures Run(o, turns + [t]).proxy.current ==
            if o.allowCurrent && t.now != 0 then ClampAll(OrderOf(d, first).values, o.maxCurrent) else NO_CURRENT
  {
    hide ClampAll, ParseHeader, ReadWheels, ReadU16, ProxyModel.Run;
    RunHolds(o, turns + [t]);
  }

  /** Motor i's frame, parsed just after the turn sampled its clock; a heartbeat makes the peer known. */
  function LateTurn(i: MotorId, now: uint64, stamp: uint64): Turn {
    Turn(now, [RxFrame(FEEDBACK_ID_BASE + i, 8, [0, 0, 0, 0, 0, 0, 0, 0], stamp)],
         [Datagram(HeartbeatPacket(1, 0), 0)], 0)
  }

  /**
   * The loop samples `now` before it drains, so a frame read in a turn may carry a later stamp. The
   * proxy then publishes the motor it has just heard as offline, where the controller's saturating
   * test calls it fresh.
   */
  lemma JustHeardIsPublishedOffline(o: Options, i: MotorId, now: uint64, stamp: uint64)
    requires STATE_PERIOD_MS <= now < stamp && stamp - now < 0x1_0000_0000_0000_0000 - ONLINE_LIMIT_MS
    ensures var turns := [LateTurn(i, now, stamp)];
            && LastFrame(FrameLog(turns), i) == Some(turns[0].frames[0])
            && |Run(o, turns).published| == 1
            && Run(o, turns).published[0].state.onlineMask == 0
            && Elapsed(now, stamp) == 0
  {
    hide LateTurn, ProxyModel.Run, OnlineMask, FrameLog, LastFrame, Due, SpeedIn, StampIn;
    var turns := [LateTurn(i, now, stamp)];
    LatePublishes(o, i, now, stamp);
    var k := PublishedAreDescribed(o, turns, 0);
    assert turns[..k] == turns;
    LateStamps(i, now, stamp);
    OfflineMask(Wheels(StampIn(FrameLog(turns), 1), StampIn(FrameLog(turns), 2),
                       StampIn(FrameLog(turns), 3), StampIn(FrameLog(turns), 4)), now);
  }

  /** From the start, one such turn publishes, since its heartbeat names a peer. */
  lemma LatePublishes(o: Options, i: MotorId, now: uint64, stamp: uint64)
    requires STATE_PERIOD_MS <= now
    ensures var turns := [LateTurn(i, now, stamp)];
            |Run(o, turns).published| == 1 && ClockRuns(turns) && turns[0].now == now
  {
    hide HeartbeatPacket, ParseHeader, OnlineMask, Snapshot, DrainAll, WindowOpen, FrameDue, Pack;
    var t := LateTurn(i, now, stamp);
    BridgePacketsParse(1, 0, NO_CURRENT, 100);
    HeartbeatSize(1, 0);
    FedKeeps(START, o, t);
    var drained := DrainAll(START, t.frames);
    assert t.datagrams[..0] == [];
    assert ReceiveAll(drained, o, t.datagrams[..0], now) == drained;
    assert Fed(START, o, t) == Receive(drained, o, t.datagrams[0], now);
    assert Fed(START, o, t).peer == Some(0);
    OneTurn(o, t);
  }

  lemma OneTurn(o: Options, t: Turn)
    ensures |Run(o, [t]).published| == if StateSent(Gate(Fed(START, o, t), o, t.now), t.now, t.stampMs).Some? then 1 else 0
  {
    hide Fed, Gate, StateSent, Publish, FrameSent;
    assert [t][..0] == [];
  }

  lemma LateStamps(i: MotorId, now: uint64, stamp: uint64)
    ensures var t := LateTurn(i, now, stamp);
            && LastFrame(FrameLog([t]), i) == Some(t.frames[0])
            && forall j: MotorId :: StampIn(FrameLog([t]), j) == if j == i then stamp else 0
  {
    var t := LateTurn(i, now, stamp);
    assert [t][..0] == [];
    assert FrameLog([t]) == t.frames && t.frames[..0] == [];
    forall j: MotorId
      ensures LastFrame(t.frames, j) == if j == i then Some(t.frames[0]) else None
    {
      assert LastFrame([], j) == None;
    }
  }

  lemma OfflineMask(stamps: Wheels<uint64>, now: uint64)
    requires forall j: MotorId :: stamps.At(j) == 0 || now < stamps.At(j) < now + 0x1_0000_0000_0000_0000 - ONLINE_LIMIT_MS
    ensures OnlineMask(stamps, now) == 0
  {
    assert stamps.m1 == stamps.At(1) && stamps.m2 == stamps.At(2) && stamps.m3 == stamps.At(3) && stamps.m4 == stamps.At(4);
  }
}
