/**
 * What tools/can_proxy.c does with a datagram's bytes, from the socket to the CAN bus and back to the
 * network: orders, payloads, the publishing schedule, the peer and the counters.
 */
module ProxyLaws {
  import opened Numerics
  import opened Motors
  import opened Motor3508
  import opened WireFormat
  import opened WireLayout
  import opened ProxyModel
  import opened ProxyHistory
  import ProxyRates

  /** What recvfrom leaves of a datagram in the 128-byte buffer. */
  function Received(d: Datagram): Packet {
    if |d.bytes| > 128 then d.bytes[..128] else d.bytes
  }

  predicate Valid(d: Datagram) {
    ValidHeader(Received(d))
  }

  /** A valid datagram of the given type. */
  predicate OfKind(d: Datagram, kind: uint16) {
    Valid(d) && WordAt(Received(d), 6, kind)
  }

  /** Type 5 with ten payload bytes. */
  predicate IsCommand(d: Datagram) {
    OfKind(d, 5) && |Received(d)| == 30
  }

  /** Which datagrams are orders, byte by byte, and what a current command orders. */
  lemma OrderLaw(d: Datagram, now: uint64)
    ensures OrderOf(d, now).Estop? <==> OfKind(d, 4)
    ensures OrderOf(d, now).Current? <==> IsCommand(d)
    ensures OrderOf(d, now).Current? ==>
              var order := OrderOf(d, now);
              && WheelsAt(Received(d), 20, order.values) && WordAt(Received(d), 28, order.timeoutMs)
              && order.at == now
  {
    var b := Received(d);
    HeaderLaw(b);
    KindLaw(b);
    if ParseHeader(b).Some? && |b| == 30 {
      WheelsLaw(b, 20);
      WordsLaw(b);
    }
    hide ParseHeader, ReadWheels, ReadU16, WheelsAt, ValidHeader;
  }

  /** A type has one value. */
  lemma KindLaw(b: Packet)
    requires ParseHeader(b).Some? ==> HeaderAt(b, ParseHeader(b).value)
    ensures ParseHeader(b).Some? ==>
              && (forall kind: uint16 :: WordAt(b, 6, kind) <==> ParseHeader(b).value.kind == kind)
              && |b| == 20 + ParseHeader(b).value.payloadLength
  {
    hide ParseHeader, ValidHeader, LongAt;
  }

  /** v brought within [-limit, limit]; a negative limit leaves 16 bits of the bound v passes. */
  predicate LimitedTo(v: int16, limit: Int32, r: int16) {
    if limit < 0 then (r - (if v > limit then limit else -limit)) % 0x1_0000 == 0
    else r == if v > limit then limit else if v < -limit then -limit else v
  }

  /** The command due, motor by motor. */
  lemma DueLaw(o: Options, order: Order, now: uint64, i: MotorId)
    ensures if InForce(o, order, now) then LimitedTo(order.values.At(i), o.maxCurrent, Due(o, order, now).At(i))
            else Due(o, order, now).At(i) == 0
  {
    if order.Current? {
      ClampLaw(order.values.m1, o.maxCurrent);
      ClampLaw(order.values.m2, o.maxCurrent);
      ClampLaw(order.values.m3, o.maxCurrent);
      ClampLaw(order.values.m4, o.maxCurrent);
    }
    hide ClampCurrent;
  }

  /**
   * From payload to bus: the j-th frame, sent in turn k, carries for every motor the limited payload of
   * the last order before it while that commands, and zero otherwise.
   */
  lemma FramesCarryPayload(o: Options, turns: seq<Turn>, j: nat) returns (k: nat)
    requires ClockRuns(turns) && j < |Run(o, turns).frames|
    ensures 0 < k <= |turns| && turns[k - 1].now == Run(o, turns).frames[j].0
    ensures |Run(o, turns[..k - 1]).frames| == j && |Run(o, turns[..k]).frames| == j + 1
    ensures var order, sent := LastOrder(turns[..k]), Unpack(Run(o, turns).frames[j].1);
            forall i: MotorId ::
              if InForce(o, order, turns[k - 1].now) then LimitedTo(order.values.At(i), o.maxCurrent, sent.At(i))
              else sent.At(i) == 0
  {
    hide Due, ProxyModel.Run, Unpack, LastOrder, LimitedTo;
    k := FramesAreDue(o, turns, j);
    forall i: MotorId
      ensures var order, sent := LastOrder(turns[..k]), Unpack(Run(o, turns).frames[j].1);
              if InForce(o, order, turns[k - 1].now) then LimitedTo(order.values.At(i), o.maxCurrent, sent.At(i))
              else sent.At(i) == 0
    {
      DueLaw(o, LastOrder(turns[..k]), turns[k - 1].now, i);
    }
  }

  function LastSenderIn(ds: seq<Datagram>): Option<Peer> {
    if ds == [] then None
    else if Valid(ds[|ds| - 1]) then Some(ds[|ds| - 1].peer)
    else LastSenderIn(ds[..|ds| - 1])
  }

  /** Who sent the last datagram with a valid header. */
  function LastSender(turns: seq<Turn>): Option<Peer> {
    if turns == [] then None
    else
      var last := LastSenderIn(turns[|turns| - 1].datagrams);
      if last.Some? then last else LastSender(turns[..|turns| - 1])
  }

  /** When a datagram with a valid header was last received; zero if never. */
  function LastHeardAt(turns: seq<Turn>): uint64 {
    if turns == [] then 0
    else if LastSenderIn(turns[|turns| - 1].datagrams).Some? then turns[|turns| - 1].now
    else LastHeardAt(turns[..|turns| - 1])
  }

  lemma {:induction false} BatchPeer(p: Proxy, o: Options, ds: seq<Datagram>, now: uint64)
    ensures var q, last := ReceiveAll(p, o, ds, now), LastSenderIn(ds);
            && q.peer == (if last.Some? then last else p.peer)
            && q.lastRtMs == (if last.Some? then now else p.lastRtMs)
  {
    hide ParseHeader, ReadWheels, ReadU16, ClampAll, ValidHeader, HeaderAt;
    if ds != [] {
      BatchPeer(p, o, ds[..|ds| - 1], now);
      HeaderLaw(Received(ds[|ds| - 1]));
    }
  }

  /** The peer to publish to is the last sender, on any clock. */
  lemma {:induction false} PeerRefines(o: Options, turns: seq<Turn>)
    ensures Run(o, turns).proxy.peer == LastSender(turns) && Run(o, turns).proxy.lastRtMs == LastHeardAt(turns)
    ensures turns != [] ==> Gated(o, turns).peer == LastSender(turns)
  {
    hide DrainAll, ReceiveAll, WindowOpen, FrameDue, FrameSent, StateSent, LastSenderIn;
    if turns != [] {
      var init, t := turns[..|turns| - 1], turns[|turns| - 1];
      var was := Run(o, init).proxy;
      PeerRefines(o, init);
      DrainTells(was, t.frames);
      BatchPeer(DrainAll(was, t.frames), o, t.datagrams, t.now);
    }
  }

  /** When the last publish attempt was made; zero before the first. */
  function LastAttempt(tr: Trace): uint64 {
    if tr.attempts == [] then 0 else tr.attempts[|tr.attempts| - 1]
  }

  /**
   * The publishing schedule: a turn attempts to publish exactly when twenty milliseconds have passed
   * since the last attempt, and publishes exactly when, moreover, some datagram so far had a valid
   * header. It then tells the sender of the last such datagram what the turn's inputs describe.
   */
  lemma PublishesIff(o: Options, turns: seq<Turn>)
    requires ClockRuns(turns) && turns != []
    ensures var before, after, now := Run(o, turns[..|turns| - 1]), Run(o, turns), turns[|turns| - 1].now;
            var due := now - LastAttempt(before) >= 20;
            && after.attempts == (if due then before.attempts + [now] else before.attempts)
            && if due && LastSender(turns).Some? then
                 exists p :: after.published == before.published + [p] && p.peer == LastSender(turns).value
                             && p.state == Described(o, turns) && p.ms == turns[|turns| - 1].stampMs
               else after.published == before.published
  {
    hide Fed, Gate, FrameSent, Described, Snapshot, LastSender;
    var init, t := turns[..|turns| - 1], turns[|turns| - 1];
    PeerRefines(o, turns);
    LastPublished(o, turns);
    AttemptDue(o, turns);
  }

  lemma AttemptDue(o: Options, turns: seq<Turn>)
    requires ClockRuns(turns) && turns != []
    ensures StateDue(Gated(o, turns), turns[|turns| - 1].now) <==>
            turns[|turns| - 1].now - LastAttempt(Run(o, turns[..|turns| - 1])) >= 20
  {
    hide Fed, Run;
    var init, t := turns[..|turns| - 1], turns[|turns| - 1];
    var tr := Run(o, init);
    ProxyRates.AttemptsAreSpaced(o, init);
    FirstAttempt(o, init);
    RunHolds(o, init);
    FedKeeps(tr.proxy, o, t);
  }

  lemma {:induction false} FirstAttempt(o: Options, turns: seq<Turn>)
    ensures Run(o, turns).attempts == [] ==> Run(o, turns).proxy.lastStateMs == 0
  {
    hide Fed, FrameSent, StateSent, WindowOpen, FrameDue;
    if turns != [] {
      var init, t := turns[..|turns| - 1], turns[|turns| - 1];
      FirstAttempt(o, init);
      FedKeeps(Run(o, init).proxy, o, t);
    }
  }

  /** The bytes of a published state. */
  lemma PublishedLayout(p: Published)
    ensures var b, s := p.Bytes(), p.state;
            && HeaderAt(b, Header(2, p.sequence, p.ms, 28, 0))
            && WheelsAt(b, 20, s.target) && WheelsAt(b, 28, s.feedbackRpm) && WheelsAt(b, 36, s.current)
            && WordAt(b, 44, s.onlineMask) && WordAt(b, 46, s.faultMask)
  {
    StateLayout(p.sequence, p.ms, p.state);
    hide StatePacket, HeaderAt, WheelsAt, WordAt;
  }

  datatype Sort = Beats | CommandsIn | Refused

  predicate Counted(d: Datagram, sort: Sort) {
    match sort
    case Beats => OfKind(d, 3)
    case CommandsIn => IsCommand(d)
    case Refused => !Valid(d) || (OfKind(d, 5) && |Received(d)| != 30)
  }

  function CountIn(ds: seq<Datagram>, sort: Sort): nat {
    if ds == [] then 0 else CountIn(ds[..|ds| - 1], sort) + if Counted(ds[|ds| - 1], sort) then 1 else 0
  }

  /** How many datagrams of a sort were received. */
  function Count(turns: seq<Turn>, sort: Sort): nat {
    if turns == [] then 0 else Count(turns[..|turns| - 1], sort) + CountIn(turns[|turns| - 1].datagrams, sort)
  }

  function CounterOf(p: Proxy, sort: Sort): uint64 {
    match sort
    case Beats => p.rxHeartbeat
    case CommandsIn => p.rxCurrent
    case Refused => p.invalid
  }

  lemma ReceiveCounts(p: Proxy, o: Options, d: Datagram, now: uint64, sort: Sort)
    ensures CounterOf(Receive(p, o, d, now), sort) ==
            if Counted(d, sort) then Increment64(CounterOf(p, sort)) else CounterOf(p, sort)
  {
    var b := Received(d);
    HeaderLaw(b);
    KindLaw(b);
    hide ParseHeader, ReadWheels, ReadU16, ClampAll, ValidHeader, HeaderAt, WordAt, Increment64;
  }

  lemma Wraps(n: nat)
    ensures Increment64(n % 0x1_0000_0000_0000_0000) == (n + 1) % 0x1_0000_0000_0000_0000
  {
  }

  lemma {:induction false} BatchCounts(p: Proxy, o: Options, ds: seq<Datagram>, now: uint64, sort: Sort, n: nat)
    requires CounterOf(p, sort) == n % 0x1_0000_0000_0000_0000
    ensures CounterOf(ReceiveAll(p, o, ds, now), sort) == (n + CountIn(ds, sort)) % 0x1_0000_0000_0000_0000
  {
    hide Receive, Counted, CounterOf, Increment64;
    if ds != [] {
      var init := ds[..|ds| - 1];
      BatchCounts(p, o, init, now, sort, n);
      ReceiveCounts(ReceiveAll(p, o, init, now), o, ds[|ds| - 1], now, sort);
      Wraps(n + CountIn(init, sort));
    }
  }

  /** The three counters, modulo 2^64, count what their names say, in every run and on any clock. */
  lemma {:induction false} RunCounts(o: Options, turns: seq<Turn>, sort: Sort)
    ensures CounterOf(Run(o, turns).proxy, sort) == Count(turns, sort) % 0x1_0000_0000_0000_0000
  {
    hide DrainAll, ReceiveAll, WindowOpen, FrameDue, FrameSent, StateSent, StateDue, CountIn;
    if turns != [] {
      var init, t := turns[..|turns| - 1], turns[|turns| - 1];
      var was := Run(o, init).proxy;
      RunCounts(o, init, sort);
      DrainTells(was, t.frames);
      BatchCounts(DrainAll(was, t.frames), o, t.datagrams, t.now, sort, Count(init, sort));
    }
  }
}
