/**
 * The proxy and the bridge over a network that may lose, duplicate, delay and reorder datagrams:
 * every receive names, by index into everything ever sent to that node, what arrives and in what order.
 * Neither node checks who sent a datagram, so either may also receive datagrams of other senders.
 */
module TwoNodes {
  import opened Numerics
  import opened Motors
  import opened Motor3508
  import opened WireFormat
  import opened WireLayout
  import ProxyModel
  import ProxyHistory
  import BridgeModel

  const BRIDGE_PEER: ProxyModel.Peer := 0

  /** What reaches the proxy's socket: something the bridge once sent, or a datagram of any other sender. */
  datatype Arrival = FromBridge(index: nat) | Foreign(d: ProxyModel.Datagram)

  /** What reaches the bridge's socket: something the proxy once sent, or a stray of any other sender. */
  datatype Delivery = FromProxy(index: nat) | Stray(bytes: Packet)

  datatype Event =
    | ProxyTurn(now: uint64, frames: seq<RxFrame>, arrivals: seq<Arrival>, stampMs: uint32)
    | BridgeCycle(beatMs: uint32, commandMs: uint32, deliveries: seq<Delivery>)

  /** `turns` records what the proxy has been fed; the logs hold everything sent to each node. */
  datatype System = System(
    turns: seq<ProxyModel.Turn>,
    bridge: BridgeModel.Bridge,
    toProxy: seq<Packet>,
    toBridge: seq<Packet>,
    strays: seq<Packet>)

  const START := System([], BridgeModel.START, [], [], [])

  /** An index nothing was ever sent under is a datagram that never arrives. */
  function Deliver(log: seq<Packet>, arrivals: seq<Arrival>): seq<ProxyModel.Datagram> {
    if arrivals == [] then []
    else
      var rest := Deliver(log, arrivals[..|arrivals| - 1]);
      match arrivals[|arrivals| - 1]
      case Foreign(d) => rest + [d]
      case FromBridge(i) => if i < |log| then rest + [ProxyModel.Datagram(log[i], BRIDGE_PEER)] else rest
  }

  function DeliverToBridge(log: seq<Packet>, deliveries: seq<Delivery>): seq<Packet> {
    if deliveries == [] then []
    else
      var rest := DeliverToBridge(log, deliveries[..|deliveries| - 1]);
      match deliveries[|deliveries| - 1]
      case Stray(bytes) => rest + [bytes]
      case FromProxy(i) => if i < |log| then rest + [log[i]] else rest
  }

  function Strays(deliveries: seq<Delivery>): seq<Packet> {
    if deliveries == [] then []
    else
      var rest := Strays(deliveries[..|deliveries| - 1]);
      match deliveries[|deliveries| - 1]
      case Stray(bytes) => rest + [bytes]
      case FromProxy(_) => rest
  }

  /** The packets a run of the proxy addressed to the bridge. */
  function Addressed(published: seq<ProxyModel.Published>): seq<Packet> {
    if published == [] then []
    else
      var rest := Addressed(published[..|published| - 1]);
      var p := published[|published| - 1];
      if p.peer == BRIDGE_PEER then rest + [p.Bytes()] else rest
  }

  function Next(o: ProxyModel.Options, s: System, e: Event): System {
    match e
    case ProxyTurn(now, frames, arrivals, stampMs) =>
      var turns := s.turns + [ProxyModel.Turn(now, frames, Deliver(s.toProxy, arrivals), stampMs)];
      s.(turns := turns, toBridge := Addressed(ProxyModel.Run(o, turns).published))
    case BridgeCycle(beatMs, commandMs, deliveries) =>
      var c := BridgeModel.Cycle(beatMs, commandMs, DeliverToBridge(s.toBridge, deliveries));
      s.(bridge := BridgeModel.RunCycle(s.bridge, c), toProxy := s.toProxy + BridgeModel.Sent(s.bridge, c),
         strays := s.strays + Strays(deliveries))
  }

  function Run(o: ProxyModel.Options, es: seq<Event>): System {
    if es == [] then START else Next(o, Run(o, es[..|es| - 1]), es[|es| - 1])
  }

  /** The proxy's side of a system state. */
  function Traced(o: ProxyModel.Options, s: System): ProxyModel.Trace {
    ProxyModel.Run(o, s.turns)
  }

  /** The proxy published this state in some turn. */
  ghost predicate WasPublished(o: ProxyModel.Options, s: System, state: ChassisState) {
    exists k :: 0 <= k < |Traced(o, s).published| && Traced(o, s).published[k].state == state
  }

  /** Some other sender sent the bridge a datagram that parses, once cut to the buffer, to this state. */
  predicate WasStray(s: System, state: ChassisState) {
    exists b :: b in s.strays && ParseState(BridgeModel.Cut(b)) == Some(state)
  }

  lemma {:induction false} AddressedIsPublished(published: seq<ProxyModel.Published>, i: nat) returns (k: nat)
    requires i < |Addressed(published)|
    ensures k < |published| && Addressed(published)[i] == published[k].Bytes() && published[k].peer == BRIDGE_PEER
  {
    hide StatePacket;
    var init := published[..|published| - 1];
    if i < |Addressed(init)| {
      k := AddressedIsPublished(init, i);
    } else {
      k := |published| - 1;
    }
  }

  lemma {:induction false} AddressedHasAll(published: seq<ProxyModel.Published>, k: nat) returns (i: nat)
    requires k < |published| && published[k].peer == BRIDGE_PEER
    ensures i < |Addressed(published)| && Addressed(published)[i] == published[k].Bytes()
  {
    hide StatePacket;
    var init := published[..|published| - 1];
    if k < |init| {
      i := AddressedHasAll(init, k);
    } else {
      i := |Addressed(init)|;
    }
  }

  /** Each packet in the bridge's log parses to a published state and fits its buffer. */
  ghost predicate LogParses(o: ProxyModel.Options, s: System) {
    forall i :: 0 <= i < |s.toBridge| ==>
      && |s.toBridge[i]| == 48
      && ParseState(s.toBridge[i]).Some?
      && WasPublished(o, s, ParseState(s.toBridge[i]).value)
  }

  lemma LogHolds(o: ProxyModel.Options, es: seq<Event>)
    ensures LogParses(o, Run(o, es))
  {
    hide ParseState, StatePacket, ProxyModel.Run, Run, Addressed;
    var s := Run(o, es);
    var published := Traced(o, s).published;
    LogIsAddressed(o, es);
    forall i | 0 <= i < |s.toBridge|
      ensures |s.toBridge[i]| == 48 && ParseState(s.toBridge[i]).Some?
      ensures WasPublished(o, s, ParseState(s.toBridge[i]).value)
    {
      var k := AddressedIsPublished(published, i);
      StateRoundTrip(published[k].sequence, published[k].ms, 0, published[k].state);
      StateSize(published[k].sequence, published[k].ms, published[k].state);
    }
  }

  lemma {:induction false} LogIsAddressed(o: ProxyModel.Options, es: seq<Event>)
    ensures Run(o, es).toBridge == Addressed(Traced(o, Run(o, es)).published)
  {
    hide ProxyModel.TakeTurn;
    if es != [] {
      LogIsAddressed(o, es[..|es| - 1]);
    }
  }

  lemma {:induction false} DeliveredToBridge(log: seq<Packet>, deliveries: seq<Delivery>)
    ensures forall b :: b in DeliverToBridge(log, deliveries) ==> b in log || b in Strays(deliveries)
  {
    if deliveries != [] {
      DeliveredToBridge(log, deliveries[..|deliveries| - 1]);
    }
  }

  lemma {:induction false} BridgeTakesNoOther(o: ProxyModel.Options, s: System, b: BridgeModel.Bridge, ds: seq<Packet>)
    requires LogParses(o, s) && forall d :: d in ds ==> d in s.toBridge || d in s.strays
    ensures var r := BridgeModel.ReceiveAll(b, ds);
            r.lastState == b.lastState || WasPublished(o, s, r.lastState) || WasStray(s, r.lastState)
    decreases |ds|
  {
    hide ParseState, WasPublished;
    if ds != [] && |ds[0]| != 0 {
      assert ds[0] in s.toBridge || ds[0] in s.strays;
      BridgeTakesNoOther(o, s, BridgeModel.Receive(b, ds[0]), ds[1..]);
    }
  }

  /** What was published stays published. */
  lemma PublishedGrows(o: ProxyModel.Options, s: System, e: Event, state: ChassisState)
    requires WasPublished(o, s, state)
    ensures WasPublished(o, Next(o, s, e), state)
  {
    hide ProxyModel.Fed, ProxyModel.Gate, ProxyModel.Publish, BridgeModel.RunCycle;
    var k :| 0 <= k < |Traced(o, s).published| && Traced(o, s).published[k].state == state;
    var later := Next(o, s, e);
    if e.ProxyTurn? {
      assert later.turns[..|later.turns| - 1] == s.turns;
    }
    assert Traced(o, later).published[k] == Traced(o, s).published[k];
  }

  /**
   * No fabrication: whatever the network and other senders do, the bridge's state is the initial
   * zeros, exactly a state the proxy published, or exactly what a stray datagram says.
   */
  lemma {:induction false} NoFabrication(o: ProxyModel.Options, es: seq<Event>)
    ensures var s := Run(o, es);
            || s.bridge.lastState == ZERO_STATE
            || WasPublished(o, s, s.bridge.lastState)
            || WasStray(s, s.bridge.lastState)
  {
    hide BridgeModel.ReceiveAll, ProxyModel.Run, WasPublished, LogParses, ParseState;
    if es != [] {
      var init, e := es[..|es| - 1], es[|es| - 1];
      var was, now := Run(o, init), Run(o, es);
      NoFabrication(o, init);
      if e.BridgeCycle? {
        CycleTakesNoOther(o, init, e);
      }
      if WasPublished(o, was, now.bridge.lastState) {
        PublishedGrows(o, was, e, now.bridge.lastState);
      }
    }
  }

  lemma CycleTakesNoOther(o: ProxyModel.Options, es: seq<Event>, e: Event)
    requires e.BridgeCycle?
    ensures var was, now := Run(o, es), Next(o, Run(o, es), e);
            || now.bridge.lastState == was.bridge.lastState
            || WasPublished(o, was, now.bridge.lastState)
            || WasStray(now, now.bridge.lastState)
  {
    hide BridgeModel.ReceiveAll, ProxyModel.Run, ParseState, Run;
    var was, now := Run(o, es), Next(o, Run(o, es), e);
    LogHolds(o, es);
    DeliveredToBridge(was.toBridge, e.deliveries);
    assert Traced(o, now) == Traced(o, was);
    BridgeTakesNoOther(o, now, was.bridge.(txSequence := Increment32(Increment32(was.bridge.txSequence))),
                       DeliverToBridge(was.toBridge, e.deliveries));
  }

  /**
   * The same end to end: on a running proxy clock, a bridge state that is not zero and was not forged
   * is the exact description of the raw CAN frames and datagrams that some prefix of the proxy's
   * turns received.
   */
  lemma BridgeSeesThePast(o: ProxyModel.Options, es: seq<Event>)
    requires ProxyModel.ClockRuns(Run(o, es).turns)
    ensures var s := Run(o, es);
            || s.bridge.lastState == ZERO_STATE
            || (exists k :: 0 < k <= |s.turns| && s.bridge.lastState == ProxyHistory.Described(o, s.turns[..k]))
            || WasStray(s, s.bridge.lastState)
  {
    hide ProxyHistory.Described, ProxyModel.Run, WasStray;
    var s := Run(o, es);
    NoFabrication(o, es);
    if s.bridge.lastState != ZERO_STATE && !WasStray(s, s.bridge.lastState) {
      var j :| 0 <= j < |Traced(o, s).published| && Traced(o, s).published[j].state == s.bridge.lastState;
      var k := ProxyHistory.PublishedAreDescribed(o, s.turns, j);
    }
  }

  /** Every state the bridge has read so far, in order. */
  function StatesRead(o: ProxyModel.Options, es: seq<Event>): seq<ChassisState> {
    if es == [] then []
    else
      var init := es[..|es| - 1];
      match es[|es| - 1]
      case ProxyTurn(_, _, _, _) => StatesRead(o, init)
      case BridgeCycle(_, _, deliveries) =>
        StatesRead(o, init) + BridgeModel.States(BridgeModel.Read(DeliverToBridge(Run(o, init).toBridge, deliveries)))
  }

  /** What an event does to the bridge's side. */
  lemma BridgeStep(o: ProxyModel.Options, s: System, e: Event)
    ensures var t := Next(o, s, e);
            match e
            case ProxyTurn(_, _, _, _) => t.bridge == s.bridge && t.toProxy == s.toProxy
            case BridgeCycle(beatMs, commandMs, deliveries) =>
              var c := BridgeModel.Cycle(beatMs, commandMs, DeliverToBridge(s.toBridge, deliveries));
              var news := BridgeModel.States(BridgeModel.Read(c.datagrams));
              && t.bridge == BridgeModel.Bridge((s.bridge.txSequence + 2) % 0x1_0000_0000,
                                                BridgeModel.Newest(news, s.bridge.lastState),
                                                (s.bridge.rxStates + |news|) % 0x1_0000_0000)
              && t.toProxy == s.toProxy + BridgeModel.Sent(s.bridge, c)
  {
    hide BridgeModel.RunCycle, ProxyModel.Run, BridgeModel.States, BridgeModel.Sent, DeliverToBridge;
    if e.BridgeCycle? {
      BridgeModel.CycleKeepsNewest(
        s.bridge, BridgeModel.Cycle(e.beatMs, e.commandMs, DeliverToBridge(s.toBridge, e.deliveries)));
    }
  }

  /** The bridge always holds the newest state it has read, and has counted them all, modulo 2^32. */
  lemma {:induction false} BridgeHoldsNewest(o: ProxyModel.Options, es: seq<Event>)
    ensures var b, read := Run(o, es).bridge, StatesRead(o, es);
            && b.lastState == (if read == []
                               then ChassisState(Wheels(0, 0, 0, 0), Wheels(0, 0, 0, 0), Wheels(0, 0, 0, 0), 0, 0)
                               else read[|read| - 1])
            && b.rxStates == |read| % 0x1_0000_0000
  {
    hide Next, BridgeModel.States, BridgeModel.Read, DeliverToBridge;
    if es != [] {
      var init, e := es[..|es| - 1], es[|es| - 1];
      BridgeHoldsNewest(o, init);
      BridgeStep(o, Run(o, init), e);
      Wraps32(|StatesRead(o, init)|, |StatesRead(o, es)| - |StatesRead(o, init)|);
    }
  }

  /** No datagram of a cycle is empty. */
  predicate NoneEmpty(deliveries: seq<Delivery>) {
    forall d :: d in deliveries && d.Stray? ==> |d.bytes| != 0
  }

  /**
   * Delivery: when the last datagram of a cycle is the i-th packet the proxy sent and none is empty,
   * the bridge ends the cycle with exactly the state that packet published, whatever came before.
   */
  lemma LastDeliveryWins(o: ProxyModel.Options, es: seq<Event>, e: Event, i: nat) returns (k: nat)
    requires e.BridgeCycle? && e.deliveries != [] && e.deliveries[|e.deliveries| - 1] == FromProxy(i)
    requires NoneEmpty(e.deliveries) && i < |Run(o, es).toBridge|
    ensures var published := Traced(o, Run(o, es)).published;
            && k < |published| && published[k].peer == BRIDGE_PEER
            && Run(o, es).toBridge[i] == published[k].Bytes()
            && Next(o, Run(o, es), e).bridge.lastState == published[k].state
  {
    hide BridgeModel.RunCycle, ProxyModel.Run, Run, ParseState, StatePacket, Addressed;
    var was := Run(o, es);
    LogHolds(o, es);
    LogIsAddressed(o, es);
    var published := Traced(o, was).published;
    k := AddressedIsPublished(published, i);
    StateRoundTrip(published[k].sequence, published[k].ms, 0, published[k].state);
    var ds := DeliverToBridge(was.toBridge, e.deliveries);
    DeliveredNotEmpty(o, was, e.deliveries);
    AllRead(ds);
    BridgeModel.CycleKeepsNewest(was.bridge, BridgeModel.Cycle(e.beatMs, e.commandMs, ds));
  }

  /**
   * Every state the proxy has published to the bridge can still be delivered: some packet brings the
   * bridge, in whatever state it is, to exactly that state.
   */
  lemma PublishedCanArrive(o: ProxyModel.Options, es: seq<Event>, k: nat) returns (e: Event)
    requires var published := Traced(o, Run(o, es)).published;
             k < |published| && published[k].peer == BRIDGE_PEER
    ensures e.BridgeCycle? && |e.deliveries| == 1 && e.deliveries[0].FromProxy?
    ensures Next(o, Run(o, es), e).bridge.lastState == Traced(o, Run(o, es)).published[k].state
  {
    hide ProxyModel.Run, Run, StatePacket, Next, ParseState, Addressed;
    var published := Traced(o, Run(o, es)).published;
    LogIsAddressed(o, es);
    var i := AddressedHasAll(published, k);
    e := BridgeCycle(0, 0, [FromProxy(i)]);
    var m := LastDeliveryWins(o, es, e, i);
    StateRoundTrip(published[k].sequence, published[k].ms, 0, published[k].state);
    StateRoundTrip(published[m].sequence, published[m].ms, 0, published[m].state);
  }

  lemma {:induction false} DeliveredNotEmpty(o: ProxyModel.Options, s: System, deliveries: seq<Delivery>)
    requires LogParses(o, s) && NoneEmpty(deliveries)
    ensures forall d :: d in DeliverToBridge(s.toBridge, deliveries) ==> |d| != 0
  {
    hide ParseState, WasPublished;
    if deliveries != [] {
      DeliveredNotEmpty(o, s, deliveries[..|deliveries| - 1]);
      assert deliveries[|deliveries| - 1] in deliveries;
    }
  }

  lemma {:induction false} AllRead(ds: seq<Packet>)
    requires forall d :: d in ds ==> |d| != 0
    ensures BridgeModel.Read(ds) == ds
  {
    if ds != [] {
      assert ds[0] in ds;
      AllRead(ds[1..]);
    }
  }

  ghost predicate IsBeat(b: Packet, sequence: uint32) {
    exists ms: uint32 :: HeaderAt(b, Header(3, sequence, ms, 0, 0))
  }

  /** Four zero currents for 100 ms. */
  ghost predicate IsZeroCommand(b: Packet, sequence: uint32) {
    && WheelsAt(b, 20, Wheels(0, 0, 0, 0)) && WordAt(b, 28, 100)
    && exists ms: uint32 :: HeaderAt(b, Header(5, sequence, ms, 10, 0))
  }

  /** The i-th packet the bridge ever sends: heartbeats and zero commands in turn, numbered from one. */
  ghost predicate InTurn(b: Packet, i: nat) {
    var sequence := (i + 1) % 0x1_0000_0000;
    if i % 2 == 0 then IsBeat(b, sequence) else IsZeroCommand(b, sequence)
  }

  ghost predicate AllInTurn(log: seq<Packet>) {
    |log| % 2 == 0 && forall i :: 0 <= i < |log| ==> InTurn(log[i], i)
  }

  lemma {:induction false} BridgeSendsInTurn(o: ProxyModel.Options, es: seq<Event>)
    ensures AllInTurn(Run(o, es).toProxy)
    ensures Run(o, es).bridge.txSequence == |Run(o, es).toProxy| % 0x1_0000_0000
  {
    hide AllInTurn, Next, BridgeModel.Sent;
    if es == [] {
      NothingInTurn();
    } else {
      var init, e := es[..|es| - 1], es[|es| - 1];
      var was := Run(o, init);
      BridgeSendsInTurn(o, init);
      BridgeStep(o, was, e);
      if e.BridgeCycle? {
        var c := BridgeModel.Cycle(e.beatMs, e.commandMs, DeliverToBridge(was.toBridge, e.deliveries));
        CycleInTurn(was.bridge, c, was.toProxy);
        SentTwo(was.bridge, c);
        Wraps32(|was.toProxy|, 2);
      }
    }
  }

  lemma SentTwo(b: BridgeModel.Bridge, c: BridgeModel.Cycle)
    ensures |BridgeModel.Sent(b, c)| == 2
  {
  }

  lemma NothingInTurn()
    ensures AllInTurn([])
  {
  }

  lemma CycleInTurn(b: BridgeModel.Bridge, c: BridgeModel.Cycle, log: seq<Packet>)
    requires AllInTurn(log) && b.txSequence == |log| % 0x1_0000_0000
    ensures AllInTurn(log + BridgeModel.Sent(b, c))
  {
    hide InTurn, BridgeModel.Sent;
    SentInTurn(b, c, |log|);
  }

  lemma SentInTurn(b: BridgeModel.Bridge, c: BridgeModel.Cycle, n: nat)
    requires n % 2 == 0 && b.txSequence == n % 0x1_0000_0000
    ensures var sent := BridgeModel.Sent(b, c); |sent| == 2 && InTurn(sent[0], n) && InTurn(sent[1], n + 1)
  {
    hide IsBeat, IsZeroCommand, HeartbeatPacket, CurrentPacket;
    Wraps32(n, 1);
    Wraps32(n + 1, 1);
    SentKinds(b, c);
  }

  lemma SentKinds(b: BridgeModel.Bridge, c: BridgeModel.Cycle)
    ensures var sent := BridgeModel.Sent(b, c);
            IsBeat(sent[0], Increment32(b.txSequence)) && IsZeroCommand(sent[1], Increment32(Increment32(b.txSequence)))
  {
    hide HeaderAt, WheelsAt, WordAt, HeartbeatPacket, CurrentPacket, Increment32;
    HeartbeatLayout(Increment32(b.txSequence), c.beatMs);
    CurrentLayout(Increment32(Increment32(b.txSequence)), c.commandMs, NO_CURRENT, 100);
  }

  predicate Bounded(w: Wheels<int16>, limit: int) {
    && -limit <= w.m1 <= limit && -limit <= w.m2 <= limit && -limit <= w.m3 <= limit && -limit <= w.m4 <= limit
  }

  /** What every published state promises under a bound on its currents. */
  predicate Plausible(s: ChassisState, limit: int) {
    Bounded(s.current, limit) && s.target == NO_CURRENT && s.onlineMask <= 0xF && s.faultMask == 0
  }

  lemma ClampAllBounded(w: Wheels<int16>, limit: ProxyModel.Int32)
    ensures Bounded(ProxyModel.ClampAll(w, limit), Magnitude(limit))
  {
    hide ProxyModel.ClampCurrent, Magnitude;
    forall v: int16
      ensures -Magnitude(limit) <= ProxyModel.ClampCurrent(v, limit) <= Magnitude(limit)
    {
      ProxyHistory.ClampWithin(v, limit);
    }
  }

  lemma {:induction false} ProxyStaysPlausible(o: ProxyModel.Options, turns: seq<ProxyModel.Turn>)
    ensures var tr := ProxyModel.Run(o, turns);
            && Bounded(tr.proxy.current, Magnitude(o.maxCurrent)) && tr.proxy.target == NO_CURRENT
            && forall k :: 0 <= k < |tr.published| ==> Plausible(tr.published[k].state, Magnitude(o.maxCurrent))
  {
    hide ProxyModel.ClampAll, ProxyModel.Fed;
    if turns != [] {
      var init, t := turns[..|turns| - 1], turns[|turns| - 1];
      ProxyStaysPlausible(o, init);
      FedIsBounded(o, ProxyModel.Run(o, init).proxy, t);
    }
  }

  lemma FedIsBounded(o: ProxyModel.Options, p: ProxyModel.Proxy, t: ProxyModel.Turn)
    requires Bounded(p.current, Magnitude(o.maxCurrent))
    ensures Bounded(ProxyModel.Fed(p, o, t).current, Magnitude(o.maxCurrent))
    ensures ProxyModel.Fed(p, o, t).target == p.target
  {
    hide ProxyModel.ClampAll;
    ProxyHistory.DrainTells(p, t.frames);
    ProxyHistory.ReceiveTells(ProxyModel.DrainAll(p, t.frames), o, t.datagrams, t.now);
    match ProxyHistory.LastIn(t.datagrams, t.now)
    case Current(values, _, _) => ClampAllBounded(values, o.maxCurrent);
    case _ =>
  }

  /** The bridge inherits it, whatever anyone sends to the proxy, unless a stray says otherwise. */
  lemma BridgeStaysPlausible(o: ProxyModel.Options, es: seq<Event>)
    ensures var s := Run(o, es);
            Plausible(s.bridge.lastState, Magnitude(o.maxCurrent)) || WasStray(s, s.bridge.lastState)
  {
    NoFabrication(o, es);
    ProxyStaysPlausible(o, Run(o, es).turns);
  }
}

/** Stage 1: the shipped bridge, which only ever commands zero current, is the only sender. */
module StageOne {
  import opened Numerics
  import opened Motors
  import opened Motor3508
  import opened WireFormat
  import opened TwoNodes
  import ProxyModel
  import ProxyHistory
  import BridgeModel

  predicate OnlyBridge(es: seq<Event>) {
    forall k, j :: 0 <= k < |es| && es[k].ProxyTurn? && 0 <= j < |es[k].arrivals| ==> es[k].arrivals[j].FromBridge?
  }

  /** A heartbeat, or a command for four zeros. */
  ghost predicate Harmless(b: Packet) {
    || (exists sequence: uint32, ms: uint32 :: b == HeartbeatPacket(sequence, ms))
    || (exists sequence: uint32, ms: uint32 ::
          b == CurrentPacket(sequence, ms, NO_CURRENT, BridgeModel.ZERO_COMMAND_TIMEOUT_MS))
  }

  lemma {:induction false} BridgeSendsHarmless(o: ProxyModel.Options, es: seq<Event>)
    ensures forall i :: 0 <= i < |Run(o, es).toProxy| ==> Harmless(Run(o, es).toProxy[i])
  {
    hide HeartbeatPacket, CurrentPacket, ProxyModel.Run, BridgeModel.RunCycle;
    if es != [] {
      BridgeSendsHarmless(o, es[..|es| - 1]);
    }
  }

  lemma {:induction false} DeliveredIsHarmless(log: seq<Packet>, arrivals: seq<Arrival>)
    requires forall i :: 0 <= i < |log| ==> Harmless(log[i])
    requires forall j :: 0 <= j < |arrivals| ==> arrivals[j].FromBridge?
    ensures forall d :: d in Deliver(log, arrivals) ==> Harmless(d.bytes)
  {
    hide Harmless;
    if arrivals != [] {
      DeliveredIsHarmless(log, arrivals[..|arrivals| - 1]);
      assert arrivals[|arrivals| - 1].FromBridge?;
    }
  }

  /** The proxy reads a harmless packet as no order at all, or as an order for zero. */
  lemma HarmlessOrders(d: ProxyModel.Datagram, now: uint64)
    requires Harmless(d.bytes)
    ensures var order := ProxyHistory.OrderOf(d, now);
            order.Quiet? || (order.Current? && order.values == NO_CURRENT)
  {
    hide HeartbeatPacket, CurrentPacket, ParseHeader, ReadWheels, ReadU16;
    if sequence: uint32, ms: uint32 :| d.bytes == HeartbeatPacket(sequence, ms) {
      BridgePacketsParse(sequence, ms, NO_CURRENT, BridgeModel.ZERO_COMMAND_TIMEOUT_MS);
      HeartbeatSize(sequence, ms);
    } else {
      var sequence: uint32, ms: uint32 :|
        d.bytes == CurrentPacket(sequence, ms, NO_CURRENT, BridgeModel.ZERO_COMMAND_TIMEOUT_MS);
      BridgePacketsParse(sequence, ms, NO_CURRENT, BridgeModel.ZERO_COMMAND_TIMEOUT_MS);
    }
  }

  lemma {:induction false} HarmlessBatch(ds: seq<ProxyModel.Datagram>, now: uint64)
    requires forall d :: d in ds ==> Harmless(d.bytes)
    ensures var order := ProxyHistory.LastIn(ds, now);
            order.Quiet? || (order.Current? && order.values == NO_CURRENT)
  {
    hide Harmless, ProxyHistory.OrderOf;
    if ds != [] {
      HarmlessBatch(ds[..|ds| - 1], now);
      HarmlessOrders(ds[|ds| - 1], now);
    }
  }

  predicate AllZero(frames: seq<(uint64, CanData)>) {
    forall k :: 0 <= k < |frames| ==> Unpack(frames[k].1) == NO_CURRENT
  }

  ghost predicate HarmlessTurns(turns: seq<ProxyModel.Turn>) {
    forall t, d :: t in turns && d in t.datagrams ==> Harmless(d.bytes)
  }

  lemma {:induction false} RunIsHarmless(o: ProxyModel.Options, es: seq<Event>)
    requires OnlyBridge(es)
    ensures HarmlessTurns(Run(o, es).turns)
  {
    hide Harmless, ProxyModel.Run;
    if es != [] {
      var init, e := es[..|es| - 1], es[|es| - 1];
      RunIsHarmless(o, init);
      if e.ProxyTurn? {
        BridgeSendsHarmless(o, init);
        assert es[|es| - 1].ProxyTurn?;
        DeliveredIsHarmless(Run(o, init).toProxy, e.arrivals);
      }
    }
  }

  lemma {:induction false} HarmlessRunIsZero(o: ProxyModel.Options, turns: seq<ProxyModel.Turn>)
    requires HarmlessTurns(turns) && (o.allowCurrent ==> ProxyHistory.ZeroSurvives(o.maxCurrent))
    ensures ProxyModel.Run(o, turns).proxy.current == NO_CURRENT
    ensures AllZero(ProxyModel.Run(o, turns).frames)
  {
    hide Harmless, Pack, Unpack, ProxyModel.ClampCurrent, ProxyHistory.ZeroSurvives;
    if turns != [] {
      var init, t := turns[..|turns| - 1], turns[|turns| - 1];
      var p := ProxyModel.Run(o, init).proxy;
      HarmlessRunIsZero(o, init);
      HarmlessBatch(t.datagrams, t.now);
      ProxyHistory.DrainTells(p, t.frames);
      ProxyHistory.ReceiveTells(ProxyModel.DrainAll(p, t.frames), o, t.datagrams, t.now);
      if o.allowCurrent {
        ProxyHistory.ZeroSurvivesIff(o.maxCurrent);
      }
      PackBijection(NO_CURRENT, Pack(NO_CURRENT));
    }
  }

  /** One bridge cycle, then one proxy turn that receives its current command. */
  function Witness(): seq<Event> {
    [BridgeCycle(0, 0, []), ProxyTurn(10, [], [FromBridge(1)], 0)]
  }

  /** The one proxy turn of that run, receiving the bridge's second packet. */
  function WitnessTurn(): ProxyModel.Turn {
    var packet := CurrentPacket(2, 0, NO_CURRENT, BridgeModel.ZERO_COMMAND_TIMEOUT_MS);
    ProxyModel.Turn(10, [], [ProxyModel.Datagram(packet, BRIDGE_PEER)], 0)
  }

  lemma WitnessRun(o: ProxyModel.Options)
    ensures OnlyBridge(Witness()) && Run(o, Witness()).turns == [WitnessTurn()]
  {
    hide HeartbeatPacket, CurrentPacket, ProxyModel.Run;
    var es := Witness();
    assert es[..1] == [es[0]] && es[..1][..0] == [];
    assert Run(o, es[..1]) == Next(o, START, es[0]);
    var log := Run(o, es[..1]).toProxy;
    assert |log| == 2 && log[1] == CurrentPacket(2, 0, NO_CURRENT, BridgeModel.ZERO_COMMAND_TIMEOUT_MS);
    assert Deliver(log, [FromBridge(1)]) == WitnessTurn().datagrams;
  }

  lemma WitnessFrame(o: ProxyModel.Options)
    requires o.allowCurrent
    ensures var c := ProxyModel.ClampCurrent(0, o.maxCurrent);
            ProxyModel.Run(o, [WitnessTurn()]).frames == [(10, Pack(Wheels(c, c, c, c)))]
  {
    hide HeartbeatPacket, CurrentPacket, Pack, ProxyModel.ClampCurrent, ReadU16, ReadWheels, ParseHeader;
    var t := WitnessTurn();
    BridgePacketsParse(2, 0, NO_CURRENT, BridgeModel.ZERO_COMMAND_TIMEOUT_MS);
    ProxyHistory.FedKeeps(ProxyModel.START, o, t);
    var fed := ProxyModel.Fed(ProxyModel.START, o, t);
    var c := ProxyModel.ClampCurrent(0, o.maxCurrent);
    assert fed.current == Wheels(c, c, c, c) && fed.lastCommandMs == 10 && fed.timeoutMs == 100;
    assert ProxyModel.Run(o, [t]).frames == [(10, Pack(fed.current))];
  }

  lemma WitnessDrives(o: ProxyModel.Options)
    requires o.allowCurrent && !ProxyHistory.ZeroSurvives(o.maxCurrent)
    ensures OnlyBridge(Witness()) && !AllZero(ProxyModel.Run(o, Run(o, Witness()).turns).frames)
  {
    hide Pack, Unpack, Run, ProxyModel.Run, OnlyBridge, ProxyModel.ClampCurrent;
    var c := ProxyModel.ClampCurrent(0, o.maxCurrent);
    WitnessRun(o);
    WitnessFrame(o);
    ProxyHistory.ZeroSurvivesIff(o.maxCurrent);
    PackBijection(Wheels(c, c, c, c), Pack(NO_CURRENT));
    assert Unpack(ProxyModel.Run(o, [WitnessTurn()]).frames[0].1) != NO_CURRENT;
  }

  /**
   * Stage 1 end to end: with the bridge as the only sender and any delivery, every frame the proxy
   * emits decodes to four zeros, even with currents allowed, exactly when the configured limit lets
   * a zero through clamp_current. A negative limit does not: it turns the zero command into a drive.
   */
  lemma StageOneIsZeroIff(o: ProxyModel.Options)
    ensures (forall es: seq<Event> | OnlyBridge(es) :: AllZero(ProxyModel.Run(o, Run(o, es).turns).frames))
            <==> (!o.allowCurrent || ProxyHistory.ZeroSurvives(o.maxCurrent))
  {
    hide OnlyBridge, AllZero, Run, ProxyModel.Run, ProxyHistory.ZeroSurvives;
    if !o.allowCurrent || ProxyHistory.ZeroSurvives(o.maxCurrent) {
      forall es: seq<Event> | OnlyBridge(es)
        ensures AllZero(ProxyModel.Run(o, Run(o, es).turns).frames)
      {
        RunIsHarmless(o, es);
        HarmlessRunIsZero(o, Run(o, es).turns);
      }
    } else {
      WitnessDrives(o);
    }
  }
}
