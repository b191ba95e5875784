/** The CAN proxy of tools/can_proxy.c as a function of its inputs. */
module ProxyModel {
  import opened Numerics
  import opened Motors
  import opened Motor3508
  import opened WireFormat

  const UDP_BUFFER_SIZE: nat := 128
  const DEFAULT_COMMAND_TIMEOUT_MS: uint16 := 100
  const FRAME_PERIOD_MS: uint64 := 10
  const STATE_PERIOD_MS: uint64 := 20
  const ONLINE_LIMIT_MS: uint64 := 200

  /** The command line: atoi yields any int; INT_MIN, whose negation overflows, is left out. */
  datatype Options = Options(allowCurrent: bool, maxCurrent: Int32)

  type Int32 = x: int | -0x8000_0000 < x < 0x8000_0000

  type Peer = nat

  /** A datagram as sent: recvfrom cuts it to the buffer. */
  datatype Datagram = Datagram(bytes: Packet, peer: Peer)

  datatype Proxy = Proxy(
    feedback: Wheels<Feedback>,
    current: Wheels<int16>,
    target: Wheels<int16>,
    lastFeedbackMs: Wheels<uint64>,
    lastRtMs: uint64,
    lastCommandMs: uint64,
    rxHeartbeat: uint64,
    rxCurrent: uint64,
    invalid: uint64,
    txSequence: uint32,
    timeoutMs: uint16,
    peer: Option<Peer>,
    lastStateMs: uint64,
    lastFrameMs: uint64)

  const NO_FEEDBACK := Feedback(0, 0, 0, 0, 0, 0, false)

  const START := Proxy(
    Wheels(NO_FEEDBACK, NO_FEEDBACK, NO_FEEDBACK, NO_FEEDBACK), NO_CURRENT, NO_CURRENT,
    Wheels(0, 0, 0, 0), 0, 0, 0, 0, 0, 0, DEFAULT_COMMAND_TIMEOUT_MS, None, 0, 0)

  /** clamp_current, including the casts of limits that do not fit int16. */
  function ClampCurrent(value: int, limit: Int32): int16 {
    if value > limit then ToInt16(limit)
    else if value < -limit then ToInt16(-limit)
    else ToInt16(value)
  }

  function ClampAll(w: Wheels<int16>, limit: Int32): Wheels<int16> {
    Wheels(ClampCurrent(w.m1, limit), ClampCurrent(w.m2, limit), ClampCurrent(w.m3, limit), ClampCurrent(w.m4, limit))
  }

  function DrainOne(p: Proxy, f: RxFrame): Proxy {
    if f.IsFeedback() then
      p.(feedback := p.feedback.Put(f.Motor(), f.Decode()),
         lastFeedbackMs := p.lastFeedbackMs.Put(f.Motor(), f.stampMs))
    else p
  }

  function DrainAll(p: Proxy, frames: seq<RxFrame>): Proxy {
    if frames == [] then p else DrainOne(DrainAll(p, frames[..|frames| - 1]), frames[|frames| - 1])
  }

  function Truncated(bytes: Packet): Packet {
    if |bytes| > UDP_BUFFER_SIZE then bytes[..UDP_BUFFER_SIZE] else bytes
  }

  function EffectiveTimeout(timeoutMs: uint16): uint16 {
    if timeoutMs == 0 then DEFAULT_COMMAND_TIMEOUT_MS else timeoutMs
  }

  function Receive(p: Proxy, o: Options, d: Datagram, now: uint64): Proxy {
    var b := Truncated(d.bytes);
    match ParseHeader(b)
    case None => p.(invalid := Increment64(p.invalid))
    case Some(h) =>
      var q := p.(peer := Some(d.peer), lastRtMs := now);
      if h.kind == MSG_HEARTBEAT then q.(rxHeartbeat := Increment64(q.rxHeartbeat))
      else if h.kind == MSG_ESTOP then q.(current := NO_CURRENT)
      else if h.kind == MSG_CURRENT_COMMAND then
        if h.payloadLength != CURRENT_PAYLOAD_SIZE then q.(invalid := Increment64(q.invalid))
        else
          var r := q.(rxCurrent := Increment64(q.rxCurrent));
          if !o.allowCurrent then r.(current := NO_CURRENT)
          else r.(current := ClampAll(ReadWheels(b, HEADER_SIZE), o.maxCurrent),
                  timeoutMs := EffectiveTimeout(ReadU16(b, HEADER_SIZE + 8)),
                  lastCommandMs := now)
      else q
  }

  function ReceiveAll(p: Proxy, o: Options, ds: seq<Datagram>, now: uint64): Proxy {
    if ds == [] then p else Receive(ReceiveAll(p, o, ds[..|ds| - 1], now), o, ds[|ds| - 1], now)
  }

  predicate WindowOpen(p: Proxy, o: Options, now: uint64) {
    o.allowCurrent && p.lastCommandMs != 0 && WrapSub64(now, p.lastCommandMs) <= p.timeoutMs
  }

  /** The proxy's own freshness test: wrapping subtraction, and a zero stamp means never. */
  predicate OnlineBit(now: uint64, stamp: uint64) {
    stamp != 0 && WrapSub64(now, stamp) <= ONLINE_LIMIT_MS
  }

  function OnlineMask(stamps: Wheels<uint64>, now: uint64): uint16 {
    (if OnlineBit(now, stamps.m1) then 1 else 0) + (if OnlineBit(now, stamps.m2) then 2 else 0)
    + (if OnlineBit(now, stamps.m3) then 4 else 0) + (if OnlineBit(now, stamps.m4) then 8 else 0)
  }

  /** What a state packet says about the proxy at time now. */
  function Snapshot(p: Proxy, now: uint64): ChassisState {
    ChassisState(p.target,
                 Wheels(p.feedback.m1.speedRpm, p.feedback.m2.speedRpm, p.feedback.m3.speedRpm, p.feedback.m4.speedRpm),
                 p.current, OnlineMask(p.lastFeedbackMs, now), 0)
  }

  /** One loop turn's inputs; stampMs is the clock reading that write_header takes for itself. */
  datatype Turn = Turn(now: uint64, frames: seq<RxFrame>, datagrams: seq<Datagram>, stampMs: uint32)

  /** The state after both queues are drained. */
  function Fed(p: Proxy, o: Options, t: Turn): Proxy {
    ReceiveAll(DrainAll(p, t.frames), o, t.datagrams, t.now)
  }

  predicate FrameDue(p: Proxy, now: uint64) {
    WrapSub64(now, p.lastFrameMs) >= FRAME_PERIOD_MS
  }

  /** The command window: an open one is rate limited, a closed one clears the command. */
  function Gate(p: Proxy, o: Options, now: uint64): Proxy {
    if WindowOpen(p, o, now) then
      if FrameDue(p, now) then p.(lastFrameMs := now) else p
    else p.(current := NO_CURRENT)
  }

  function FrameSent(p: Proxy, o: Options, now: uint64): Option<CanData> {
    if WindowOpen(p, o, now) && FrameDue(p, now) then Some(Pack(p.current)) else None
  }

  predicate StateDue(p: Proxy, now: uint64) {
    WrapSub64(now, p.lastStateMs) >= STATE_PERIOD_MS
  }

  /** The publish attempt: sequence numbers are used up only when a peer is known. */
  function Publish(p: Proxy, now: uint64): Proxy {
    if StateDue(p, now) then
      (if p.peer.Some? then p.(txSequence := Increment32(p.txSequence)) else p).(lastStateMs := now)
    else p
  }

  datatype Published = Published(peer: Peer, sequence: uint32, ms: uint32, state: ChassisState) {
    function Bytes(): Packet {
      StatePacket(sequence, ms, 0, state)
    }
  }

  function StateSent(p: Proxy, now: uint64, ms: uint32): Option<Published> {
    if StateDue(p, now) && p.peer.Some?
    then Some(Published(p.peer.value, Increment32(p.txSequence), ms, Snapshot(p, now)))
    else None
  }

  /** What the proxy leaves on the bus and the network over a run. */
  datatype Trace = Trace(
    proxy: Proxy,
    frames: seq<(uint64, CanData)>,
    attempts: seq<uint64>,
    published: seq<Published>)

  function TakeTurn(tr: Trace, o: Options, t: Turn): Trace {
    var fed := Fed(tr.proxy, o, t);
    var gated := Gate(fed, o, t.now);
    Trace(Publish(gated, t.now),
          match FrameSent(fed, o, t.now) { case None => tr.frames case Some(d) => tr.frames + [(t.now, d)] },
          if StateDue(gated, t.now) then tr.attempts + [t.now] else tr.attempts,
          match StateSent(gated, t.now, t.stampMs) { case None => tr.published case Some(s) => tr.published + [s] })
  }

  function Run(o: Options, turns: seq<Turn>): Trace {
    if turns == [] then Trace(START, [], [], []) else TakeTurn(Run(o, turns[..|turns| - 1]), o, turns[|turns| - 1])
  }

  predicate ClockRuns(turns: seq<Turn>) {
    forall k :: 0 < k < |turns| ==> turns[k - 1].now <= turns[k].now
  }
}
