/** The daemon's objects and loops, proved against DaemonModel. */
module DaemonObject {
  import opened Numerics
  import opened Motors
  import opened Motor3508
  import opened ChassisControl
  import opened ChassisHistory
  import opened ChassisObject
  import opened ChassisRestart
  import opened DaemonModel
  import DaemonSafety

  /** One data frame on the bus, always sent with eight bytes. */
  datatype SentFrame = SentFrame(id: uint32, data: CanData)

  const ZERO_FRAME := SentFrame(COMMAND_ID, Pack(NO_CURRENT))

  class Daemon {
    const controller: ChassisController
    const currents: array<int16>
    var lastLoopMs: uint64
    var sent: seq<SentFrame>

    ghost predicate Valid() {
      controller.Valid() && currents.Length == 5
    }

    ghost function Footprint(): set<object> {
      {this, controller, controller.feedback, controller.targetRpm, currents} + set p <- controller.pid
    }

    /** The state on entry to main's wait: a fresh controller and nothing sent. */
    constructor (config: Config, nowMs: uint64)
      ensures Valid() && fresh(Footprint())
      ensures controller.Model() == Init(config, nowMs, controller.Model().feedback)
      ensures sent == []
    {
      var c := new ChassisController(Some(config), nowMs);
      controller := c;
      currents := new int16[5](_ => 0);
      lastLoopMs := 0;
      sent := [];
    }

    method ReceiveCommands(lines: seq<Line>, nowMs: uint64)
      requires Valid()
      modifies controller
      ensures controller.Model() == Run(old(controller.Model()), LineEvents(lines, nowMs))
    {
      hide SetCommand;
      for i := 0 to |lines|
        invariant controller.Model() == Run(old(controller.Model()), LineEvents(lines[..i], nowMs))
      {
        assert lines[..i + 1][..i] == lines[..i];
        if lines[i].Garbled? {
          continue;
        }
        controller.SetCommand(lines[i].cmd.forward, lines[i].cmd.strafe, lines[i].cmd.rotate, nowMs);
        ApplyLast(old(controller.Model()), LineEvents(lines[..i], nowMs), Commanded(lines[i].cmd, nowMs));
      }
      assert lines[..|lines|] == lines;
    }

    method DrainFeedback(frames: seq<RxFrame>)
      requires Valid()
      modifies controller.feedback
      ensures controller.Model() == Run(old(controller.Model()), FrameEvents(frames))
    {
      hide ChassisControl.UpdateFeedback, BytesToI16, ToInt8;
      for i := 0 to |frames|
        invariant controller.Model() == Run(old(controller.Model()), FrameEvents(frames[..i]))
      {
        assert frames[..i + 1][..i] == frames[..i];
        if frames[i].dlc >= 8 {
          var ok, feedback := ParseFeedback(frames[i].id, frames[i].data, frames[i].stampMs);
          if ok {
            controller.UpdateFeedback(feedback);
            assert feedback == frames[i].Decode();
            ApplyLast(old(controller.Model()), FrameEvents(frames[..i]), Received(feedback));
          }
        }
      }
      assert frames[..|frames|] == frames;
    }

    /** One write to the bus; only a successful one leaves a frame on it. */
    method SendCurrents(values: array<int16>, writeOk: bool) returns (ok: bool)
      requires values.Length == 5
      modifies this`sent
      ensures ok == writeOk
      ensures sent == if ok then old(sent) + [SentFrame(COMMAND_ID, Pack(FromSlots(values[..])))] else old(sent)
    {
      var data := new uint8[8];
      PackCurrentArray(values, data);
      if writeOk {
        sent := sent + [SentFrame(COMMAND_ID, data[..])];
      }
      return writeOk;
    }

    /** The burst ignores failing writes and goes on. */
    method SendZeroCurrent(writes: seq<bool>)
      requires |writes| == 20
      modifies this`sent
      ensures sent == old(sent) + seq(Delivered(writes), _ => ZERO_FRAME)
    {
      var zeros := new int16[5](_ => 0);
      for i := 0 to ZERO_SEND_REPEAT
        invariant sent == old(sent) + seq(Delivered(writes[..i]), _ => ZERO_FRAME)
        invariant FromSlots(zeros[..]) == NO_CURRENT
      {
        assert writes[..i + 1][..i] == writes[..i];
        var _ := SendCurrents(zeros, writes[i]);
      }
      assert writes[..ZERO_SEND_REPEAT] == writes;
    }

    /** Returns the frames consumed as a ghost so that the caller can name the state reached. */
    method WaitForAllFeedback(fromMs: uint64, polls: seq<Poll>, ghost config: Config, ghost t0: uint64,
                              ghost memory: Wheels<Feedback>)
      returns (ok: bool, ghost log: seq<RxFrame>)
      requires Valid() && controller.Model() == Init(config, t0, memory)
      modifies controller.feedback
      ensures (log, ok) == WaitLog(config, t0, memory, fromMs, polls, [])
      ensures controller.Model() == Warm(config, t0, memory, log)
    {
      log := [];
      for i := 0 to |polls|
        invariant controller.Model() == Warm(config, t0, memory, log)
        invariant WaitLog(config, t0, memory, fromMs, polls, []) == WaitLog(config, t0, memory, fromMs, polls[i..], log)
      {
        if WrapSub64(polls[i].tested, fromMs) >= WAIT_TIMEOUT_MS {
          return false, log;
        }
        DrainFeedback(polls[i].frames);
        FrameEventsConcat(log, polls[i].frames);
        RunConcat(Init(config, t0, memory), FrameEvents(log), FrameEvents(polls[i].frames));
        log := log + polls[i].frames;
        ok := controller.FeedbackAllOnline(polls[i].checked);
        if ok {
          return;
        }
      }
      ok := false;
    }

    /** One turn: drain both queues, step, zero the currents when offline. */
    method TakeTurn(t: Turn)
      requires Valid()
      modifies this`lastLoopMs, controller, controller.pid, controller.feedback, controller.targetRpm, currents
      ensures var o := Step(Run(old(controller.Model()), TurnInput(t)), t.now, Dt(t.now, old(lastLoopMs)));
              controller.Model() == o.next && FromSlots(currents[..]) == o.currents
      ensures lastLoopMs == t.now
    {
      hide Step, Dt, Run, AllOnline, LineEvents, FrameEvents, TurnInput;
      assert TurnInput(t) == LineEvents(t.lines, t.now) + FrameEvents(t.frames) by {
        TurnInputParts(t);
      }
      ReceiveCommands(t.lines, t.now);
      DrainFeedback(t.frames);
      RunConcat(old(controller.Model()), LineEvents(t.lines, t.now), FrameEvents(t.frames));
      var dt := Dt(t.now, lastLoopMs);
      lastLoopMs := t.now;
      OfflineMeansNoCurrent(controller.Model(), t.now, dt);
      var online := controller.Step(t.now, dt, currents);
      if !online {
        ZeroCurrents();
      }
    }

    method ZeroCurrents()
      requires Valid()
      modifies currents
      ensures FromSlots(currents[..]) == NO_CURRENT
    {
      for i := 0 to 5
        invariant forall j :: 0 <= j < i ==> currents[j] == 0
      {
        currents[i] := 0;
      }
    }

    /** main's loop, until the inputs end or a write fails. */
    method Loop(turns: seq<Turn>)
      requires Valid()
      modifies this, controller, controller.pid, controller.feedback, controller.targetRpm, currents
      ensures |sent| == |old(sent)| + Served(turns) && old(sent) <= sent
      ensures forall k :: |old(sent)| <= k < |sent| ==>
                sent[k] ==
                SentFrame(COMMAND_ID, FrameOf(old(controller.Model()), old(lastLoopMs), turns, k - |old(sent)|))
    {
      hide Step, Pack, FrameOf, StepOf, Run, LoopEvents, TurnInput, Dt, Served, Previous;
      ghost var c, from := controller.Model(), lastLoopMs;
      LoopStarts(c, from, turns);
      for i := 0 to |turns|
        invariant controller.Model() == Run(c, LoopEvents(from, turns[..i]))
        invariant lastLoopMs == Previous(from, turns[..i])
        invariant Served(turns) == i + Served(turns[i..])
        invariant |sent| == |old(sent)| + i && old(sent) <= sent
        invariant forall k :: |old(sent)| <= k < |sent| ==>
                    sent[k] == SentFrame(COMMAND_ID, FrameOf(c, from, turns, k - |old(sent)|))
      {
        TurnAdvances(c, from, turns, i);
        TakeTurn(turns[i]);
        var ok := SendCurrents(currents, turns[i].sendOk);
        if !ok {
          return;
        }
      }
    }

    /**
     * The life of the process after its sockets are open: the frames of the loop, each of them safe,
     * then the zero frames of the closing burst, all twenty of them unless one of its writes fails.
     */
    method Live(waitFromMs: uint64, polls: seq<Poll>, loopFromMs: uint64, turns: seq<Turn>, stopMs: uint64,
                closing: seq<bool>, ghost config: Config, ghost t0: uint64, ghost memory: Wheels<Feedback>)
      returns (ghost log: seq<RxFrame>, ok: bool)
      requires Valid() && controller.Model() == Init(config, t0, memory) && sent == []
      requires |closing| == 20
      modifies this, controller, controller.pid, controller.feedback, controller.targetRpm, currents
      ensures (log, ok) == WaitLog(config, t0, memory, waitFromMs, polls, [])
      ensures |sent| == (if ok then Served(turns) else 0) + Delivered(closing)
      ensures ok ==> forall k :: 0 <= k < Served(turns) ==>
                sent[k] == SentFrame(COMMAND_ID, FrameOf(Warm(config, t0, memory, log), loopFromMs, turns, k))
      ensures ok && DaemonSafety.ClockRunsOn(t0, turns) ==> forall k :: 0 <= k < Served(turns) ==>
                sent[k].id == 0x200 &&
                DaemonSafety.SafeTurn(config, log, loopFromMs, turns, k, Unpack(sent[k].data))
      ensures forall k :: |sent| - Delivered(closing) <= k < |sent| ==>
                sent[k].id == 0x200 && Unpack(sent[k].data) == Wheels(0, 0, 0, 0)
    {
      hide WaitLog, Served, Delivered, FrameOf, DaemonSafety.SafeTurn, Pack, Unpack, Init, ChassisControl.Stop;
      PackBijection(NO_CURRENT, Pack(NO_CURRENT));
      ok, log := WaitForAllFeedback(waitFromMs, polls, config, t0, memory);
      if !ok {
        SendZeroCurrent(closing);
        return;
      }
      lastLoopMs := loopFromMs;
      Loop(turns);
      controller.Stop(stopMs);
      ghost var loopSent := sent;
      SendZeroCurrent(closing);
      assert forall k :: 0 <= k < |loopSent| ==> sent[k] == loopSent[k];
      ServedAreSafe(config, t0, memory, log, loopFromMs, turns);
    }
  }

  lemma ServedAreSafe(config: Config, t0: uint64, memory: Wheels<Feedback>, log: seq<RxFrame>, loopFrom: uint64,
                      turns: seq<Turn>)
    ensures DaemonSafety.ClockRunsOn(t0, turns) ==> forall k :: 0 <= k < Served(turns) ==>
              DaemonSafety.SafeTurn(config, log, loopFrom, turns, k,
                                    Unpack(FrameOf(Warm(config, t0, memory, log), loopFrom, turns, k)))
  {
    hide DaemonSafety.SafeTurn, FrameOf, Warm, Unpack, Served;
    if DaemonSafety.ClockRunsOn(t0, turns) {
      forall k | 0 <= k < Served(turns)
        ensures DaemonSafety.SafeTurn(config, log, loopFrom, turns, k,
                                      Unpack(FrameOf(Warm(config, t0, memory, log), loopFrom, turns, k)))
      {
        DaemonSafety.FramesAreSafe(config, t0, memory, log, loopFrom, turns, k);
      }
    }
  }

  lemma LoopStarts(c: Controller, from: uint64, turns: seq<Turn>)
    ensures Run(c, LoopEvents(from, turns[..0])) == c && Previous(from, turns[..0]) == from
    ensures turns[0..] == turns && Served(turns[|turns|..]) == 0
  {
  }

  lemma TurnInputParts(t: Turn)
    ensures TurnInput(t) == LineEvents(t.lines, t.now) + FrameEvents(t.frames)
  {
  }

  lemma TurnAdvances(c: Controller, from: uint64, turns: seq<Turn>, i: nat)
    requires i < |turns|
    ensures var t := turns[i];
            var now := Run(c, LoopEvents(from, turns[..i]));
            var o := Step(Run(now, TurnInput(t)), t.now, Dt(t.now, Previous(from, turns[..i])));
            && Pack(o.currents) == FrameOf(c, from, turns, i)
            && Run(c, LoopEvents(from, turns[..i + 1])) == o.next
    ensures Previous(from, turns[..i + 1]) == turns[i].now
    ensures Served(turns[i..]) == if turns[i].sendOk then 1 + Served(turns[i + 1..]) else 0
  {
    hide Step, TurnInput;
    var t, before := turns[i], LoopEvents(from, turns[..i]);
    assert turns[..i + 1][..i] == turns[..i];
    assert turns[i..][1..] == turns[i + 1..];
    RunConcat(c, before, TurnInput(t));
    var e := Stepped(t.now, Dt(t.now, Previous(from, turns[..i])));
    assert before + (TurnInput(t) + [e]) == before + TurnInput(t) + [e];
    ApplyLast(c, before + TurnInput(t), e);
  }

  lemma ApplyLast(c: Controller, es: seq<Event>, e: Event)
    ensures Run(c, es + [e]) == Apply(Run(c, es), e)
  {
    assert (es + [e])[..|es|] == es;
  }
}
