/** The C structure of src/chassis_control.c and its operations, proved against ChassisControl. */
module ChassisObject {
  import opened Numerics
  import opened Motors
  import opened Mecanum
  import Pid
  import opened ChassisControl

  /** The C structure. Its arrays keep five slots; slot 0 of pid is never read. */
  class ChassisController {
    var config: Config
    const pid: seq<Pid.PIDController>
    const feedback: array<Feedback>
    const targetRpm: array<real>
    var command: Command
    var lastCommandMs: uint64

    ghost predicate Valid() {
      && |pid| == 5
      && (forall i, j :: 0 <= i < j < 5 ==> pid[i] != pid[j])
      && feedback.Length == 5
      && targetRpm.Length == 5
    }

    ghost function Model(): Controller
      requires Valid()
      reads this, pid, feedback, targetRpm
    {
      Controller(config, PidModels(), FromSlots(feedback[..]), FromSlots(targetRpm[..]), command, lastCommandMs)
    }

    ghost function PidModels(): Wheels<Pid.State>
      requires Valid()
      reads pid
    {
      Wheels(pid[1].Model(), pid[2].Model(), pid[3].Model(), pid[4].Model())
    }

    /** chassis_init; a missing configuration means the default one. */
    constructor (given: Option<Config>, nowMs: uint64)
      ensures Valid()
      ensures fresh(pid) && fresh(feedback) && fresh(targetRpm)
      ensures Model() == Init(if given.Some? then given.value else Config(500.0, 400.0, 300.0, 250.0),
                              nowMs, Model().feedback)
    {
      config := if given.Some? then given.value else DEFAULT_CONFIG;
      command := STOPPED;
      lastCommandMs := nowMs;
      var pids := ChassisController.NewPids();
      var slots, targets := ChassisController.NewSlots();
      pid, feedback, targetRpm := pids, slots, targets;
    }

    static method NewPids() returns (pids: seq<Pid.PIDController>)
      ensures |pids| == 5 && fresh(pids)
      ensures forall i, j :: 0 <= i < j < 5 ==> pids[i] != pids[j]
      ensures forall i: MotorId :: pids[i].Model() == Pid.Fresh(ShippedGains(i))
    {
      var unused := new Pid.PIDController(ShippedGains(1));
      pids := [unused];
      for i := 1 to 5
        invariant |pids| == i && fresh(pids)
        invariant forall j, k :: 0 <= j < k < i ==> pids[j] != pids[k]
        invariant forall j: MotorId :: j < i ==> pids[j].Model() == Pid.Fresh(ShippedGains(j))
      {
        var p := new Pid.PIDController(ShippedGains(i));
        pids := pids + [p];
      }
    }

    static method NewSlots() returns (slots: array<Feedback>, targets: array<real>)
      ensures fresh(slots) && fresh(targets) && slots.Length == targets.Length == 5
      ensures forall j :: 0 <= j < 5 ==> slots[j].id == j && !slots[j].online && targets[j] == 0.0
    {
      slots, targets := new Feedback[5], new real[5];
      for i := 0 to 5
        invariant forall j :: 0 <= j < i ==> slots[j].id == j && !slots[j].online && targets[j] == 0.0
      {
        slots[i] := slots[i].(id := i, online := false);
        targets[i] := 0.0;
      }
    }

    method ResetMotionState()
      requires Valid()
      modifies this, pid, targetRpm
      ensures Model() == ResetMotion(old(Model()))
    {
      command := STOPPED;
      ghost var was := PidModels();
      for i := 1 to 5
        invariant command == STOPPED && config == old(config) && lastCommandMs == old(lastCommandMs)
        invariant forall j: MotorId :: j < i ==> targetRpm[j] == 0.0 && pid[j].Model() == Pid.Fresh(was.At(j).gains)
        invariant forall j: MotorId :: i <= j ==> pid[j].Model() == was.At(j)
      {
        targetRpm[i] := 0.0;
        pid[i].Reset();
      }
    }

    method SetCommand(forward: real, strafe: real, rotate: real, nowMs: uint64)
      requires Valid()
      modifies this`command, this`lastCommandMs
      ensures Model() == ChassisControl.SetCommand(old(Model()), Command(forward, strafe, rotate), nowMs)
    {
      command := Command(Clamp(forward, -1.0, 1.0), Clamp(strafe, -1.0, 1.0), Clamp(rotate, -1.0, 1.0));
      lastCommandMs := nowMs;
    }

    method Stop(nowMs: uint64)
      requires Valid()
      modifies this, pid, targetRpm
      ensures Model() == ChassisControl.Stop(old(Model()), nowMs)
    {
      lastCommandMs := nowMs;
      ResetMotionState();
    }

    method UpdateFeedback(fb: Feedback)
      requires Valid()
      modifies feedback
      ensures Model() == ChassisControl.UpdateFeedback(old(Model()), fb)
    {
      if fb.id < 1 || fb.id > 4 {
        return;
      }
      feedback[fb.id] := fb;
    }

    method FeedbackAllOnline(nowMs: uint64) returns (online: bool)
      requires Valid()
      ensures online == AllOnline(Model(), nowMs)
    {
      for i := 1 to 5
        invariant forall j: MotorId :: j < i ==> Online(config, feedback[j], nowMs)
      {
        if !feedback[i].online {
          return false;
        }
        if Elapsed(nowMs, feedback[i].lastUpdateMs) as real > config.feedbackTimeoutMs {
          return false;
        }
      }
      return true;
    }

    method UpdateTargetsFromCommand()
      requires Valid()
      modifies targetRpm
      ensures Model() == old(Model()).(target := Targets(config, command))
    {
      hide Normalize, Clamp, Times;
      var forward := Times(-Clamp(command.forward, -1.0, 1.0), config.maxTranslateRpm);
      var strafe := Times(Clamp(command.strafe, -1.0, 1.0), config.maxTranslateRpm);
      var rotate := Times(Clamp(command.rotate, -1.0, 1.0), config.maxRotateRpm);
      targetRpm[1] := -(forward + strafe) - rotate;
      targetRpm[2] := -(forward - strafe) - rotate;
      targetRpm[3] := (forward - strafe) - rotate;
      targetRpm[4] := (forward + strafe) - rotate;
      assert FromSlots(targetRpm[..]) == Mix(BodyOf(config, command));
      NormalizeWheelTargets(targetRpm, config.maxTranslateRpm);
    }

    method Step(nowMs: uint64, dtS: real, currents: array<int16>) returns (online: bool)
      requires Valid() && currents.Length == 5
      modifies this, pid, targetRpm, currents
      ensures var o := ChassisControl.Step(old(Model()), nowMs, dtS);
              Model() == o.next && FromSlots(currents[..]) == o.currents && online == o.online
      ensures currents[0] == 0
    {
      hide Normalize, Targets, DriveAll, CurrentsOf;
      for i := 0 to 5
        invariant forall j :: 0 <= j < i ==> currents[j] == 0
        invariant Model() == old(Model())
      {
        currents[i] := 0;
      }
      if Elapsed(nowMs, lastCommandMs) as real > config.commandTimeoutMs {
        ResetMotionState();
      }
      if command.IsZero() {
        ResetMotionState();
        online := FeedbackAllOnline(nowMs);
        return;
      }
      ghost var live := Model();
      UpdateTargetsFromCommand();
      online := FeedbackAllOnline(nowMs);
      if !online {
        DropTargets();
        return;
      }
      DrivePids(dtS, currents);
    }

    /** The feedback-watchdog loop of chassis_step. */
    method DropTargets()
      requires Valid()
      modifies pid, targetRpm
      ensures Model() == old(Model()).(pid := ResetPids(old(Model().pid)), target := NO_TARGET)
    {
      ghost var was := PidModels();
      for i := 1 to 5
        invariant forall j: MotorId :: j < i ==> targetRpm[j] == 0.0 && pid[j].Model() == Pid.Fresh(was.At(j).gains)
        invariant forall j: MotorId :: i <= j ==> pid[j].Model() == was.At(j)
      {
        pid[i].Reset();
        targetRpm[i] := 0.0;
      }
    }

    method DrivePids(dtS: real, currents: array<int16>)
      requires Valid() && currents.Length == 5
      modifies pid, currents
      ensures var c := old(Model());
              && Model() == c.(pid := DriveAll(c.pid, c.target, c.feedback, dtS))
              && FromSlots(currents[..]) == CurrentsOf(Model().pid)
      ensures currents[0] == old(currents[0])
    {
      hide CurrentOf, Pid.Step;
      ghost var was := PidModels();
      DriveLoop(dtS, currents);
      assert forall i: MotorId :: was.At(i) == old(pid[i].Model());
      assert PidModels() == DriveAll(was, FromSlots(targetRpm[..]), FromSlots(feedback[..]), dtS);
    }

    /** The control loop of chassis_step. */
    method DriveLoop(dtS: real, currents: array<int16>)
      requires Valid() && currents.Length == 5
      modifies pid, currents
      ensures forall i: MotorId ::
                && pid[i].Model() == Drive(old(pid[i].Model()), targetRpm[i], feedback[i], dtS)
                && currents[i] == CurrentOf(pid[i].Model())
      ensures currents[0] == old(currents[0])
    {
      hide RoundEven, ToInt16, Pid.Step;
      for i := 1 to 5
        invariant currents[0] == old(currents[0])
        invariant forall j: MotorId :: j < i ==>
                    && pid[j].Model() == Drive(old(pid[j].Model()), targetRpm[j], feedback[j], dtS)
                    && currents[j] == CurrentOf(pid[j].Model())
        invariant forall j: MotorId :: i <= j ==> pid[j].Model() == old(pid[j].Model())
      {
        var output := pid[i].Calculate(targetRpm[i], feedback[i].speedRpm as real, dtS);
        currents[i] := ToInt16(RoundEven(output));
      }
    }
  }
}
