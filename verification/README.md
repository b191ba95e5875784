# Verified model of the chassis motor-control stack

A Dafny model of the parts of the repository that decide which currents reach the four wheel motors:

- the **chassis controller** and its anti-windup PIDs (`src/chassis_control.c`, `src/pid.c`,
  `src/motor_3508.c`);
- the **chassis daemon**, the 100 Hz loop around it (`tools/chassis_daemon.c`);
- the **CAN proxy** and the **RT-Thread bridge** as two nodes joined by an unreliable network
  (`tools/can_proxy.c`, `rtthread_port/rtt_chassis_bridge.c`).

Every object that the C code updates in place is a class whose methods follow the C statements and
loops; each method is proved equal to a transition function on values. The theorems are about runs of
those functions: sequences of calls, loop turns or network events of any length.

Main results:

- **Laws in plain arithmetic.** The control law of one PID step, the wheel targets, an active step's
  currents with the shipped gains as numbers, the current clamp, the orders and packets byte by byte:
  each spells out the numbers and bytes of its step, so that the run theorems below speak of what the C
  code computes.
- **History refinement.** What the controller outputs after any interleaving of commands, stops,
  feedback and steps is a fresh PID folded over exactly the active steps since the last inactive
  one; when a step is active is read off the event history.
- **Daemon safety.** The bytes of every frame the daemon's loop puts on the bus decode to those outputs
  when the raw datagrams and CAN frames allow driving, and to four zeros otherwise; the closing burst
  leaves nothing but zero frames.
- **Proxy refinement.** Which turns send a current frame, what the frame contains and what every
  published state says are functions of the raw datagrams and CAN frames.
- **Documented promises.** Emergency stop over motion and gating by feedback hold of the proxy under
  exactly the options that let no current through; headers beyond length and type leave no trace.
- **Two nodes.** The bridge always holds the newest state it has read, and the last packet delivered in a
  cycle wins. Over a network that loses, duplicates and reorders, the bridge's state is zero, an
  exact description of some past of the proxy's inputs, or what a datagram from elsewhere says; stage 1
  never drives a motor unless the proxy was started with a negative current limit.
- **Structure.** Peak speed is an L1 norm, kinematics round-trip up to one factor, the controller is
  odd, stop equals fresh start, rest is absorbing; a PI controller's saturation freezes its integral,
  and its override disjuncts are dead exactly without a derivative gain.

Files: `numerics`, `motors` (shared types), `pid`, `mecanum`, `motor_3508`, `chassis_control` (values),
`chassis_object` (class), `chassis_history`, `chassis_laws`, `chassis_restart`, `chassis_symmetry`,
`daemon_model`, `daemon_object`, `daemon_safety`, `wire_format`, `wire_layout`, `proxy_model`,
`proxy_object`, `proxy_history`, `proxy_laws`, `proxy_promises`, `rtt_bridge`, `two_nodes`.
`dafny verify dfyconfig.toml` checks them all.

## Assumptions

- Floats are real numbers; inputs are finite. `lrintf` rounds to the nearest integer, ties to even
  (section 7.12.9.5 of C11 under the default rounding mode).
- Times are 64-bit milliseconds. Lemmas that require `ClockRuns` or `ClockRunsOn` use that the
  monotonic clock never goes back; the others hold on any clock. Frames may carry stamps later than
  the turn that reads them, as in the C loops.
- Nothing is assumed about who sends to either node's socket: neither program checks the sender.
- Nothing is assumed about `max_translate_rpm` or `max_current`. Where a property needs a sign, the
  lemma says for which values exactly it holds.

## Where the code and its documentation disagree

The model follows the code. `docs/rtt_bridge_protocol.md:98-103` promises more than
`tools/can_proxy.c` does:

- An expired command means silence, not zero frames (`ProxyRates.SendsIff`).
- An emergency stop holds only until the next current command (`ProxyPromises.StopHoldsUntilCommand`,
  `ReplayIsFresh`); it is final in every run exactly under options that let no current through at all
  (`StopLatchesIff`).
- Feedback does not gate current frames, again except under exactly those options
  (`ProxyPromises.FeedbackGatesIff`).
- Header flags, sequence numbers and times leave no trace in any run
  (`ProxyPromises.RunIgnoresUnchecked`), so a replayed command counts as new.

`docs/rtt_can_proxy_stage1.md:20-25` calls stage 1 safe; with `--allow-current` and a negative
`--max-current` the zero command becomes a drive (`StageOne.StageOneIsZeroIff`).

## Model

| member | source | states |
|---|---|---|
| Numerics.RoundEven | src/chassis_control.c:257 | the result is the nearest integer, the even one on a tie |
| Numerics.RoundEvenUnique | src/chassis_control.c:257 | that description has only one solution |
| Numerics.RoundEvenIsOdd | src/chassis_control.c:257 | rounding commutes with negation |
| Pid.PIDController.constructor | src/pid.c:5-28 | initialisation yields the fresh state of the given gains |
| Pid.PIDController.Reset | src/pid.c:30-45 | a reset forgets everything but gains and limits |
| Pid.PIDController.Calculate | src/pid.c:47-98 | the in-place calculation is one PID step and returns its output |
| PidRuns.RunInvariants | src/pid.c:47-98 | over any run since reset: output and integral within limits that straddle zero, integral at most the sum of absolute error areas, error history is the last three errors padded with zeros |
| PidRuns.ControlLaw | src/pid.c:54-97 | for every state and input, in plain arithmetic: the output is kp e + ki I + kd (e - last e) / h with I the limited integral and h the substituted time step, or the output limit that sum passes; when the integral moves; and the error history |
| PidRuns.TextbookPid | src/pid.c:47-98 | as long as the textbook PID of the error history meets no limit, the controller's output and integral are the textbook's, with the sum of e h spelled out |
| PidRuns.SaturationHasErrorSign | src/pid.c:66-94 | in every run since reset of a PI controller, output at a limit means an error of that limit's sign and leaves the integral frozen, whatever the gains and limits |
| PidRuns.RunsStayInside | src/pid.c:66-94 | in every run since reset of a PI controller the integral term stays strictly between the output limits, though only the integral itself is clamped |
| PidRuns.SaturatesForwardIff | src/pid.c:66-94 | from any state, saturation has the error's sign and freezes the integral for all inputs if and only if the integral term is strictly between the output limits |
| PidRuns.BurstKeepsIntegral | src/pid.c:66-94 | after any run of a PI controller, a saturated burst of any length leaves the integral at its value before the burst |
| PidRuns.OverridesDeadIff | src/pid.c:89-94 | the two override disjuncts fire in no run since reset if and only if the derivative gain is zero, for all positive proportional and non-negative integral gains |
| Mecanum.NormalizeWheelTargets | src/chassis_control.c:52-72 | the two loops compute the peak and scale all four targets by one factor, in place |
| Mecanum.PeakIsL1 | src/chassis_control.c:52-88 | the peak of the mixed targets is the L1 norm of the body command |
| Mecanum.NormalizedWithin | src/chassis_control.c:52-72 | whatever the targets and the sign of the limit, no normalised target exceeds the limit's magnitude |
| Mecanum.LimitHoldsIff | src/chassis_control.c:52-72 | normalised targets respect the limit for all inputs if and only if the limit is not negative |
| Mecanum.FactorIsLargest | src/chassis_control.c:64-71 | the factor is the largest k in [0,1] that brings the peak within the limit, and below 1 exactly when the peak exceeds it |
| Mecanum.RoundTrip | src/chassis_control.c:52-91 | inverse kinematics of the normalised targets returns the command times one common factor |
| Mecanum.WheelsBalance | src/chassis_control.c:85-91 | t1 + t4 = t2 + t3 after normalisation |
| Mecanum.IdempotentIff | src/chassis_control.c:52-72 | normalising twice equals normalising once for all targets if and only if the limit is not negative |
| Mecanum.NormalizeIsOdd | src/chassis_control.c:52-72 | normalisation commutes with negation, for any limit |
| Motor3508.PackCurrent | src/motor_3508.c:16-26 | the eight bytes written are the big-endian packing of the four currents |
| Motor3508.PackCurrentArray | src/motor_3508.c:28-32 | slots 1 to 4 of the array are packed, motor 1 first |
| Motor3508.PackLayout | src/motor_3508.c:10-26 | motor i's current is the i-th big-endian word of the frame, in two's complement |
| Motor3508.PackBijection | src/motor_3508.c:5-32 | packing and unpacking are inverse in both directions |
| Motor3508.DecodeIsFaithful | src/motor_3508.c:34-58 | feedback frames are those of at least eight bytes with IDs 0x201 to 0x204; the record holds their three big-endian words, the temperature byte, the sender and the stamp |
| Motor3508.ParseFeedback | src/motor_3508.c:34-58 | accepts exactly IDs 0x201 to 0x204 and yields their decode |
| Motor3508.UpdateFeedback | src/motor_3508.c:60-73 | stores an accepted frame in its motor's slot, otherwise changes nothing |
| Motor3508.SlotsRefineLog | src/motor_3508.c:60-73 | slot i is the decode of motor i's last frame of at least eight bytes; other frames never touch it |
| ChassisLaws.BodyLaw | src/chassis_control.c:76-78 | each axis is limited to [-1, 1] and scaled to rpm, forward inverted, in plain arithmetic |
| ChassisLaws.MixLaw | src/chassis_control.c:80-88 | the signs of the wheel layout |
| ChassisLaws.TargetsLaw | src/chassis_control.c:52-91 | every target is its mixed speed times one factor, the translation limit over the sum of the three magnitudes when that sum passes it, else 1 |
| ChassisLaws.CurrentLaw | src/chassis_control.c:252-258 | after any history, motor i's current in an active step in numbers: 2 e plus 0.35, 0.30, 0.40 or 0.60 times the integral limited to 2500, limited to 6500 and rounded half to even; the integral moves exactly when the output is strictly inside |
| ChassisControl.TargetsFollowCommand | src/chassis_control.c:74-91 | the targets realise the clamped command, forward inverted, up to the one factor; balanced; never beyond the limit's magnitude |
| ChassisObject.ChassisController.constructor | src/chassis_control.c:93-145 | initial state, with the default configuration when none is given; the unwritten feedback fields keep what memory held |
| ChassisObject.ChassisController.ResetMotionState | src/chassis_control.c:39-50 | command and targets zero, all PIDs reset |
| ChassisObject.ChassisController.SetCommand | src/chassis_control.c:147-162 | clamped command and stamp, nothing else |
| ChassisObject.ChassisController.Stop | src/chassis_control.c:164-173 | reset plus stamp |
| ChassisObject.ChassisController.UpdateFeedback | src/chassis_control.c:175-188 | one slot, only for IDs 1 to 4 |
| ChassisObject.ChassisController.FeedbackAllOnline | src/chassis_control.c:190-211 | the loop answers whether all four motors are online and fresh |
| ChassisObject.ChassisController.UpdateTargetsFromCommand | src/chassis_control.c:74-91 | the in-place target computation is mixing followed by normalisation |
| ChassisObject.ChassisController.Step | src/chassis_control.c:213-261 | the in-place step is the step function: state, four currents and flag |
| ChassisHistory.StepGate | src/chassis_control.c:228-237 | the stored command drives exactly when the last order reaches 0.0001 on some axis and is no older than the command timeout |
| ChassisHistory.CommandRefines | src/chassis_control.c:147-173 | after every run the command field is the clamped last order, or already cleared because that order is below threshold or expired |
| ChassisHistory.SlotsRefine | src/chassis_control.c:175-188 | after every run slot i is motor i's last feedback, offline if it never spoke |
| ChassisHistory.SlotsHaveIds | src/chassis_control.c:123-188 | after every run slot i carries id i |
| ChassisHistory.PidsRefineHistory | src/chassis_control.c:213-261 | after every run each PID is a fresh one folded over the active steps since the last inactive step, stop or start, and the targets are those of the last active step |
| ChassisHistory.StepRefinesHistory | src/chassis_control.c:213-261 | after every history a step is active iff the last order reaches 0.0001 on some axis and is inside its timeout and every motor's last feedback is online and inside its own; then each current is the rounded refined output within 6500 and the cast is lossless, else zero; the flag says whether all were heard |
| ChassisHistory.CastIsLossless | src/chassis_control.c:257 | every reachable output survives the int16 cast |
| ChassisHistory.MotorsCannotWindUp | src/chassis_control.c:133-144 | with the shipped gains, after any run, no saturated burst moves the integral, saturation has the error's sign and the overrides never fire |
| ChassisRestart.StoppedIsAbsorbing | src/chassis_control.c:228-237 | after a step that finds the command too old or below 0.0001 on all axes, only a new command ends zero currents, zero targets and reset PIDs |
| ChassisRestart.OfflineMeansNoCurrent | tools/chassis_daemon.c:405-413 | a step that reports offline already left the currents zero, so re-zeroing is redundant |
| ChassisRestart.StopIsFreshStart | src/chassis_control.c:106-188 | after any history a stopped controller and a new one told each motor's latest feedback give the same currents and flags in every future |
| ChassisSymmetry.MirrorPidStep | src/pid.c:47-98 | a PID step with symmetric limits is odd in all its fields |
| ChassisSymmetry.MirrorStep | src/chassis_control.c:213-261 | mirrored controllers step to mirrored ones with opposite currents and the same flag |
| ChassisSymmetry.ReversedRun | src/chassis_control.c:74-91 | reversing every command and speed of a run mirrors the whole state and negates every current |
| DaemonObject.Daemon.ReceiveCommands | tools/chassis_daemon.c:177-210 | the drain applies every parsed line in order and skips the others |
| DaemonObject.Daemon.DrainFeedback | tools/chassis_daemon.c:103-125 | the drain applies every feedback frame of at least eight bytes in order |
| DaemonObject.Daemon.SendCurrents | tools/chassis_daemon.c:86-91 | a successful write leaves one frame with ID 0x200 and the packed currents, a failing one nothing; the caller learns which |
| DaemonObject.Daemon.SendZeroCurrent | tools/chassis_daemon.c:93-101 | twenty writes of zero, going on after failures: one zero frame for each that succeeds |
| DaemonObject.Daemon.WaitForAllFeedback | tools/chassis_daemon.c:127-140 | consumes exactly the frames of the polls inside 1500 ms up to the first at which all motors are online, and says whether there was one |
| DaemonObject.Daemon.TakeTurn | tools/chassis_daemon.c:397-413 | one turn is both drains followed by one step with dt in seconds |
| DaemonObject.Daemon.Loop | tools/chassis_daemon.c:395-429 | the loop sends one frame a turn until a write fails; frame k is the packed outcome of turn k |
| DaemonObject.Daemon.Live | tools/chassis_daemon.c:358-440 | over the whole process: the loop's frames, if the wait succeeds, whose bytes on a running clock decode to safe currents turn by turn, then only zero frames, as many as the closing writes that succeed |
| DaemonModel.Delivered | tools/chassis_daemon.c:93-101 | the burst is complete exactly when every write succeeds |
| DaemonModel.DeliveredCounts | tools/chassis_daemon.c:93-101 | otherwise as many frames get out as writes succeed |
| DaemonModel.Served | tools/chassis_daemon.c:415-419 | the turns that get their frame out are those before the first failing write |
| DaemonSafety.MayDriveIsActive | tools/chassis_daemon.c:395-413 | the condition on raw lines and CAN frames, written out with the dead band and both timeouts, is exactly the controller's activity test |
| DaemonSafety.TurnGap | tools/chassis_daemon.c:402-403 | turn k steps with the milliseconds since turn k - 1, or since the loop was entered, over 1000, the 64-bit difference wrapping |
| DaemonSafety.WaitLaw | tools/chassis_daemon.c:127-140 | the wait uses exactly the first polls begun inside 1500 ms up to the first after which every motor's last valid frame is fresh, and succeeds iff there is one |
| DaemonSafety.WaitHeardAll | tools/chassis_daemon.c:364-376 | the loop is entered only after every motor has sent a valid frame |
| DaemonSafety.FramesAreSafe | tools/chassis_daemon.c:395-429 | the frame of every turn decodes to the rounded refined outputs, its last time step in seconds written out, if the last accepted line reaches 0.0001 on some axis and is inside the timeout and each motor's last valid frame is fresh, else to zeros; never beyond 6500 |
| WireFormat.WriteHeader | tools/can_proxy.c:119-132 | the twenty bytes carry the header's words in network order |
| WireFormat.StateRoundTrip | rtthread_port/rtt_chassis_bridge.c:98-129 | the bridge parses every state the proxy serialises, field for field |
| WireFormat.AcceptedStateReencodes | rtthread_port/rtt_chassis_bridge.c:98-129 | every packet the bridge accepts is reproduced byte for byte by encoding its sequence, time, flags and state |
| WireFormat.BridgePacketsParse | tools/can_proxy.c:134-155 | the proxy parses the bridge's heartbeats and current commands, all fields and payload |
| WireLayout.HeaderLaw | tools/can_proxy.c:134-155 | the proxy accepts exactly the packets that begin with RKCH and version 1 and carry their own length, and reads each field from its bytes |
| WireLayout.StateLaw | rtthread_port/rtt_chassis_bridge.c:98-129 | the bridge accepts exactly the 48-byte packets of type 2 with a valid header, and reads each field from its bytes |
| WireLayout.HeartbeatLayout | rtthread_port/rtt_chassis_bridge.c:131-142 | the bytes of a heartbeat |
| WireLayout.CurrentLayout | rtthread_port/rtt_chassis_bridge.c:144-163 | the bytes of a current command |
| ProxyObject.CanProxy.constructor | tools/can_proxy.c:474-487 | zeroed state, default timeout |
| ProxyObject.CanProxy.DrainFeedback | tools/can_proxy.c:222-245 | the drain stores every valid frame and its stamp in order |
| ProxyObject.CanProxy.HandleDatagram | tools/can_proxy.c:337-380 | one datagram: refused, remembered, stop, or clamped command, with the counters |
| ProxyObject.CanProxy.ReceiveUdp | tools/can_proxy.c:309-382 | the drain handles the queued datagrams in order |
| ProxyObject.CanProxy.OnlineMaskNow | tools/can_proxy.c:247-258 | the loop computes the four-bit mask |
| ProxyObject.CanProxy.WriteState | tools/can_proxy.c:267-290 | the buffer filled field by field is the encoded snapshot |
| ProxyObject.CanProxy.SendChassisState | tools/can_proxy.c:260-300 | no effect without a peer, else one packet and one sequence number |
| ProxyObject.CanProxy.CheckWindow | tools/can_proxy.c:495-508 | open window: rate-limited frame handed to the bus; closed window: command cleared |
| ProxyObject.CanProxy.LoopTurn | tools/can_proxy.c:489-514 | one turn: drains, window, publish attempt |
| ProxyObject.CanProxy.MainLoop | tools/can_proxy.c:489-523 | the loop hands over exactly the modelled frames and packets |
| ProxyObject.CanProxy.SendZeroCurrent | tools/can_proxy.c:212-220 | twenty zero payloads handed to the bus at shutdown |
| ProxyHistory.RunHolds | tools/can_proxy.c:309-508 | at every send point the held command is the clamped payload of the last stop-or-command datagram if that is an allowed command with a non-zero stamp inside its own timeout, else zero |
| ProxyHistory.FramesAreDue | tools/can_proxy.c:495-504 | every frame ever handed to the bus decodes to the command due in the turn that sent it |
| ProxyHistory.ClosedStaysClosed | tools/can_proxy.c:495-508 | a command not in force never comes back without a new command |
| ProxyHistory.RunSlots | tools/can_proxy.c:222-245 | the feedback slots are the fold of the CAN log and the stamps agree with them |
| ProxyHistory.PublishedAreDescribed | tools/can_proxy.c:260-290 | every published state is the description of some turn's raw inputs: last speeds, due command, freshness mask, zero targets and faults |
| ProxyHistory.MaskBits | tools/can_proxy.c:247-258 | bit i - 1 is set iff motor i's stamp is not zero and at most 200 ms back modulo 2^64; no other bit is set |
| ProxyHistory.ClampLaw | tools/can_proxy.c:192-203 | a value within a non-negative limit is kept, one beyond it becomes the bound it passes; under a negative limit what is left is the passed bound cut to 16 bits |
| ProxyHistory.ClampWithin | tools/can_proxy.c:192-203 | no clamped current exceeds the limit's magnitude, whatever its sign and the casts |
| ProxyHistory.ClampBoundsIff | tools/can_proxy.c:192-203 | clamped currents respect the limit for all values if and only if it is not negative |
| ProxyHistory.ZeroSurvivesIff | tools/can_proxy.c:192-203 | the limits under which a zero command stays zero |
| ProxyHistory.FreshnessAgreesIff | tools/can_proxy.c:247-258 | the wrapping test and the saturating test agree exactly when the stamp is not slightly in the future |
| ProxyRates.FrameRate | tools/can_proxy.c:499-503 | n current frames span at least 10 (n - 1) ms |
| ProxyRates.AttemptRate | tools/can_proxy.c:510-514 | n publish attempts span at least 20 (n - 1) ms |
| ProxyRates.SendsIff | tools/can_proxy.c:495-508 | a turn sends a frame if and only if the last current command is in force and 10 ms have passed since the last frame |
| ProxyLaws.OrderLaw | tools/can_proxy.c:337-380 | which datagrams are emergency stops and current commands, byte by byte and after the cut to 128 bytes, and the four currents and the timeout a command carries |
| ProxyLaws.FramesCarryPayload | tools/can_proxy.c:354-504 | every frame decodes, motor by motor, to the payload of the last order before it brought within the limit while that order is in force, and to zero otherwise |
| ProxyLaws.PeerRefines | tools/can_proxy.c:302-346 | the peer and its time are those of the last datagram with a valid header |
| ProxyLaws.PublishesIff | tools/can_proxy.c:510-514 | a turn attempts to publish iff 20 ms have passed since the last attempt, and publishes iff moreover some datagram had a valid header; what it publishes and to whom |
| ProxyLaws.PublishedLayout | tools/can_proxy.c:260-290 | the bytes of a published state |
| ProxyLaws.RunCounts | tools/can_proxy.c:337-380 | the three counters count the heartbeats, the current commands and the refused datagrams, modulo 2^64 |
| ProxyRates.SequenceNumbers | tools/can_proxy.c:268-273 | the k-th published state carries k modulo 2^32 |
| ProxyPromises.FeedbackGatesIff | tools/can_proxy.c:489-508 | every frame of every run is zero or sent in a turn with all four motors fresh, if and only if currents are not allowed or the limit lets none through |
| ProxyPromises.StopLatchesIff | tools/can_proxy.c:350-380 | in every run the command held at any time after an emergency stop is zero, if and only if currents are not allowed or the limit lets none through |
| ProxyPromises.StopHoldsUntilCommand | tools/can_proxy.c:350-380 | whatever the options, a stop holds zero until the next well-formed current command |
| ProxyPromises.ReceiveIgnoresUnchecked | tools/can_proxy.c:309-382 | a datagram's effect does not depend on its header's sequence number, time or flags |
| ProxyPromises.RunIgnoresUnchecked | tools/can_proxy.c:309-514 | runs whose datagrams differ only there have the same state, frames and packets |
| ProxyPromises.ReplayIsFresh | tools/can_proxy.c:355-379 | a current command that arrives last in a turn, however often received before, is the one in force as of that turn |
| ProxyPromises.JustHeardIsPublishedOffline | tools/can_proxy.c:247-258 | a motor whose frame is stamped after the turn's clock sample is published offline though it has just been heard |
| BridgeObject.RttBridge.ParseChassisState | rtthread_port/rtt_chassis_bridge.c:98-129 | the in-place parse accepts what the parser accepts and otherwise leaves the state alone |
| BridgeObject.RttBridge.SendHeartbeat | rtthread_port/rtt_chassis_bridge.c:131-142 | one heartbeat packet with the next sequence number |
| BridgeObject.RttBridge.SendZeroCurrentCommand | rtthread_port/rtt_chassis_bridge.c:144-163 | one command packet for four zeros and 100 ms |
| BridgeObject.RttBridge.RunOnce | rtthread_port/rtt_chassis_bridge.c:221-244 | one cycle: two packets, then the drain up to an empty datagram |
| TwoNodes.NoFabrication | rtthread_port/rtt_chassis_bridge.c:221-244 | under any delivery and any other senders to either node, the bridge's state is zero, one the proxy published, or the parse of a datagram another sender sent it |
| BridgeModel.CycleKeepsNewest | rtthread_port/rtt_chassis_bridge.c:221-244 | a cycle ends with the last state among the datagrams before the first empty one, the old state if there is none, counts them all and uses two sequence numbers |
| TwoNodes.BridgeHoldsNewest | rtthread_port/rtt_chassis_bridge.c:221-244 | over whole runs the bridge holds the newest state it has read and has counted them all modulo 2^32 |
| TwoNodes.LastDeliveryWins | rtthread_port/rtt_chassis_bridge.c:231-244 | when the last datagram of a cycle is one the proxy sent and none is empty, the bridge ends with exactly the state it published |
| TwoNodes.PublishedCanArrive | rtthread_port/rtt_chassis_bridge.c:231-244 | every state ever published to the bridge has a packet whose delivery alone brings the bridge to exactly that state |
| TwoNodes.BridgeSendsInTurn | rtthread_port/rtt_chassis_bridge.c:131-163 | the i-th packet the bridge ever sends carries sequence i modulo 2^32; heartbeats and commands for four zeros and 100 ms alternate, byte by byte |
| TwoNodes.BridgeSeesThePast | rtthread_port/rtt_chassis_bridge.c:221-244 | end to end: a state that is neither zero nor from another sender describes the raw inputs of some prefix of the proxy's turns |
| TwoNodes.BridgeStaysPlausible | tools/can_proxy.c:260-300 | whatever the limit, unless another sender says otherwise the bridge only sees currents within its magnitude, a four-bit mask, zero targets and zero faults |
| StageOne.StageOneIsZeroIff | rtthread_port/rtt_chassis_bridge.c:144-163 | with the bridge as the proxy's only sender every frame decodes to zeros under any delivery if and only if currents are not allowed or the limit lets a zero through the clamp |

## Left out

- IEEE rounding, NaN and infinity: `sscanf("%f")` accepts NaN and the clamps pass it on; the model takes finite reals, so float rounding of sums, products and millisecond conversions is not captured.
- Null-pointer checks, except the missing configuration of `chassis_init`: references in the model are never null.
- System calls: sockets, poll, signals and sleeping become input queues, clock readings and output logs. A receive error other than an empty queue ends a drain like an empty queue does.
- `src/socketcan.c`: frame logs hold identifiers after its 11-bit mask and whole eight-byte buffers.
- Text parsing of velocity lines and arguments: the daemon model starts from a parsed triple or a refused line.
- WireFormat.WriteHeader: the two C files carry textually equal read, write and header primitives, which are modelled once; the packet writers and parsers of each side are separate.
- WireFormat.ParseHeader: a function with an optional result instead of an out-parameter that is also filled for refused packets, which no caller reads.
- BridgeObject.RttBridge.RunOnce: datagrams queued behind an empty one are left to later deliveries by the network instead of staying in the socket.
- ProxyObject.CanProxy.SendCurrents: the proxy ignores failing CAN writes, so its frame log, and every theorem about it, is of what was handed to the bus.
- ProxyObject.CanProxy.SendZeroCurrent: for the same reason twenty attempts, not twenty frames on the bus.
- DaemonObject.Daemon.Loop: the statistics counters, status lines and CSV log are not modelled; nothing reads them but the log.
- ProxyHistory.ZeroSurvivesIff: the limit INT_MIN, whose negation overflows, is excluded.
- ChassisSymmetry.ReversedRun: speeds of -32768 are excluded, since int16 holds no opposite.
- Timing between the two nodes, thread priorities and socket retries of the bridge: cycles and turns interleave freely.
- `tools/chassis_velocity.c`, `tools/test_chassis_command.c`, `tools/test_chassis_keyboard.c` and the bench tools: the same core behind other front ends.
- The echo and tuning scripts, shell scripts and service units: no control logic.
- Velocity-command messages of the bridge protocol: declared, handled by no code.
- Convergence of the motors: the repository has no plant model.
