# Verification of the virtual drive simulator

This Dafny project models one virtual CiA 402 drive axis end to end, the concurrent boundary
that isolates it from the fieldbus process, and the supporting cores that keep its time,
its object dictionary and its snapshots. `dafny verify dfyconfig.toml` checks all of it.

**Servo.** `ServoSpec` gives one update of the F-KR servo as functions on a value (five modes,
object dictionary commands, device reset, state machine, statusword); `Servo` is the object that
updates in place and is proved to follow them. `ServoInvariants`, `VelocityCap`, `Approach`,
`PointToPoint`, `Jog` and `Homing` prove what holds over all runs: rest and reference gating, a
velocity cap, exact arrival of a positioning move, a jog overshoot bound, the homing time.
`Motion`, `CspTracking` and `VelocityModes` say which way and how fast the other modes move the
axis and what they reach, `ServoCommands` and `TargetWindow` what resets, targets, modes and
controlwords achieve and when a target counts as reached.
Positions and velocities are reals, the elapsed time of each cycle is a parameter.

**Interlock.** `FaultGuard` is the six-phase guard, `AxisRuntime` the request dispatch around an
arbitrary adapter (any state type, any total behaviour, including rejections and exceptions).
`Recovery` proves for every adapter the honest fault bit, the restart latch and the grammar of
recovery; `NormalOperation` what a healthy cycle, idle or object access does, for every adapter,
and that a run of them is a run of the servo, up to a positioning move from payload to image;
`RecoveryCompletes` that the recovery sequence brings the axis back. `FKrAdapter` and `FKrAxis`
put the servo behind the guard: the axis is frozen from the adapter fault to the return to normal,
whatever PDOs, SDO writes, idles or device resets arrive.

**Model host boundary.** `AsyncClient` has the queue, the worker, the promises and the latched
failure as atomic steps under every interleaving, and `AsyncProgress` the service every request
gets while nothing fails; `Host` and `HostProgress` add the pump and the submissions of the main
loop, `HexCodec` its text encoding, `SdoGateway` and `SdoProgress` the SDO mirror on the same client.

**Supporting cores.** `FmuTime` (sub-stepping against host time), `RoleIndex` (index against
linear scan), `Codec` and `OctetValues` (fixed-width integers), `FileSystem`, `ParameterStore`,
`Migration` and `Fleet` (snapshots against crashes).

Some promises turned out to hold under a condition only, and are stated as an if-and-only-if:

- A positioning move arrives exactly when it is inside the window already or has a positive
  velocity limit and a positive acceleration (`PointToPoint.MoveArrivesExactlyWhenDriven`).
- A snapshot loads exactly when it is a document without one of the named faults
  (`ParameterStore.LoadsUnlessFaulty`).
- A saved snapshot loads again exactly when every float in it is finite: a non-finite 0x2183:0C
  is accepted over SDO and saved, and then refused (`ParameterStore.SavedLoadsExactlyWhenFinite`).
- A crash during a migration never loses the original exactly when a backup that was found at the
  start had reached the disk, or the replacement is not reached: an equal backup is reused without
  synchronising it again (`Migration.CrashKeepsOriginal`, `Migration.RetryAfterFailedSync`).
- The client's failure latch works exactly when the cause has a text (`AsyncClient.LatchNeedsAText`);
  every exception the model client throws has one.

Where code and convention differ the model follows the code: Disable Voltage takes the servo's
state machine out of Fault without a fault reset (state_machine.py:30-32), and the machine never
enters Fault by itself, so a drive-reported fault arises only with another adapter. A deceleration
is not needed for a positioning move to arrive, because the target is clamped when it is passed.

## Model

| member | source | states |
|---|---|---|
| StateMachine.EnabledOnlyUpTheLadder | src/functional_model/cia402_drive/behaviour_model/f_kr_cmmt/state_machine.py:22-81 | Over any word sequence, a rung is reached only after the words of all lower rungs arrived in order |
| ServoCommands.LadderEnables | src/functional_model/cia402_drive/behaviour_model/f_kr_cmmt/state_machine.py:22-81 | Shutdown, Switch On and Enable Operation, each with its own bits, enable a drive that was switched off |
| ServoCommands.StateFollowsWords | src/functional_model/cia402_drive/behaviour_model/f_kr_cmmt/servo_model.py:215-223 | Over any run without a reset command the servo stands exactly where the controlwords of its cycles put the state machine; no SDO write, mode or target moves it |
| StateMachine.CiA402StateMachine.Process | src/functional_model/cia402_drive/behaviour_model/f_kr_cmmt/state_machine.py:22-81 | The object follows the transition function |
| StateMachine.CiA402StateMachine.GetStatusword | src/functional_model/cia402_drive/behaviour_model/f_kr_cmmt/state_machine.py:83-97 | 0x0027 is shown exactly in Operation Enabled |
| ServoObject.VirtualCiA402Servo.ModelUpdate | src/functional_model/cia402_drive/behaviour_model/f_kr_cmmt/servo_model.py:93-95 | One update is the object dictionary commands followed by the cycle; the whole new state is stated |
| ServoObject.VirtualCiA402Servo.ApplyOdCommands | src/functional_model/cia402_drive/behaviour_model/f_kr_cmmt/servo_model.py:44-74 | Reset and save commands act on their edge to 1, then mode and target changes are applied in this order |
| ServoObject.VirtualCiA402Servo.ApplyDeviceReset | src/functional_model/cia402_drive/behaviour_model/f_kr_cmmt/servo_model.py:76-88 | A device reset restores configuration and PDO defaults, which zeroes the controlword, and keeps the position |
| ServoObject.VirtualCiA402Servo.ChangeMode | src/functional_model/cia402_drive/behaviour_model/f_kr_cmmt/servo_model.py:97-111 | A mode change stops the axis, and cancels a homing run unless the new mode is homing |
| ServoObject.VirtualCiA402Servo.ChangeTarget | src/functional_model/cia402_drive/behaviour_model/f_kr_cmmt/servo_model.py:113-140 | A target is undone without reference, refused with a stop outside the limits, taken otherwise |
| ServoObject.VirtualCiA402Servo.SoftwarePositionLimits | src/functional_model/cia402_drive/behaviour_model/f_kr_cmmt/servo_model.py:586-591 | The two limits in order, whichever way they are configured |
| ServoObject.VirtualCiA402Servo.Stop | src/functional_model/cia402_drive/behaviour_model/f_kr_cmmt/servo_model.py:170-183 | The stop holds the position with velocity zero, no move and the target at the position |
| ServoObject.VirtualCiA402Servo.UpdateWindow | src/functional_model/cia402_drive/behaviour_model/f_kr_cmmt/servo_model.py:194-206 | Target reached is latched after the configured number of cycles inside the window |
| ServoObject.VirtualCiA402Servo.ProcessCycle | src/functional_model/cia402_drive/behaviour_model/f_kr_cmmt/servo_model.py:215-255 | State machine, stop on leaving Operation Enabled, mode, statusword |
| ServoObject.VirtualCiA402Servo.ComposeStatusword | src/functional_model/cia402_drive/behaviour_model/f_kr_cmmt/servo_model.py:238-252 | The statusword bits |
| ServoObject.VirtualCiA402Servo.ProcessHomingMode | src/functional_model/cia402_drive/behaviour_model/f_kr_cmmt/servo_model.py:261-297 | A start edge arms the countdown; its end sets reference and position zero |
| ServoObject.VirtualCiA402Servo.DecelerateToStop | src/functional_model/cia402_drive/behaviour_model/f_kr_cmmt/servo_model.py:418-428 | One cycle of the stopping ramp |
| ServoObject.VirtualCiA402Servo.ProcessProfilePosition | src/functional_model/cia402_drive/behaviour_model/f_kr_cmmt/servo_model.py:299-344 | Halt, missing reference, rejected set-point, new set-point, move |
| ServoObject.VirtualCiA402Servo.RunProfile | src/functional_model/cia402_drive/behaviour_model/f_kr_cmmt/servo_model.py:346-416 | One cycle of the positioning profile with its braking decision and target clamp |
| ServoObject.VirtualCiA402Servo.SideLimit | src/functional_model/cia402_drive/behaviour_model/f_kr_cmmt/servo_model.py:347-353 | The velocity limit depends on the side of the target |
| ServoObject.VirtualCiA402Servo.ProcessProfileVelocity | src/functional_model/cia402_drive/behaviour_model/f_kr_cmmt/servo_model.py:484-516 | One cycle of profile velocity |
| ServoObject.VirtualCiA402Servo.ProcessJogMode | src/functional_model/cia402_drive/behaviour_model/f_kr_cmmt/servo_model.py:522-553 | One cycle of jogging |
| ServoObject.VirtualCiA402Servo.JogDemand | src/functional_model/cia402_drive/behaviour_model/f_kr_cmmt/servo_model.py:555-584 | Jog direction, speed factor and the software limit that closes one direction |
| ServoObject.VirtualCiA402Servo.ProcessCyclicPosition | src/functional_model/cia402_drive/behaviour_model/f_kr_cmmt/servo_model.py:622-683 | One cycle of the position loop; in charge of the velocity, it pursues the one towards the target and moves the position with it |
| ServoObject.VirtualCiA402Servo.FollowDemand | src/functional_model/cia402_drive/behaviour_model/f_kr_cmmt/servo_model.py:652-677 | Demand and velocity change are both clamped |
| ServoInvariants.InitialInv | src/functional_model/cia402_drive/behaviour_model/f_kr_cmmt/servo_model.py:6-42 | The initial state satisfies the servo invariant |
| ServoInvariants.StepKeepsInv | src/functional_model/cia402_drive/behaviour_model/f_kr_cmmt/servo_model.py:44-111 | Every PDO cycle, SDO write and device reset keeps: at rest unless Operation Enabled; no positioning motion without reference; truthful feedback and status |
| ServoInvariants.ReachableInv | src/functional_model/cia402_drive/behaviour_model/f_kr_cmmt/servo_model.py:93-255 | The invariant holds in every reachable state |
| ServoInvariants.NotEnabledHoldsPosition | src/functional_model/cia402_drive/behaviour_model/f_kr_cmmt/servo_model.py:215-236 | An update that ends outside Operation Enabled has not moved the axis and leaves it at rest |
| ServoInvariants.EnablingHoldsPosition | src/functional_model/cia402_drive/behaviour_model/f_kr_cmmt/servo_model.py:299-344 | The update that enables in mode 1 with bit 4 low does not move the axis |
| ServoInvariants.ResetDisables | src/functional_model/cia402_drive/behaviour_model/f_kr_cmmt/servo_model.py:76-88 | A device reset in an update switches the drive off in the same update |
| ServoInvariants.UnreferencedAxisStaysPut | src/functional_model/cia402_drive/behaviour_model/f_kr_cmmt/servo_model.py:113-123 | Until a homing run, no run of PP or CSP commands, SDO writes and resets moves an unreferenced axis |
| ServoInvariants.StatusTells | src/functional_model/cia402_drive/behaviour_model/f_kr_cmmt/servo_model.py:238-252 | Each status flag on its own bit, and the fault bit only for Fault or a homing error |
| ServoCommands.ResetTakesEffect | src/functional_model/cia402_drive/behaviour_model/f_kr_cmmt/servo_model.py:44-88 | A new device reset restores the preset configuration, switches the drive off and leaves the axis at rest where it was, referenced if it was; it acts once |
| ServoCommands.TargetIsRefused | src/functional_model/cia402_drive/behaviour_model/f_kr_cmmt/servo_model.py:120-125 | A target outside the software limits stops the axis where it is, which becomes its target, and shows on both limit bits of the statusword |
| ServoCommands.TargetIsUndone | src/functional_model/cia402_drive/behaviour_model/f_kr_cmmt/servo_model.py:113-118 | Without reference a new positioning target is taken back and the axis stays |
| ServoCommands.SetPointIsAcknowledged | src/functional_model/cia402_drive/behaviour_model/f_kr_cmmt/servo_model.py:319-338 | In profile position mode bit 12 of the statusword follows bit 4 of the controlword, unless the drive halts or refuses its target |
| ServoCommands.ModeChangeStops | src/functional_model/cia402_drive/behaviour_model/f_kr_cmmt/servo_model.py:97-111 | A new mode is shown on the mode display and starts with the axis at rest and no move or homing run left over |
| ServoCommands.SaveReports | src/functional_model/cia402_drive/behaviour_model/f_kr_cmmt/servo_model.py:53-61 | A new save command reports success in its status, return code and return value |
| TargetWindow.ReachedExactlyAfterStreak | src/functional_model/cia402_drive/behaviour_model/f_kr_cmmt/servo_model.py:185-206 | In both positioning modes, from a new target on: target reached is set if and only if the last cycles, as many as the window time asks for, all ended inside the window |
| TargetWindow.CountsFit | src/functional_model/cia402_drive/behaviour_model/f_kr_cmmt/servo_model.py:203-206 | The window count is the number of cycles that fit into the window time, at least one, and the homing count the same for a tenth of a second |
| Kinematics.ScaleIsPower | src/functional_model/cia402_drive/behaviour_model/f_kr_cmmt/servo_model.py:444-461 | A unit exponent scales by the power of ten of its magnitude, down to 1e-12 |
| VelocityCap.SpeedNeverExceedsLimits | src/functional_model/cia402_drive/behaviour_model/f_kr_cmmt/servo_model.py:484-494 | While both limits stay positive and within a bound, the speed stays within it under any sequence of modes, halts, retargets, disables, homings and resets |
| Approach.SignedStepIsApproach | src/functional_model/cia402_drive/behaviour_model/f_kr_cmmt/servo_model.py:359-413 | A positioning cycle in either direction is one step of a direction-free approach |
| Approach.ApproachStaysInside | src/functional_model/cia402_drive/behaviour_model/f_kr_cmmt/servo_model.py:385-413 | A cycle never crosses the target, never grows the distance, keeps the speed in range |
| Approach.RankDrops | src/functional_model/cia402_drive/behaviour_model/f_kr_cmmt/servo_model.py:340-416 | Every driven cycle arrives or lowers the measure of remaining distance and remaining brake cycles |
| PointToPoint.SetPointStartsMove | src/functional_model/cia402_drive/behaviour_model/f_kr_cmmt/servo_model.py:299-344 | A new set-point on a resting axis starts a move towards exactly the commanded target, already inside its envelope |
| PointToPoint.SetPointArrives | src/functional_model/cia402_drive/behaviour_model/f_kr_cmmt/servo_model.py:299-438 | From the set-point edge, with positive profile velocity and acceleration, the drive arrives exactly at the commanded target and the move is over |
| PointToPoint.MoveStaysInEnvelope | src/functional_model/cia402_drive/behaviour_model/f_kr_cmmt/servo_model.py:346-416 | During a move the position stays between start and target and the speed between zero and the limit |
| PointToPoint.MoveArrives | src/functional_model/cia402_drive/behaviour_model/f_kr_cmmt/servo_model.py:340-416 | With velocity limit and acceleration the move ends exactly at its target within a number of cycles computed beforehand |
| PointToPoint.MoveStuck | src/functional_model/cia402_drive/behaviour_model/f_kr_cmmt/servo_model.py:385-413 | Without either of them a resting move outside the window never takes a step |
| PointToPoint.MoveArrivesExactlyWhenDriven | src/functional_model/cia402_drive/behaviour_model/f_kr_cmmt/servo_model.py:340-438 | From rest: arrival if and only if inside the window already, or velocity limit and acceleration are both positive; no deceleration is needed |
| Motion.CspCycle | src/functional_model/cia402_drive/behaviour_model/f_kr_cmmt/servo_model.py:639-677 | One CSP cycle of an enabled, referenced drive without halt: the velocity pursues the one towards the target, at the smaller of the limit of that side and the loop speed, as far as the ramp reaches, and the position follows the velocity |
| Motion.CspFromRest | src/functional_model/cia402_drive/behaviour_model/f_kr_cmmt/servo_model.py:639-677 | From rest CSP moves towards its target and nowhere else: at the least of side limit, loop speed and acceleration ramp, really moving when limit and acceleration are positive, and not at all on the target |
| Motion.CspNeverTurnsAway | src/functional_model/cia402_drive/behaviour_model/f_kr_cmmt/servo_model.py:652-672 | Whatever its velocity, CSP never changes it away from the clamped demand, which never points away from the target |
| CspTracking.CspConverges | src/functional_model/cia402_drive/behaviour_model/f_kr_cmmt/servo_model.py:650-677 | Once the velocity follows the loop, below the limits and with a deceleration that keeps up: after n equal cycles the error is exactly (1 - gain*dt)^n of what it was, on the same side of the target |
| VelocityModes.PvCycle | src/functional_model/cia402_drive/behaviour_model/f_kr_cmmt/servo_model.py:488-516 | A profile velocity cycle goes after its command, capped by the limit of its direction, and target reached tells when it is there |
| VelocityModes.CommandIsReached | src/functional_model/cia402_drive/behaviour_model/f_kr_cmmt/servo_model.py:484-516 | Over a run: profile velocity reaches its capped command exactly, and halt brings the axis to rest in every mode, after no more cycles than the ramp needs for the difference |
| VelocityModes.HaltCycle | src/functional_model/cia402_drive/behaviour_model/f_kr_cmmt/servo_model.py:303-309 | A halted cycle goes after velocity zero with the deceleration, in all four modes that can have a velocity, and ends a positioning move |
| VelocityModes.JogCycle | src/functional_model/cia402_drive/behaviour_model/f_kr_cmmt/servo_model.py:526-584 | A jog cycle goes after the least configured limit times 1, 0.25 or 0.5 by bits 12 and 11, forwards for bit 4 and backwards for bit 5 alone, and after zero at the software limit of that side |
| VelocityModes.JogMoves | src/functional_model/cia402_drive/behaviour_model/f_kr_cmmt/servo_model.py:526-584 | From rest the direction bit moves the axis its way at once; both or none of them, or the limit on that side, leave it where it is |
| Jog.PotentialIsKept | src/functional_model/cia402_drive/behaviour_model/f_kr_cmmt/servo_model.py:430-438 | One cycle does not raise position plus braking path above its bound: the potential argument of the overshoot bound |
| Jog.JogRunIsSafe | src/functional_model/cia402_drive/behaviour_model/f_kr_cmmt/servo_model.py:522-584 | Along a run of jog cycles the potential stays below its bound on both sides |
| Jog.JogOvershootIsBounded | src/functional_model/cia402_drive/behaviour_model/f_kr_cmmt/servo_model.py:522-584 | Entered at rest inside the limits, jogging passes a limit by at most one cycle at full speed plus a braking path |
| HomingRun.HomingTakesExactly | src/functional_model/cia402_drive/behaviour_model/f_kr_cmmt/servo_model.py:261-297 | A homing run takes exactly max(1, floor(0.1/dt)) enabled cycles from its start edge, before which nothing is referenced and after which the axis is referenced at zero |
| FaultGuard.AxisFault.DetectFault | src/functional_model/diagnostics/fault.py:44-59 | First fault is kept, a later restart cause escalates it, the phase is fault |
| FaultGuard.AxisFault.PreparePdo | src/functional_model/diagnostics/fault.py:61-89 | In normal operation the payload goes through unchanged; a reset edge forwards the bare reset bit and its release zero; every other phase forwards, masks or blocks as its function says |
| FaultGuard.AxisFault.AcceptOutput | src/functional_model/diagnostics/fault.py:91-112 | Fault bit, acknowledgement and verification of a reset |
| FaultGuard.AxisFault.ResponseImage | src/functional_model/diagnostics/fault.py:114-118 | The pending fault is projected onto the statusword only |
| AxisRuntime.Model.Serve | src/functional_model/runtime/axis.py:73-133 | A request is served as the dispatch function says: new state, reply, and the exact adapter calls |
| AxisRuntime.Model.ServeObject | src/functional_model/runtime/axis.py:76-98 | Object access: guarded statusword, restart abort, storage errors of a save, latching failures |
| AxisRuntime.Model.ServeCycle | src/functional_model/runtime/axis.py:100-133 | A cycle: length check, interlock, reset with or without disabling first |
| AxisRuntime.Model.DisableThenExchange | src/functional_model/runtime/axis.py:110-115 | After a rejected PDO the model is disabled before the reset pulse |
| AxisRuntime.Model.ExchangePdo | src/functional_model/runtime/axis.py:164-190 | Elapsed time, the gap check, apply, step and read |
| AxisRuntime.Model.ServeIdle | src/functional_model/runtime/axis.py:117-121 | An idle request reads inputs in normal phase only |
| AxisRuntime.DispatchKeepsReady | src/functional_model/runtime/axis.py:121-133 | No request changes the length of the process image |
| NormalOperation.NormalCycle | src/functional_model/runtime/axis.py:164-191 | For any adapter: a cycle in normal operation whose calls succeed hands over exactly the payload of the request, steps once by the elapsed time, reads once, and publishes exactly the image that was read |
| NormalOperation.NormalCycleFails | src/functional_model/runtime/axis.py:98-133 | For any adapter: whatever goes wrong in such a cycle ends it there, with no later call, and the pending fault and the reply tell which of the four causes it was |
| NormalOperation.NormalIdle | src/functional_model/runtime/axis.py:192-194 | For any adapter: an idle request in normal operation reads once and publishes the image; the next cycle counts as a first one |
| NormalOperation.ObjectIsServed | src/functional_model/runtime/axis.py:73-98 | For any adapter: unless a restart is required every object access but the guarded statusword reaches the adapter once, and its answer the master |
| NormalOperation.NormalRun | src/functional_model/runtime/axis.py:164-191 | A run of cycles in time and accepted SDO writes is a run of the servo on the decoded process data, and stays in normal operation |
| NormalOperation.NormalReplies | src/functional_model/runtime/axis.py:131-133 | Every cycle of such a run publishes the image of the servo right after it, every write is confirmed |
| NormalOperation.MoveOverTheWire | src/functional_model/runtime/axis.py:164-191 | A master that sends a set-point and holds it gets the axis to the 32-bit target in its payload, at rest, and reads exactly this target back as actual position |
| Recovery.AcceptKeepsInv | src/functional_model/diagnostics/fault.py:91-112 | A fault is pending exactly in the phases fault and verify_reset, and is resolved only after acknowledgement |
| Recovery.DispatchIsHonest | src/functional_model/runtime/axis.py:73-133 | For any adapter: every cycle or idle reply shows the fault bit exactly when a fault is pending |
| Recovery.RunIsHonest | src/functional_model/runtime/axis.py:73-133 | The same for every reply of every run |
| Recovery.RestartIsForever | src/functional_model/runtime/axis.py:76-98 | Once a restart is required, no later request sequence reaches the adapter and the phase stays fault |
| Recovery.OneRankAtATime | src/functional_model/diagnostics/fault.py:61-112 | Outside normal a request falls back to fault, keeps the phase, or advances it by one with exactly the request that phase asks for |
| Recovery.RecoveryGrammar | src/functional_model/diagnostics/fault.py:61-112 | From a fault back to normal a run contains, in order, a rising reset forwarded as 0x0080, a released reset forwarded as 0, and words masking to 6, 7 and 15 with bit 4 low in mode 1, each answered without fault |
| Recovery.NoEnableWithBit4 | src/functional_model/diagnostics/fault.py:61-89 | A cycle begun outside normal never forwards Enable Operation together with bit 4 |
| RecoveryCompletes.RecoverySucceeds | src/functional_model/diagnostics/fault.py:61-112 | After a rejected command, reset, release, Shutdown, Switch On and Enable Operation in time bring the axis back: normal, without fault, enabled, at rest exactly where it was, its image published |
| RecoveryCompletes.UpdateConsumesReset | src/functional_model/cia402_drive/behaviour_model/f_kr_cmmt/servo_model.py:44-51 | Every update takes a waiting device reset command with it |
| FKrAdapter.MappingIsPositional | src/functional_model/cia402_drive/profile/bridge.py:27-45 | Writing the mapped objects one after another is the record at fixed offsets |
| FKrAdapter.RecordIsRead | src/functional_model/cia402_drive/profile/bridge.py:27-45 | The record a master encodes object by object is exactly what the servo reads |
| FKrAdapter.ImageTellsTx | src/functional_model/cia402_drive/profile/bridge.py:47-60 | The TxPDO decodes to statusword, mode and truncated position and velocity; it exists exactly when all fit |
| FKrAdapter.FKrCmmtAdapter.ApplyOutputs | src/functional_model/cia402_drive/adapter/f_kr_cmmt.py:32-40 | Length and mode are checked before the first object is written; a rejected payload changes nothing |
| FKrAdapter.FKrCmmtAdapter.WriteOutputs | src/functional_model/cia402_drive/profile/bridge.py:27-45 | The mapping loop leaves exactly the decoded record |
| FKrAdapter.FKrCmmtAdapter.ReadPdo | src/functional_model/cia402_drive/profile/bridge.py:47-60 | The encoding loop builds exactly the process image, or fails with the first object that does not fit |
| FKrAdapter.FKrCmmtAdapter.Step | src/functional_model/cia402_drive/adapter/f_kr_cmmt.py:42-44 | A step sets the cycle time and updates the model; without elapsed time it raises exactly where the update divides by it |
| FKrAxis.InitialIsSafe | src/functional_model/runtime/axis.py:36-41 | A new axis satisfies the invariant of interlock and servo together |
| FKrAxis.UpdateFollowsWord | src/functional_model/cia402_drive/behaviour_model/f_kr_cmmt/servo_model.py:215-236 | An update follows the forwarded controlword, or the zero of a device reset; not enabled means not moved |
| FKrAxis.RecoveryWordHolds | src/functional_model/diagnostics/fault.py:78-89 | Each recovery word leaves the state machine no further along than the phase, and moves nothing |
| FKrAxis.RequestStandsStill | src/functional_model/runtime/axis.py:98-133 | Outside normal no request moves the axis, not even the one that returns to normal, which finds it at rest |
| FKrAxis.NormalRequest | src/functional_model/runtime/axis.py:100-133 | In normal operation the invariant is kept, and a request that raises a fault without restart has not moved the axis |
| FKrAxis.RunKeepsSafe | src/functional_model/runtime/axis.py:73-133 | State machine never further along than the phase: for every run |
| FKrAxis.RaisesExactlyOnRejection | src/functional_model/cia402_drive/adapter/f_kr_cmmt.py:22-25 | An adapter fault is raised exactly by a cycle of the wrong length, or one in time with an unsupported mode |
| FKrAxis.FrozenAcrossRecovery | src/functional_model/runtime/axis.py:98-133 | From the cycle that raises the adapter fault up to the cycle that returns to normal the position never changes, and the axis re-enters normal at rest |
| FKrAxis.RunHidesEnabled | src/functional_model/runtime/axis.py:131-133 | No response of a run shows Operation Enabled unless the phase is normal |
| Codec.DecodeEncoded | src/functional_model/cia402_drive/profile/codec.py:28-68 | A value encodes exactly when it is in range, and decodes to itself whatever follows |
| Codec.EncodeDecoded | src/functional_model/cia402_drive/profile/codec.py:55-68 | Octets survive decoding and encoding |
| AsyncClient.NextKeepsInv | src/ethercat_slave/ipc/async_model_client.h:20-55 | Every atomic step of worker and submitters keeps the client invariant |
| AsyncClient.EveryInterleaving | src/ethercat_slave/ipc/async_model_client.h:20-55 | Under every interleaving: at most 64 queued, each job in exactly one place, none settled twice, valued jobs a prefix of the accepted ones in submission order |
| AsyncClient.OutcomesAreFinal | src/ethercat_slave/ipc/async_model_client.h:31-38 | A settled promise keeps its outcome |
| AsyncClient.FailureReachesEveryJob | src/ethercat_slave/ipc/async_model_client.h:31-39 | From a failing promise on nothing gets a value any more, and in every latched state every job ever submitted is settled, also those slipped in before the latch |
| AsyncClient.LatchNeedsAText | src/ethercat_slave/ipc/async_model_client.h:34-54 | The latch works if and only if the cause has a text; with an empty one the next job stays open until destruction |
| AsyncClient.DestroyedSettlesAll | src/ethercat_slave/ipc/async_model_client.h:41-44 | Destruction leaves no promise open |
| AsyncProgress.EveryRequestIsServed | src/ethercat_slave/ipc/async_model_client.h:20-33 | Up to 64 requests to a connected client with an empty queue are answered: the i-th with the i-th response, in order, and nothing else happens |
| AsyncProgress.RoundsServeQueue | src/ethercat_slave/ipc/async_model_client.h:23-33 | From any idle state, rounds of the worker loop serve the queue from its front |
| AsyncProgress.FailureBreaksEverything | src/ethercat_slave/ipc/async_model_client.h:31-39 | A failing request breaks its own promise, latches the cause, and breaks every queued one, in order |
| AsyncProgress.ConnectionFailureLatches | src/ethercat_slave/ipc/async_model_client.h:20-39 | A client that cannot connect latches the cause for everything submitted so far |
| AsyncProgress.ShutdownCompletes | src/ethercat_slave/ipc/async_model_client.h:41-44 | Destroyed between two jobs, the worker leaves and what is still queued is broken |
| AsyncClient.AsyncModelClient.SubmitJob | src/ethercat_slave/ipc/async_model_client.h:45-55 | Settled at once when latched or full, queued otherwise |
| AsyncClient.AsyncModelClient.AwaitJob | src/ethercat_slave/ipc/async_model_client.h:25-30 | The worker leaves when stopping and otherwise is busy with the front job, which is off the queue |
| AsyncClient.AsyncModelClient.FulfilPromise | src/ethercat_slave/ipc/async_model_client.h:31 | The served job gets the response |
| AsyncClient.AsyncModelClient.BreakPromise | src/ethercat_slave/ipc/async_model_client.h:32 | The served job gets the exception and the worker fails |
| AsyncClient.AsyncModelClient.FlushJobs | src/ethercat_slave/ipc/async_model_client.h:37-38 | Every queued job gets an exception, in order, and the queue is empty |
| AsyncClient.AsyncModelClient.LatchFailure | src/ethercat_slave/ipc/async_model_client.h:34-39 | The failure is latched and the queue flushed in one critical section |
| AsyncClient.AsyncModelClient.Join | src/ethercat_slave/ipc/async_model_client.h:41-44 | Joining and destroying settles what is left |
| HexCodec.UnhexIsInverse | src/ethercat_slave/main.cc:28-40 | Decoding succeeds exactly on the texts encoding produces, with the same octets |
| HexCodec.EncodeHex | src/ethercat_slave/main.cc:28-33 | The encoding loop |
| HexCodec.DecodeHex | src/ethercat_slave/main.cc:34-40 | The decoding loop: succeeds on well-formed text of the right length only, and never touches the buffer on a wrong length |
| HostLoop.HostNextKeepsInv | src/ethercat_slave/main.cc:156-191 | Every event keeps: images are whole valid responses to own requests, and open cyclic requests are the ones waited for |
| HostLoop.EveryImageIsOwn | src/ethercat_slave/main.cc:168-191 | In every run of the main loop from its start, interleaved with the worker, each image is the whole of a valid response to the slave's own request, or the one it started with |
| HostLoop.AtMostOneOutstanding | src/ethercat_slave/main.cc:237-248 | In every such run a slave has at most one cyclic request open, the one it waits for |
| HostLoop.FailureIsContained | src/ethercat_slave/main.cc:156-187 | A failure never clears, no image changes from octet 2 on, and only object accesses are submitted afterwards |
| HostLoop.MaskedFromNextPump | src/ethercat_slave/main.cc:184-187 | From the end of the next pump on every statusword satisfies sw & 0x106f = 8, in every interleaving |
| HostLoop.FailedExactlyByACause | src/ethercat_slave/main.cc:168-183 | Over a whole run the host has failed exactly when some event was a cause: a latched client failure at a pump, or a settled promise without a valid image |
| HostProgress.CollectPublishes | src/ethercat_slave/main.cc:172-183 | Pumping a slave of a healthy host whose job is answered with an image of the right length shows exactly this image, frees the slave, and touches nothing else |
| HostProgress.ShowsTheLatest | src/ethercat_slave/main.cc:168-187 | Over any run the image of a slave is that of the last valid response collected for it while healthy: whole while healthy, from octet 2 on after a failure |
| HostProgress.SubmitsOwnOutput | src/ethercat_slave/main.cc:237-248 | A healthy host with a free slave submits a cycle whose text decodes to exactly the output of this slave, which then waits for this job |
| HostProgress.WholeCycle | src/ethercat_slave/main.cc:168-248 | Submitted, served by the worker and pumped, the response of the model is the image of the slave |
| HostLoop.ModelHost.PumpOne | src/ethercat_slave/main.cc:170-187 | Collecting and masking one slave |
| HostLoop.ModelHost.Consume | src/ethercat_slave/main.cc:173-182 | A response is decoded into a fresh buffer: the image is replaced by exactly the decoded octets, or the host fails and it stays |
| HostLoop.ModelHost.Pump | src/ethercat_slave/main.cc:168-191 | The pump loop over all slaves |
| HostLoop.PumpIsARun | src/ethercat_slave/main.cc:168-191 | The pump loop is the uninterrupted run of the state machine |
| HostLoop.ModelHost.SubmitDue | src/ethercat_slave/main.cc:237-248 | Cycle for an operational slave with process data, idle for one that is not operational, only when healthy and free |
| SdoGateway.RepliesDecode | src/ethercat_slave/ipc/sdo_gateway.cc:31-39 | A master decodes from an upload reply exactly the value (expedited size bits) and from an abort its code |
| SdoGateway.OneRequestOneReply | src/ethercat_slave/ipc/sdo_gateway.cc:59-122 | However often polled, under any interleaving: checked the same way every time; the polls that submit number one if the message has a job and none otherwise; that job names the object at offsets 9 to 11 and, for a download, carries exactly the value octets of the raw message; it is answered at most once, with what that job came to |
| SdoGateway.PendingIsFinal | src/ethercat_slave/ipc/sdo_gateway.cc:101 | A submitted message keeps its job for ever, and no later poll submits |
| SdoGateway.AnsweredExactlyWhenSettled | src/ethercat_slave/ipc/sdo_gateway.cc:101-120 | After any run a poll has answered the message, once, exactly when it is refused or its job is settled |
| SdoGateway.LatchedFailureAnswers | src/ethercat_slave/ipc/sdo_gateway.cc:101-120 | After any run that ends with a latched model failure the next poll has answered the message |
| SdoGateway.OnlySuccessCommits | src/ethercat_slave/ipc/sdo_gateway.cc:106-119 | The local dictionary changes only with a success reply, and only in the object of the message |
| SdoGateway.AbortCommitsNothing | src/ethercat_slave/ipc/sdo_gateway.cc:106-120 | An abort leaves the local dictionary unchanged |
| SdoGateway.CommitMirrorsModel | src/ethercat_slave/ipc/sdo_gateway.cc:109-111 | After a success the local object holds the octets of the request that was submitted, or the value the model answered, and the reply decodes to it |
| SdoProgress.WellFormedIsAccepted | src/ethercat_slave/ipc/sdo_gateway.cc:70-98 | What a master writes about an object that allows it, upload or download in any of the three forms, is accepted with exactly the value it wrote |
| SdoProgress.OutcomeIsReported | src/ethercat_slave/ipc/sdo_gateway.cc:99-121 | After any run: as soon as the job of an unanswered message has come to something the next poll reports it: abort with the code of the model, or success with the local object taking the octets of the submitted request or of the answer |
| SdoProgress.RepliesAreAddressed | src/ethercat_slave/ipc/sdo_gateway.cc:31-118 | Every reply announces ten octets, carries its CoE service and the address of the request, and keeps the length of the mailbox buffer |
| SdoProgress.WholeExchange | src/ethercat_slave/ipc/sdo_gateway.cc:70-121 | Poll, serve, poll: the model is asked once for this object with the octets of the master, and the master reads the answer |
| SdoGateway.GatewayMessage.Process | src/ethercat_slave/ipc/sdo_gateway.cc:70-122 | One poll of the message object; a request it submits names the addressed object and carries the value octets of the raw message |
| SdoGateway.GatewayMessage.SendAbort | src/ethercat_slave/ipc/sdo_gateway.cc:31-39 | Headers, command 0x80 and the code, octet by octet |
| SdoGateway.GatewayMessage.SendSuccess | src/ethercat_slave/ipc/sdo_gateway.cc:112-119 | Headers, command with size bits, value and zeros |
| FmuTime.SlicesConserve | src/functional_model/cia402_drive/adapter/copley.py:120-123 | The sub-step loop runs exactly as many sub-steps as fit and rounds up by at most 1e-12 |
| FmuTime.StepKeepsClock | src/functional_model/cia402_drive/adapter/copley.py:102-124 | A step refuses a value or is rejected by the device without consuming time, fails with the failure latched, or runs at most fifty sub-steps |
| FmuTime.TypedValuesFit | src/functional_model/runtime/fmi/runner.py:49-57 | Values of the object dictionary types always fit their FMU variables, so only the elapsed time can be a bad value |
| FmuTime.TimeIsConserved | src/functional_model/cia402_drive/adapter/copley.py:119-124 | Over any sequence: 0 <= k*0.002 + remainder - sum(dt) <= n*1e-12, a short remainder, and runner time k*0.002 |
| FmuTime.FailureIsLatched | src/functional_model/runtime/fmi/runner.py:40-42 | A failed runner never advances and makes no native call |
| FmuTime.HealthyStep | src/functional_model/cia402_drive/adapter/copley.py:102-124 | While native calls succeed a step is done exactly in time and with a command the drive takes, and runs exactly as many sub-steps as fit into rest and elapsed time; otherwise nothing happens |
| FmuTime.FmuFollowsHost | src/functional_model/cia402_drive/adapter/copley.py:119-124 | Over any run of a healthy FMU its time is less than one sub-step behind the host time of the accepted steps, and at most 1e-12 for each step ahead |
| FmuTime.Fmi3Runner.SetValue | src/functional_model/runtime/fmi/runner.py:44-63 | A value that does not fit is refused without a native call and without latching |
| FmuTime.Fmi3Runner.Access | src/functional_model/runtime/fmi/runner.py:40-42 | A native call on an unusable runner is refused; an exception latches |
| FmuTime.Fmi3Runner.StepBy | src/functional_model/runtime/fmi/runner.py:74-85 | Time advances only after a successful native step |
| FmuTime.CopleyAdapter.StepModel | src/functional_model/cia402_drive/adapter/copley.py:102-124 | The whole step of the adapter, with its kind of refusal |
| FmuTime.CopleyAdapter.SetInputs | src/functional_model/cia402_drive/adapter/copley.py:113-118 | The values are set in order up to the first that is refused or fails |
| FmuTime.CopleyAdapter.Advance | src/functional_model/cia402_drive/adapter/copley.py:121-123 | The accumulator loop |
| RoleIndex.IndexRefinesScan | src/functional_model/cia402_drive/behaviour_model/f_kr_cmmt/od_role_index.py:8-46 | Any sequence of define, overlay (also failing), write and lookup gives the same definitions and match-count errors as linear scans |
| RoleIndex.MatchesAreAll | src/functional_model/cia402_drive/profile/object_dictionary.py:83-94 | A scan finds exactly the definitions of the role |
| RoleIndex.DefinitionIsStored | src/functional_model/cia402_drive/profile/object_dictionary.py:33-63 | A definition is stored with its default as value in place of an older one, and every other object stays |
| RoleIndex.WriteIsStored | src/functional_model/cia402_drive/profile/object_dictionary.py:107-111 | A written value is held under the same definition, and every other object stays |
| RoleIndex.OverlayIsMerged | src/functional_model/cia402_drive/profile/object_dictionary.py:65-78 | An overlay replaces what it supplies, keeps the rest, defines a missing object, and leaves every other |
| RoleIndex.DefinedIsFound | src/functional_model/cia402_drive/behaviour_model/f_kr_cmmt/od_role_index.py:23-46 | From its definition on an object is found by its role, unless another object has the same role |
| RoleIndex.VirtualOdModel.Rebuild | src/functional_model/cia402_drive/behaviour_model/f_kr_cmmt/od_role_index.py:23-28 | The loop builds the grouping of all definitions |
| RoleIndex.VirtualOdModel.OverlayEntry | src/functional_model/cia402_drive/profile/object_dictionary.py:65-78 | The overlay drops the index whether it raises or not |
| RoleIndex.VirtualOdModel.DefineEntry | src/functional_model/cia402_drive/profile/object_dictionary.py:33-63 | A definition replaces its entry and drops the index |
| RoleIndex.VirtualOdModel.WriteValue | src/functional_model/cia402_drive/profile/object_dictionary.py:107-111 | A value write leaves the index alone |
| RoleIndex.VirtualOdModel.DefinitionByRole | src/functional_model/cia402_drive/behaviour_model/f_kr_cmmt/od_role_index.py:30-39 | The indexed lookup answers as the scan |
| FileSystem.ReplacingIsAtomic | src/functional_model/storage/parameter_store.py:103-114 | Write, synchronise, replace: the target is old or complete new after any error and any crash |
| ParameterStore.SavedLoadsExactlyWhenFinite | src/functional_model/storage/parameter_store.py:55-102 | A saved snapshot loads into a fresh instance of the same device if and only if its floats are finite, and then all parameter values are equal |
| ParameterStore.PresetLoads | src/functional_model/storage/parameter_store.py:55-114 | The linear F-KR preset, with its 21 persistent parameters, saves a snapshot that loads again |
| ParameterStore.InfiniteLimitIsRefused | src/functional_model/storage/parameter_store.py:80-81 | On every F-KR model, whatever its other values, an infinite 0x2183:0C is saved and no instance of the device loads the snapshot |
| ParameterStore.LoadsUnlessFaulty | src/functional_model/storage/parameter_store.py:55-91 | A snapshot loads if and only if it is a document without one of these faults: another checksum, schema or device, other parameters, a malformed, non-finite or changed read-only text, a profile the model does not run |
| ParameterStore.SaveIsAtomic | src/functional_model/storage/parameter_store.py:93-114 | A save leaves the old or the complete new snapshot, and touches no other file |
| ParameterStore.Store.Load | src/functional_model/storage/parameter_store.py:55-91 | A rejected load changes no value; an accepted one writes exactly the catalog |
| ParameterStore.Store.DecodeAll | src/functional_model/storage/parameter_store.py:72-86 | Everything is decoded and checked before anything is written |
| ParameterStore.Store.Save | src/functional_model/storage/parameter_store.py:93-114 | Profile check before any file operation, then the operations up to the one that raises |
| Migration.MigratedLoads | src/functional_model/storage/migrate.py:13-57 | After a migration the snapshot loads with every old value and the given 0x6081 |
| Migration.OldValuesSurvive | src/functional_model/storage/migrate.py:13-57 | Whatever finite values a device saved under schema 1: unless another backup is in the way or the disk fails, the migration is made, and a fresh instance loads all of them and the given 0x6081 |
| Migration.MigrationIsIdempotent | src/functional_model/storage/migrate.py:23-25 | A second migration changes nothing |
| Migration.ErrorKeepsOriginal | src/functional_model/storage/migrate.py:47-56 | Whichever file operation of backup or save raises, the original is in the target or complete in the backup |
| Migration.CrashKeepsOriginal | src/functional_model/storage/migrate.py:47-56 | At every crash point, also after an operation that raised, the original is in the target or complete in the backup, if and only if a backup found at the start was already synchronised or the replacement is not reached |
| Migration.UnsyncedBackupIsLost | src/functional_model/storage/migrate.py:48-50 | The crash that loses both when it was not |
| Migration.RetryAfterFailedSync | src/functional_model/storage/migrate.py:48-55 | How it comes about: synchronising the backup raised, the migration is run again and accepted |
| Migration.RetryAfterPartialBackup | src/functional_model/storage/migrate.py:48-50 | An incomplete backup stops every later migration and the target stays |
| Migration.KeepAndSave | src/functional_model/storage/migrate.py:47-56 | Another backup is never overwritten; otherwise backup, then save, up to the file operation that raises |
| Migration.MigrateProfileVelocity | src/functional_model/storage/migrate.py:13-57 | The migration: refused without a write, already done, or the exact file operations up to the one that raises |
| Fleet.ModelFleet.LoadAll | src/functional_model/runtime/fleet.py:13-16 | All snapshots load or the first rejected one stops the start |
| Fleet.ModelFleet.SaveMissing | src/functional_model/runtime/fleet.py:17 | Each missing snapshot is saved with the values of its model, and only a save stops it |
| Fleet.ModelFleet.Start | src/functional_model/runtime/fleet.py:7-20 | Any rejected snapshot: no file is written; existing snapshots are never written; a complete start leaves a snapshot for each model, a missing one with its values; with the lock held, no rejection, valid profiles and a working disk the start completes |

## Left out

- Floating-point rounding: positions, velocities and times are reals; integers are truncated only where the process image is encoded.
- The run theorems of the servo alone take a positive elapsed time for every cycle; the composition with the interlock also covers a cycle without elapsed time.
- FKrAdapter.FKrCmmtAdapter.Step: does not model what an update interrupted by a division by zero elapsed time leaves in the servo, because the crash asks for a restart and nothing reads the servo after it.
- The generic entry map under the servo: its objects are a record, and the reset loops over entries (configured_od.py:48-71) are one assignment.
- Torque, offsets, position-loop gain changes and the other objects the servo never reads.
- The decoding of SDO requests into dictionary writes of the servo: any decoding is allowed in the composition theorems.
- PP position bounds under mid-move retargeting or halt, CSP convergence with a deceleration that cannot keep up with the loop, and limit enforcement in PV: the code does not provide them.
- Diagnostic ids, timestamps, log lines, warning records and `last_valid_at`; timing statistics; `describe`.
- Adapter calls run to completion with one of a few outcomes; a native crash or a hanging call is not modelled.
- Sync requests of the client at start-up (`request`): the main loop starts with those requests settled.
- The main loop's own exceptions (frame write failure, unrestored mapping), which end the process.
- HostLoop: a process image has exactly the length of its contract's TxPDO.
- KickCAT, sockets, framing and routing are not part of this model; the mailbox, CoE and SDO header layouts (6, 2 and 4 octets) and the service codes follow ETG.1000.6 and section 7.2.4.3 of CiA 301.
- SdoGateway: messages the gateway hands to the original factory, the synchronous request mode, and the statusword read that a failed host answers itself.
- FMU physics and output scaling: native calls succeed or fail by an arbitrary oracle; variables have the types of the signature, and converted velocities and accelerations are finite.
- Float, bool and string codecs: a float parameter is its 32 raw bits.
- JSON text and SHA-256: a file is a document or anything else, and the checksum is an arbitrary function; a caller's file name, temporary name and lock are parameters.
- White space inside stored hexadecimal text: the code rejects it while decoding, the model at the same place by its length and digits.
- FileSystem: directory operations reach the disk in order; reordering across them is not modelled.
- The staged directory of the migration and the command-line tool around it.
- The ESI catalog, provenance, registry, capability records, fixtures and deployment files.
