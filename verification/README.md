# Verified model of the quadruped controller and its firmware

A Dafny model of the parts of the repository that carry the machine's safety and
timing: the trot planner and gait, the mode supervisor, the servo register
protocol, the firmware stream scheduler, the packet receiver and I2C master of
the AVR firmware, and the containers and curves they rest on.

Code that changes state in place is a class whose methods are proved against a
function on values; code that computes is a function. The results are lemmas
about those functions, over every input, run or interleaving.

| file | models |
|---|---|
| TrotPlanner.dfy | `CalculateTrot` |
| TrotGait.dfy, GaitLaws.dfy | `WalkContext`: virtual legs, lifts, touchdowns, the stance of the legs; when it lifts which of them, over runs |
| ModeSupervisor.dfy, ModeLaws.dfy | control cycles, which commands are obeyed, mode changes, stand-up, rest, jump and backflip, the two control logs |
| JumpStance.dfy | which legs carry the robot in which phase of a jump |
| CommandArbiter.dfy | which of several command sources is obeyed |
| Moteus.dfy, ServoCodec.dfy | saturating quantisers; joint commands to register writes and back |
| StreamTable.dfy, StreamSlots.dfy, StreamTiming.dfy, StreamBacklog.dfy, StreamScheduler.dfy | the table of periodic commands, its argument slots, when its streams run, how far it falls behind, and its in-place form |
| PacketReceiver.dfy, PacketHandover.dfy | the receive interrupt and the checksums; the handover to the main loop, and its replies |
| I2cMaster.dfy, I2cAddress.dfy | the command interpreter of the bit-banged I2C master, and to which slave its data goes |
| CircularBuffer.dfy, ReservoirSampler.dfy | the growing ring buffer; Algorithm R |
| SwingTrajectory.dfy, SwingLaws.dfy | the path of a foot in the air over the cubic Bezier; what its calls report |
| Wrappers.dfy, Doubles.dfy, Bytes.dfy | option and result types; doubles as reals plus infinities and NaN; exclusive or of bytes |

Inputs from the outside are parameters that may take any value in every step:
geometry results (`remaining_s`, `invalid_time_s`, travel distance), measured
readiness of the servos and joints, random draws, slave answers on the bus, and
received bytes. `WalkConfig.Valid` and `Path.Valid` hold what is assumed of the
configuration; the defaults in the source meet it.

## What the code does against its own description

- The planner answers a travel distance of zero with its fastest plan, at every
  speed including standing still (`TrotPlanner.PreferenceNeedsTravel`).
- `rx_ff_count` is eight bits wide and wraps, but only while a packet is being
  received, where a wrap is harmless; while waiting it is at most 1
  (`PacketReceiver.Valid`).
- A packet whose body holds two adjacent 0xFF bytes is lost, although it is well
  formed (`PacketReceiver.DeliveredIffNoSyncPair`), and the checksum does not
  cover the lowest bit of any byte (`PacketReceiver.ByteErrorDetected`).
- The comment at mech/quadruped_control.cc:765-767 says configuring is only left
  when all servos are configured; a fault leaves it too
  (`ModeSupervisor.LeavingConfiguring`).
- `IsRestAndSteadyState` asks for mode kRest and is called in kJump, so a finished
  jump always goes to kRest first. No phase of the backflip ever becomes kDone, so
  kBackflip is left only for the modes that need no standing, or by a fault.
- The handler does not clear its sync count when a packet is complete, and the main
  loop does not either. After a packet that ends in 0xFF a single 0xFF starts the
  next one, whatever came in between (`PacketHandover.OneSyncAfterRelease`,
  `PacketHandover.SingleSyncExample`); with a clear count two are needed
  (`PacketReceiver.AnnouncedIffCountClear`).
- The reply to a RAM READ of more than seven registers is larger than the buffer it
  is built in: with eight its checksum reads past the end, with nine or more the
  handler also writes past it (`PacketHandover.RamReadOutcome`). Its first status
  byte is written over the last register.
- STB copies its argument text into a slot of 64 bytes without a check. The panel's
  line buffer has 128 bytes, so a longer text runs into the next slot: it replaces
  the arguments of the stream there (`StreamSlots.BeginSpills`), or leaves a slot in
  use that nothing frees (`StreamSlots.PanelLeaksSlot`, `StreamSlots.OrphanStays`).
  With seven slots in use it leaves the pool altogether (`StreamSlots.PanelEscapes`).
  The foot's line of 32 bytes rules this out (`StreamSlots.FootIsValid`).
- Leaving a mode by a fault does not clear its sub-state. The legs fit the phase of
  every jump in a run if and only if no fault cuts a jump off in mid-air
  (`JumpStance.JumpsAreSettledIff`); after such a fault the next jump resumes in the
  old phase, on standing legs (`JumpStance.CutOffResurfaces`, `JumpStance.CutOffRun`).
  A repeated push finds unloaded legs when the landing before it was over within one
  cycle (`JumpStance.PushStance`).
- In mode kLeg the legs of a command are not checked. A leg that the robot does not
  have aborts the controller, and a leg whose number is not below the number of legs
  in the command, such as leg 3 alone, is written past the end of `leg_pds`
  (`ModeSupervisor.LegAbortIff`, `ModeSupervisor.LegAbortExamples`).
- An `s` in an I2C command does not end the transfer under way, so "s10w01s20w02"
  sends both bytes to slave 0x10 (`I2cAddress.SecondAddressIsIgnored`); exactly which
  texts do so is `I2cAddress.DataGoesToAddressIff`.
- In the I2C interpreter `r` refuses its last byte and `n` does not, the opposite
  of the comment beside it, and a failed `parse_hex2` is reported with the code of
  a timeout rather than that of a bad number.
- On the first step of the lowering the foot is moved at the velocity reached at
  the end of the step, twice the distance of an even ramp over it. The excess over
  the whole lowering stays within half a step (`SwingTrajectory.RampIsTracked`); a
  step longer than one and a half times the blend time can leave the foot behind
  (`SwingTrajectory.NeverBehindIff`).
- base/reservoir_sampler.h:40 names `samples`; it is read as the member `samples_`.

## Model

| member | source | states |
|---|---|---|
| `TrotPlanner.PlanIsFeasible` | mech/quadruped_trot.cc:32-98 | for every speed, travel distance and both flight settings the plan carries no foot further than the travel distance while down, keeps all bounds, never combines flight with double support, and its speed is the request capped at the maximum |
| `TrotPlanner.PhasesAsTimes` | mech/quadruped_trot.cc:48-97 | the five phases are one clamped piecewise linear function of the time the travel distance lasts |
| `TrotPlanner.FlightPhasesAsTimes` | mech/quadruped_trot.cc:79-97 | the same for maximised flight: full flight, only the swing shortens |
| `TrotPlanner.MaxSpeedIsTheFastest` | mech/quadruped_trot.cc:44-46 | no feasible plan of any shape is faster than the planner's maximum speed |
| `TrotPlanner.PlanIsMonotone` | mech/quadruped_trot.cc:48-97 | raising the speed across any phases never lengthens swing, single or double support and never shortens flight or lowers the planned speed |
| `TrotPlanner.PlanIsPreferred` | mech/quadruped_trot.cc:48-97 | of all feasible plans at its speed the planner's has the longest swing, then the shortest flight, then the longest double support |
| `TrotPlanner.PreferenceNeedsTravel` | mech/quadruped_trot.cc:91-97 | without travel that preference holds if and only if the configuration leaves no choice |
| `TrotGait.LiftsFromStance` | mech/quadruped_trot.cc:253-364 | a lift is only ever applied to a virtual leg that stands, although the code does not check it |
| `TrotGait.StepVleg` | mech/quadruped_trot.cc:545-609 | what one cycle does to a virtual leg: when its clock starts, runs and stops, both directions |
| `TrotGait.StepGroundedVleg` | mech/quadruped_trot.cc:425-426 | the other leg's lift restarts the stance clock and nothing else does |
| `TrotGait.SwingDuration` | mech/quadruped_trot.cc:545-609 | every swing lasts between floor(min_swing/period)+1 and floor(max_swing/period)+1 cycles, however the plan changes meanwhile |
| `TrotGait.SwingEnds` | mech/quadruped_trot.cc:591-593 | every lifted leg is down again within floor(max_swing/period)+1 cycles |
| `TrotGait.GroundSupport` | mech/quadruped_trot.cc:253-259 | while no flight is planned one virtual leg stands in every state |
| `TrotGait.OverdueLifts` | mech/quadruped_trot.cc:311-316 | double support past the maximum lifts a leg in that very cycle |
| `TrotGait.DoubleSupportEnds` | mech/quadruped_trot.cc:146-150 | unbroken double support ends with a lift within floor(max_stance/period)+1 cycles |
| `TrotGait.StanceClock` | mech/quadruped_trot.cc:551-555 | between lifts the stance clock of a grounded leg counts the cycles and its phase continues past the swing |
| `TrotGait.StepMatchesLegs` | mech/quadruped_trot.cc:556-608 | after every cycle a leg's stance lies in 0..1 and is 0 exactly when its virtual leg swings |
| `GaitLaws.PlanIsCurrent` | mech/quadruped_trot.cc:242-251 | the plan in force is the one for the cycle's own travel distance, speed and flight wish |
| `GaitLaws.LiftIff` | mech/quadruped_trot.cc:253-325 | without planned flight a cycle lifts exactly from double support, when travel runs short, double support is overdue or the balance is within half a swing; and exactly which virtual leg |
| `GaitLaws.FlightLiftIff` | mech/quadruped_trot.cc:311-350 | with planned flight, exactly when and which |
| `GaitLaws.LiftMakesOtherNext` | mech/quadruped_trot.cc:358-363 | in every run a cycle that lifts one virtual leg leaves the other as the next |
| `GaitLaws.LiftsAlternate` | mech/quadruped_trot.cc:358-363 | in every run consecutive lifts are of different virtual legs, unless flight is planned or the travel of a specific one runs short |
| `GaitLaws.ClockAfterStep` | mech/quadruped_trot.cc:146-150 | the double-support clock |
| `GaitLaws.PhaseAfterStep` | mech/quadruped_trot.cc:547-555 | the phase of a virtual leg in the air, on the ground and at touchdown |
| `GaitLaws.IdleAfterStep` | mech/quadruped_trot.cc:591-600 | touchdowns at rest are counted, one in motion starts again |
| `GaitLaws.IdleMeansRested` | mech/quadruped_trot.cc:591-600 | in every run an idle count means that the last touchdown came at rest |
| `GaitLaws.StanceAfterStep` | mech/quadruped_trot.cc:602-608 | the stance of a leg that touches down, swings or stands |
| `GaitLaws.StanceRestores` | mech/quadruped_trot.cc:464-465 | from touchdown on a leg's stance grows evenly to one |
| `TrotGait.WalkContext.UpdateGlobal` | mech/quadruped_trot.cc:146-150 | the double-support clock runs while both stand and is reset otherwise |
| `TrotGait.WalkContext.ChooseVleg` | mech/quadruped_trot.cc:264-354 | the scan in place chooses as the specification does |
| `TrotGait.WalkContext.Lift` | mech/quadruped_trot.cc:366-427 | the new state of both virtual legs |
| `TrotGait.WalkContext.MaybeLiftNow` | mech/quadruped_trot.cc:253-364 | the whole lift decision in place |
| `TrotGait.WalkContext.PropagateOne` | mech/quadruped_trot.cc:545-610 | clocks, leg stances and touchdown of one virtual leg |
| `TrotGait.WalkContext.Run` | mech/quadruped_trot.cc:134-151 | one whole cycle in place is one step of the runs above, for the virtual legs and the four legs |
| `ModeSupervisor.CycleIsSafe` | mech/quadruped_control.cc:1234-1273 | from a good state a cycle aborts if and only if the command names a mode that cannot be commanded, the mode is kLeg and the command names a stray leg, or a robot without rear legs reaches the back push; the leg log assertions never fire and otherwise the state stays good |
| `ModeSupervisor.LegAbortIff` | mech/quadruped_control.cc:1906-1924 | a command for single legs goes wrong if and only if some id is not one of the four legs or is not below the number of legs commanded, and which of the two it is |
| `ModeSupervisor.LegAbortExamples` | mech/quadruped_control.cc:1021-1023 | leg 7, and leg 3 alone |
| `ModeSupervisor.LegLogNeverMissing` | mech/quadruped_control.cc:1184-1220 | in every run, with faults and skipped cycles, the previous log holds the four legs whenever resting needs them |
| `ModeSupervisor.RunKeepsInv` | mech/quadruped_control.cc:300-359 | the invariant over all runs |
| `ModeSupervisor.ChangeModeEffect` | mech/quadruped_control.cc:762-898 | which mode changes a command can bring about, what each resets and what it leaves alone |
| `ModeSupervisor.JumpKeepsInv` | mech/quadruped_control.cc:1283-1514 | whatever phases a jump passes in one cycle, repeats included, it emits four legs and stays a jump |
| `ModeSupervisor.CycleModes` | mech/quadruped_control.cc:762-860 | which modes can follow which in one cycle |
| `ModeSupervisor.LocomotionFollowsStanding` | mech/quadruped_control.cc:706-898 | whenever the mode is rest, jump, walk or backflip, standing up was completed since the last visit to any mode that does not keep the robot standing |
| `ModeSupervisor.FaultIsLatched` | mech/quadruped_control.cc:990-998 | a fault is left only for stopped, and only on that command |
| `ModeSupervisor.WalkExit` | mech/quadruped_control.cc:838-849 | walking is left for another locomotion mode only with both virtual legs standing and all four legs at full stance |
| `ModeSupervisor.LeavingConfiguring` | mech/quadruped_control.cc:763-769 | exactly when configuring is left, by any cycle |
| `ModeLaws.StopIsObeyed` | mech/quadruped_control.cc:777-782 | a command to stop is obeyed from every state and in every cycle, except in an unfinished configuration |
| `ModeLaws.DirectIsObeyed` | mech/quadruped_control.cc:783-790 | zero velocity, joints and single legs are reached exactly when neither faulted nor unconfigured |
| `ModeLaws.StandUpIsObeyed` | mech/quadruped_control.cc:791-803 | standing up is reached exactly from stopped or zero velocity, afresh, within the time allowed |
| `ModeLaws.LocomotionIsObeyed` | mech/quadruped_control.cc:804-860 | rest, jump, walk and backflip are reached exactly from a finished rest, stand-up or flip, from an idle walk on four standing legs, or, for rest, a finished jump |
| `ModeLaws.LocomotionIsPrepared` | mech/quadruped_control.cc:815-837 | what such a command leads to otherwise |
| `ModeLaws.RepeatIsCommanded` | mech/quadruped_control.cc:826-827 | on entering, whether a jump repeats is as commanded |
| `ModeLaws.LeavingForgets` | mech/quadruped_control.cc:862-895 | a mode left for a command starts afresh the next time |
| `ModeLaws.FaultRemembers` | mech/quadruped_control.cc:990-998 | a fault forgets nothing |
| `ModeLaws.StandUpProgress` | mech/quadruped_control.cc:1041-1070 | exactly when standing up gets on and is done |
| `ModeLaws.RestProgress` | mech/quadruped_control.cc:1241-1264 | a rest loads every leg and is done exactly when the legs have arrived |
| `ModeLaws.WalkProgress` | mech/quadruped_control.cc:1596-1599 | a walk that goes on takes one gait cycle on the legs last commanded |
| `ModeLaws.FlipProgress` | mech/quadruped_control.cc:1617-1735 | the order of the flip's phases and which legs carry in each |
| `ModeSupervisor.QuadrupedControl.MaybeChangeMode` | mech/quadruped_control.cc:762-898 | the mode change in place |
| `ModeSupervisor.QuadrupedControl.DoControlStandUp` | mech/quadruped_control.cc:1025-1071 | stand-up in place, its timeout and missing legs included |
| `ModeSupervisor.QuadrupedControl.DoControlRest` | mech/quadruped_control.cc:1234-1273 | resting in place |
| `ModeSupervisor.QuadrupedControl.DoControlJump` | mech/quadruped_control.cc:1283-1514 | the jump's phase loop in place |
| `ModeSupervisor.QuadrupedControl.DoControlWalk` | mech/quadruped_control.cc:1596-1599 | walking in place through the gait object |
| `ModeSupervisor.QuadrupedControl.DoControlBackflip` | mech/quadruped_control.cc:1601-1746 | the backflip in place, its abort without rear legs included |
| `ModeSupervisor.QuadrupedControl.DoControlLeg` | mech/quadruped_control.cc:1021-1023 | the single legs of a command in place |
| `ModeSupervisor.QuadrupedControl.RunControl` | mech/quadruped_control.cc:706-760 | dispatch in place |
| `ModeSupervisor.QuadrupedControl.HandleStatus` | mech/quadruped_control.cc:300-359 | a whole cycle in place; it aborts exactly as above and otherwise keeps the invariant |
| `JumpStance.JumpEmits` | mech/quadruped_control.cc:1313-1513 | within one cycle, whatever phases it passes, the emitted legs fit the phase reached |
| `JumpStance.PushStance` | mech/quadruped_control.cc:1361-1391 | exactly when a push is emitted with unloaded legs |
| `JumpStance.JumpsAreSettledIff` | mech/quadruped_control.cc:1283-1514 | in every run the legs always fit the phase, unloaded in the air and loaded before the push and from the landing on with no mid-air phase left over elsewhere, if and only if no fault cuts a jump off in mid-air |
| `JumpStance.CutOffUnsettles` | mech/quadruped_control.cc:990-998 | a cut-off keeps the phase, whether the cycle ends in the fault or in stopped |
| `JumpStance.CutOffResurfaces` | mech/quadruped_control.cc:862-881 | from every state a cut-off leaves, in fault or stopped, stopping, standing up and jumping again resumes the old phase with all legs loaded |
| `JumpStance.CutOffRun` | mech/quadruped_control.cc:706-898 | such a run from power-on |
| `JumpStance.JumpProgress` | mech/quadruped_control.cc:1339-1501 | the phase that any number of completed phases leads to, with and without repetition, and when a repetition is called off |
| `JumpStance.PushCount` | mech/quadruped_control.cc:1339-1501 | the phases come in order: how many completed phases lead to a push |
| `CommandArbiter.TopSourceHolds` | mech/quadruped_control.cc:203-219 | a source of top priority with no gap beyond the timeout holds the robot from its first command on, and its latest command is the one obeyed |
| `CommandArbiter.TakeoverIff` | mech/quadruped_control.cc:203-219 | a source of lower priority takes over exactly when the holder has been silent for longer than the timeout |
| `CommandArbiter.HigherIsTaken` | mech/quadruped_control.cc:205 | a command of the same or a higher priority is always taken |
| `CommandArbiter.CommandSlot.Command` | mech/quadruped_control.cc:203-219 | the decision in place |
| `Moteus.SaturateRoundTrip` | mech/moteus.h:101-116 | writing and reading back any double at any integer width loses less than one step toward zero, saturates at the limits, and turns the non-finite into NaN |
| `Moteus.ReadRoundTrip` | mech/moteus.h:174-203 | reading and writing back is exact for every value of the integer type, the NaN marker included |
| `ServoCodec.PositionCarry` | mech/moteus.h:147-149 | a position survives conversion, sign and quantisation within one int16 step |
| `ServoCodec.VelocityCarry` | mech/moteus.h:151-153 | a velocity likewise |
| `ServoCodec.TorqueCarry` | mech/moteus.h:155-157 | a torque likewise |
| `ServoCodec.EmitDecodes` | simulator/simulator_window.cc:68-118 | decoding the variable-length prefix yields each written field and the default for every omitted one |
| `ServoCodec.JointRoundTrip` | mech/quadruped_control.cc:2035-2164 | the servo understands the joint command: position, velocity, torque, stop angle and the smaller of the torque limits present within one step or saturated, gains exactly with negative ones as zero, NaN as NaN, an unset torque limit as the default or NaN |
| `ServoCodec.ModeArrives` | mech/quadruped_control.cc:2057-2077 | the mode that arrives is 0 exactly without power, 12 exactly for a powered joint at zero velocity, and 10 otherwise |
| `ServoCodec.ModeOnlyRoundTrip` | mech/quadruped_control.cc:2057-2077 | a joint without power, at zero velocity or of an unknown servo arrives as its mode with every other field at its default |
| `ServoCodec.AimHeadsForStop` | simulator/simulator_window.cc:348-354 | a command without a position keeps its speed and heads for its stop position, and every other is taken as it is |
| `ServoCodec.EmitJoint` | mech/quadruped_control.cc:2035-2164 | the writes built step by step |
| `ServoCodec.Servo.WriteRegister` | simulator/simulator_window.cc:68-118 | a register write in place, its error code and when the staged command becomes valid |
| `ServoCodec.Servo.Update` | simulator/simulator_window.cc:338-358 | the staged command takes effect, aimed at the stop position where one is given |
| `ServoCodec.Servo.Receive` | simulator/simulator_window.cc:68-118 | a whole request in place |
| `StreamTable.HistoryIsValidIff` | hw/panel_qual/firmware/panel_qual.c:176-429 | over every sequence of begin, end, tick, poll and stop: ids distinct in 1..15, countdowns in 1..rate, equal rates in step, every used argument slot holding the whole text of exactly one live stream, if and only if no accepted text is longer than a slot |
| `StreamTable.HistoryKeepsScheduled` | hw/panel_qual/firmware/panel_qual.c:203-229 | ids, countdowns and equal rates keep so over every history in which no text leaves the pool, texts that run into the next slot included |
| `StreamTable.BeginKeepsValidIff` | hw/panel_qual/firmware/panel_qual.c:242-268 | an accepted begin keeps every valid table valid if and only if its text is shorter than 64 characters |
| `StreamTable.LongCopy` | hw/panel_qual/firmware/panel_qual.c:248 | what strcpy of a longer text leaves in its slot and in the next |
| `StreamTable.EscapesIff` | hw/panel_qual/firmware/panel_qual.c:242-256 | a text that leaves the pool overflows its slot, and one of less than two slots leaves it exactly from the last slot |
| `StreamTable.StopClears` | hw/panel_qual/firmware/panel_qual.c:368-375 | stopping leaves no stream and no used slot, also through pointers left in dead entries |
| `StreamSlots.BeginAdds` | hw/panel_qual/firmware/panel_qual.c:176-271 | a begin whose text fits adds exactly the requested stream with its arguments and changes no other |
| `StreamSlots.BeginSpills` | hw/panel_qual/firmware/panel_qual.c:242-252 | a text that does not fit replaces the arguments of the stream in the next slot by its own rest |
| `StreamSlots.EndRemoves` | hw/panel_qual/firmware/panel_qual.c:273-311 | end removes exactly the named stream |
| `StreamSlots.TickAndPollKeepStreams` | hw/panel_qual/firmware/panel_qual.c:377-429 | time and successful runs change no stream; a failing run removes just that one |
| `StreamSlots.NoSlotsNeedsManyStreams` | hw/panel_qual/firmware/panel_qual.c:242-256 | for every table, running out of argument slots needs more entries and leaked slots together than there are slots |
| `StreamSlots.FootIsValid` | hw/pressure_foot/firmware/foot.c:684-716 | lines of 32 bytes never overflow a slot, so the foot's table is valid after every history |
| `StreamSlots.FootNeverRunsOutOfSlots` | hw/pressure_foot/firmware/foot.c:399-428 | the foot's table of 4 never replies "not enough extra args slots", after any history |
| `StreamSlots.LineIsShort` | hw/panel_qual/firmware/panel_qual.c:530-547 | whatever is typed, a line is at least two shorter than its buffer |
| `StreamSlots.PanelLeaksSlot` | hw/panel_qual/firmware/panel_qual.c:508-547 | every line "STB 1 1 TMQ" with more than 64 further characters that the panel takes invalidates the table and, after its end, leaves a used slot and no stream |
| `StreamSlots.PanelEscapesIff` | hw/panel_qual/firmware/panel_qual.c:242-256 | a line of the panel leaves the pool if and only if it is accepted with 64 or more characters of arguments while only the last slot can be free |
| `StreamSlots.PanelEscapes` | hw/panel_qual/firmware/panel_qual.c:508-547 | eight lines after which it has: seven streams with short arguments and any eighth with long ones |
| `StreamSlots.FootStaysInside` | hw/pressure_foot/firmware/foot.c:684-716 | no history of the foot leaves the pool |
| `StreamSlots.OrphanStays` | hw/panel_qual/firmware/panel_qual.c:300-303 | no operation, stopping included, frees such a slot, short of another overflow |
| `StreamTiming.NewStreamRuns` | hw/panel_qual/firmware/panel_qual.c:213-229 | an accepted stream of a rate of its own has nothing pending before the tick its rate says, its first run with that tick, and one more at every multiple of it |
| `StreamTiming.NewStreamJoins` | hw/panel_qual/firmware/panel_qual.c:223-228 | one that joins others of its rate falls due in exactly their ticks |
| `StreamTiming.TicksQueue` | hw/panel_qual/firmware/panel_qual.c:377-387 | how often an entry falls due within any number of ticks, in eight bits, and what is left of its countdown |
| `StreamTiming.OnlyTicksCount` | hw/panel_qual/firmware/panel_qual.c:377-387 | no operation but the tick moves the countdown of a stream that lives on |
| `StreamTiming.BeginAcceptedIff` | hw/panel_qual/firmware/panel_qual.c:183-256 | exactly when a begin is accepted |
| `StreamTiming.EndAcceptedIff` | hw/panel_qual/firmware/panel_qual.c:279-306 | exactly when an end is accepted |
| `StreamBacklog.BacklogBound` | hw/panel_qual/firmware/panel_qual.c:549-558 | while streams are only added, no text leaves the pool and the sum of 1/rate stays at most 1, never more runs are pending than streams are live, before and after every poll, and no 8-bit counter wraps |
| `StreamBacklog.TickSums` | hw/panel_qual/firmware/panel_qual.c:377-387 | a tick raises the potential by exactly the load |
| `StreamBacklog.PollRunsOne` | hw/panel_qual/firmware/panel_qual.c:390-429 | a poll lowers it by exactly one run if there is one |
| `StreamBacklog.PassKeepsCalm` | hw/panel_qual/firmware/panel_qual.c:549-558 | one pass of the main loop keeps the potential below the number of live streams |
| `StreamBacklog.EmptyIsCalm` | hw/panel_qual/firmware/panel_qual.c:160-174 | the firmware starts there |
| `StreamBacklog.BoundHoldsIffSustainable` | hw/panel_qual/firmware/panel_qual.c:377-429 | left to itself a scheduler keeps that bound for ever if and only if the sum of 1/rate is at most 1 |
| `StreamBacklog.OverloadExceedsBound` | hw/panel_qual/firmware/panel_qual.c:377-429 | with a load above 1 the bound is exceeded after a given number of ticks |
| `StreamScheduler.Scheduler.Copy` | hw/panel_qual/firmware/panel_qual.c:248 | strcpy byte by byte, across the end of a slot, and whether it stays in the pool |
| `StreamScheduler.Scheduler.Begin` | hw/panel_qual/firmware/panel_qual.c:176-271 | begin on the two arrays in place, with its reply, or that the text leaves the pool |
| `StreamScheduler.Scheduler.End` | hw/panel_qual/firmware/panel_qual.c:273-311 | end in place |
| `StreamScheduler.Scheduler.StopAll` | hw/panel_qual/firmware/panel_qual.c:368-375 | stop in place |
| `StreamScheduler.Scheduler.TimerUpdate` | hw/panel_qual/firmware/panel_qual.c:377-387 | the tick in place |
| `StreamScheduler.Scheduler.PollOnce` | hw/panel_qual/firmware/panel_qual.c:390-429 | the poll in place, and which stream ran |
| `PacketReceiver.PacketIsDelivered` | hw/odroid_shield_v2/firmware/avr_odroid.c:54-90 | a waiting receiver delivers an addressed packet with its body intact exactly at its last byte |
| `PacketReceiver.DeliveredIffNoSyncPair` | hw/odroid_shield_v2/firmware/avr_odroid.c:60-70 | it does so if and only if the body has no two adjacent sync bytes |
| `PacketReceiver.SyncPairBreaksPacket` | hw/odroid_shield_v2/firmware/avr_odroid.c:63-69 | such a pair restarts the reception and the packet is lost |
| `PacketReceiver.AnnouncedIffCountClear` | hw/odroid_shield_v2/firmware/avr_odroid.c:54-70 | from any waiting receiver, every packet delivered next is the well-formed end of the wire after two sync bytes, if and only if the receiver counts no sync byte yet |
| `PacketReceiver.ReceiveAllTracks` | hw/odroid_shield_v2/firmware/avr_odroid.c:54-90 | the buffer is what came over the wire since the sync bytes, a remembered one included |
| `PacketReceiver.OneSyncDelivers` | hw/odroid_shield_v2/firmware/avr_odroid.c:60-70 | a receiver that counts one sync byte delivers every packet after a single one |
| `PacketReceiver.TransmitIsReceivedIff` | hw/odroid_shield_v2/firmware/avr_odroid.c:120-135 | a receiver takes a sent buffer as genuine with its body intact if and only if the body has no two adjacent sync bytes |
| `PacketHandover.HandoverIsSafe` | hw/odroid_shield_v2/firmware/avr_odroid.c:314-344 | under every interleaving of interrupts and main loop steps the buffer is untouched by interrupts from ready to release, packet sizes are 7..18 so their checksum loop stays in bounds, the verdict is that of the packet received, replies carry their own checksum, and only a RAM READ of more than seven registers leaves the buffer |
| `PacketHandover.StepKeepsSafe` | hw/odroid_shield_v2/firmware/avr_odroid.c:54-58 | one step of either side; an interrupt during ready changes nothing |
| `PacketHandover.PacketWasSent` | hw/odroid_shield_v2/firmware/avr_odroid.c:54-90 | in every history the packet handed over ends what was heard, after two sync bytes; both came since the last release unless one was counted there and only the other and the packet came since |
| `PacketHandover.OneSyncAfterRelease` | hw/odroid_shield_v2/firmware/avr_odroid.c:314-344 | for every packet ending in a sync byte that is not an overrunning RAM READ, whatever is dropped behind it, every next packet is taken after a single sync byte |
| `PacketHandover.SingleSyncExample` | hw/odroid_shield_v2/firmware/avr_odroid.c:54-70 | one such wire, byte by byte |
| `PacketHandover.MainFinishes` | hw/odroid_shield_v2/firmware/avr_odroid.c:314-344 | whatever the registers hold, the main loop leaves the buffer exactly for an overrunning RAM READ and otherwise releases it |
| `PacketHandover.RamReadOutcome` | hw/odroid_shield_v2/firmware/avr_odroid.c:225-249 | sent over the wire without a sync pair, a RAM READ of any count makes the main loop leave the buffer if and only if it asks for more than seven registers |
| `PacketHandover.StatReplyIs` | hw/odroid_shield_v2/firmware/avr_odroid.c:137-144 | the bytes of the reply to a STAT |
| `PacketHandover.RamReadReplyIs` | hw/odroid_shield_v2/firmware/avr_odroid.c:225-249 | the bytes of the reply to a RAM READ, its first status byte over the last register |
| `PacketHandover.ReplyIsReceivedIff` | hw/odroid_shield_v2/firmware/avr_odroid.c:137-144 | the reply to every genuine command fits the buffer if and only if it is not such a RAM READ, and then is received intact if and only if its body has no two adjacent sync bytes |
| `PacketReceiver.ByteErrorDetected` | hw/odroid_shield_v2/firmware/avr_odroid.c:147-151 | a change of the id, the command or a data byte is detected if and only if it goes beyond the lowest bit |
| `PacketReceiver.CheckByteErrorDetected` | hw/odroid_shield_v2/firmware/avr_odroid.c:147-151 | any change of either check byte is detected |
| `PacketReceiver.Firmware.HandleByte` | hw/odroid_shield_v2/firmware/avr_odroid.c:54-90 | the interrupt in place |
| `PacketReceiver.Firmware.CalculateCs1` | hw/odroid_shield_v2/firmware/avr_odroid.c:111-118 | the checksum loop stays in the buffer exactly for sizes 7..18, and computes the exclusive or of the packet's bytes |
| `PacketReceiver.Firmware.SendBuffer` | hw/odroid_shield_v2/firmware/avr_odroid.c:120-135 | the buffer and the bytes sent, or that the size leaves the buffer |
| `I2cMaster.HexDigitIs` | hw/pressure_foot/firmware/util.c:36-43 | the 22 digit characters and their values, both directions |
| `I2cMaster.DigitsSpell` | hw/pressure_foot/firmware/util.c:28-48 | the byte that two digits spell, with separators before each |
| `I2cMaster.PollIsBitwise` | hw/pressure_foot/firmware/i2c.c:304-305 | a poll is met exactly when every bit of the mask agrees |
| `I2cMaster.BytesBelongToTransfers` | hw/pressure_foot/firmware/i2c.c:196-330 | on a correctly followed bus every data byte follows a START and an acknowledged address byte of its direction, with no refused byte since (section 3.1.10 of NXP UM10204) |
| `I2cMaster.Master.StartBus` | hw/pressure_foot/firmware/i2c.c:66-87 | START, repeated START and the busy bus |
| `I2cMaster.Master.StopBus` | hw/pressure_foot/firmware/i2c.c:89-109 | STOP frees the bus exactly when the slaves let go of the lines, else it stays claimed |
| `I2cMaster.Master.WriteByte` | hw/pressure_foot/firmware/i2c.c:144-161 | the byte on the bus and each error code |
| `I2cMaster.Master.ReadByte` | hw/pressure_foot/firmware/i2c.c:164-184 | the byte read, acknowledged or refused |
| `I2cMaster.Master.Open` | hw/pressure_foot/firmware/i2c.c:223-234 | exactly START and the address with the bit for the direction, or nothing when a transfer that way goes on; on an error the part up to the failed byte |
| `I2cMaster.Master.ReadBytes` | hw/pressure_foot/firmware/i2c.c:239-258 | exactly as many bytes as asked, stored in order, all acknowledged except the last of a final read |
| `I2cMaster.Master.WriteBytes` | hw/pressure_foot/firmware/i2c.c:284-293 | exactly the bytes that the text spells, in order, up to the first that fails |
| `I2cMaster.Master.ReadTurn` | hw/pressure_foot/firmware/i2c.c:214-263 | opening and bytes of a read command, or their beginning up to the failure |
| `I2cMaster.Master.WriteTurn` | hw/pressure_foot/firmware/i2c.c:264-295 | opening and data of a write command, likewise |
| `I2cMaster.Master.RunTurn` | hw/pressure_foot/firmware/i2c.c:206-328 | one letter of the text: what it puts on the bus, where the interpreter goes on, and that a poll was met |
| `I2cMaster.Master.RunCommand` | hw/pressure_foot/firmware/i2c.c:196-330 | for every text and slave behaviour the transcript obeys the bus rules and is exactly the script of the text, or on an error its beginning up to the byte that failed; the response holds exactly the bytes read, at most ten |
| `I2cMaster.Master.Execute` | hw/pressure_foot/firmware/i2c.c:369-375 | every command starts without an address, follows its script, ends with a STOP that frees the bus if the slaves let go, and responds with what the slaves sent during it |
| `I2cAddress.DataGoesToAddressIff` | hw/pressure_foot/firmware/i2c.c:206-295 | every byte of a text goes to the slave it set last if and only if no letter moves data in a transfer opened for another address than the one set since |
| `I2cAddress.ReadsEnd` | hw/pressure_foot/firmware/i2c.c:214-263 | an `r` refuses its last byte and ends the transfer, an `n` acknowledges all and leaves it open |
| `I2cAddress.OneAddressNeverMisses` | hw/pressure_foot/firmware/i2c.c:206-295 | without a further `s` none does |
| `I2cAddress.SecondAddressIsIgnored` | hw/pressure_foot/firmware/i2c.c:208-213 | a text that sends to the first of two addresses |
| `CircularBuffer.WindowPush` | base/circular_buffer.h:28-32 | writing at the insert position appends to the queue, wrapping or not |
| `CircularBuffer.WindowPop` | base/circular_buffer.h:34-38 | advancing the remove position drops the first element |
| `CircularBuffer.Ring.IsEmpty` | base/circular_buffer.h:44 | equal positions mean an empty queue |
| `CircularBuffer.Ring.IsFull` | base/circular_buffer.h:45-47 | adjacent positions mean one element less than the storage |
| `CircularBuffer.Ring.Front` | base/circular_buffer.h:38-39 | the oldest element, or on an empty queue the slot of the next push |
| `CircularBuffer.Ring.PopFront` | base/circular_buffer.h:34-36 | removes the oldest element, or turns an empty queue into one full of stale elements |
| `CircularBuffer.Ring.PushBack` | base/circular_buffer.h:28-32 | appends; over any history all resizes together move at most twice as many elements as were pushed |
| `CircularBuffer.Ring.Resize` | base/circular_buffer.h:52-63 | the queue is kept and every element moved once |
| `ReservoirSampler.Uniform` | base/reservoir_sampler.h:36-48 | over all possible draws every stream position is kept in exactly the fraction min(n, k) / n of them |
| `ReservoirSampler.KeptIsDistinct` | base/reservoir_sampler.h:36-48 | the reservoir holds min(n, k) distinct stream positions |
| `ReservoirSampler.AllDrawsAreValid` | base/reservoir_sampler.h:42-43 | the draws counted are exactly the possible ones |
| `ReservoirSampler.AllDrawsDiffer` | base/reservoir_sampler.h:42-43 | each is counted once |
| `ReservoirSampler.ExtendHits` | base/reservoir_sampler.h:42-46 | how one more item changes the count of each position |
| `ReservoirSampler.Sampler.Add` | base/reservoir_sampler.h:36-48 | the samples in place are the stream's items at the kept positions |
| `SwingLaws.PathFollowsVelocity` | mech/swing_trajectory.cc:63-80 | between any two calls up to the lowering, across the end of the lift and to the target, the reported position moves by the elapsed time times the earlier reported velocity, up to a fixed multiple of the squared time |
| `SwingLaws.HeightFollowsVelocity` | mech/swing_trajectory.cc:48-61 | the same of the height over the whole swing, across the top |
| `SwingLaws.RestingPoints` | mech/swing_trajectory.cc:48-101 | in every call: the start with its velocity at phase 0, rest at the end of the braking at phase blend, rest on the target at 1 - blend, rest at full height at 0.5 |
| `SwingLaws.MoveShape` | mech/swing_trajectory.cc:74-79 | while moving, the share of the way is the cubic of the share of the time |
| `SwingLaws.LowerVelocity` | mech/swing_trajectory.cc:84-88 | while lowering, the reported velocity is the ground's scaled by the share of the blend time |
| `SwingTrajectory.SwingPath` | mech/swing_trajectory.cc:39-104 | over every sequence of calls the phase never falls nor passes 1 and reaches 1 exactly when the swing time is up, the height stays within the lift, and at phase 1 the foot is at the start's height, moving exactly with the ground |
| `SwingTrajectory.PhaseIsElapsedShare` | mech/swing_trajectory.cc:41-43 | the phase is the elapsed share of the swing time, whatever the steps |
| `SwingTrajectory.LiftMeetsMove` | mech/swing_trajectory.cc:64-79 | position and velocity agree where lift becomes move, at rest |
| `SwingTrajectory.MoveMeetsLower` | mech/swing_trajectory.cc:74-101 | they agree where move becomes lower, at rest on the target |
| `SwingTrajectory.HalvesMeet` | mech/swing_trajectory.cc:49-61 | the vertical halves agree at the top, and both ends are at rest at the start's height |
| `SwingTrajectory.LiftDerivative` | mech/swing_trajectory.cc:66-73 | the reported velocity is the slope of the reported position, up to the half square of an exact constant deceleration |
| `SwingTrajectory.MoveDerivative` | mech/swing_trajectory.cc:75-79 | the same for the move, up to a term in the square of the step |
| `SwingTrajectory.VerticalDerivative` | mech/swing_trajectory.cc:50-58 | the same for both vertical halves |
| `SwingTrajectory.BezierDerivative` | base/bezier.h:30-39 | the curve's velocity is the derivative of its position |
| `SwingTrajectory.RemainderIsSmall` | base/bezier.h:30-39 | on the curve the remainder is at most three times the squared step times the distance |
| `SwingTrajectory.LandsNearTarget` | mech/swing_trajectory.cc:83-100 | however the ground moves, the lowering foot is never further from its target than the ground could have carried it since the lowering was due |
| `SwingTrajectory.FollowsGround` | mech/swing_trajectory.cc:87-100 | over steady ground both coordinates are displaced along the ground's velocity by the same time |
| `SwingTrajectory.RampIsTracked` | mech/swing_trajectory.cc:90-99 | over any steps, past the end of the swing too, that time is ahead of an even ramp from rest to the ground's velocity by at most half the longest step, and behind it by at most what that step exceeds one and a half blend times |
| `SwingTrajectory.NeverBehindIff` | mech/swing_trajectory.cc:90-99 | with steps up to a bound it never falls behind, in any run, if and only if the bound is at most one and a half blend times |
| `SwingTrajectory.Trajectory.Advance` | mech/swing_trajectory.cc:39-104 | the call in place |
| `SwingTrajectory.Trajectory.constructor` | mech/swing_trajectory.cc:22-37 | a swing starts at phase 0 |

## Left out

- Rounding of floating point: doubles are reals; infinities and NaN are explicit where the code handles them (estimates of the gait, the servo codec).
- Leg inverse kinematics, plane fitting, force optimisation, the state filter, and the geometry behind `remaining_s`, `invalid_time_s` and the travel distance: their results are arbitrary inputs.
- The positions, velocities and forces in the control logs: a logged leg is its id and its stance, kept in the order of the ids.
- Leg accelerations of the swing path and of the Bezier curve.
- Termination of the jump's phase loop in general: the answers of its phase checks are a finite sequence, and an exhausted sequence means the phase goes on.
- The restoring of latched legs in stance (mech/quadruped_trot.cc:429-462) beyond the stance value.
- ModeSupervisor.CycleIsSafe: assertions on joint lookups, on the velocity of the commanded frame and on the configuration are not part of the model; `kNumModes` is not a mode, and commanding it aborts like kConfiguring.
- ModeSupervisor.QuadrupedControl.HandleStatus: the reply bookkeeping that decides whether a cycle is skipped is an input.
- ModeSupervisor.QuadrupedControl.MaybeChangeMode: commanded velocities, which the code zeroes while waiting to leave the walk, and mode start times are not part of the state.
- A round trip for int8 velocity, whose write scale (mech/moteus.h:152) and read scale (mech/moteus.h:217) differ; the control path uses int16.
- The framing of register writes on the wire, and the order of independent servos in a request.
- StreamTable.HistoryKeepsScheduled: says nothing once a text has left the pool, since what lies behind `g_stream_args` is not part of this model.
- StreamBacklog.BacklogBound: the same holds for passes whose text leaves the pool.
- StreamBacklog.PassKeepsCalm: likewise.
- StreamScheduler.Scheduler.Copy: gives up where strcpy would go on past the pool.
- The text formats of the stream commands (scanf), the stream listing and its bit mask, and what the streamed commands do.
- PacketHandover.HandoverIsSafe: the contents of the servo registers are inputs, and what memory an access past the buffer hits is left open: the machine stops there. Timing of the UART.
- The waveform of single bits on the I2C bus and clock stretching; a collision is an outcome of a byte.
- I2cMaster.Master.RunCommand: states the transcript and the response, not which error code each malformed text yields; the text of the reply is left out.
- ReservoirSampler.Sampler.Add: the random generator is a draw in range; the `int` range of the distribution is not modelled.
- `circular_buffer::back`, which returns the slot of the next push.
- Rendering, video, web server, sockets, logging, telemetry, camera, USB and joystick code.
