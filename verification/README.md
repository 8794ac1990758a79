# A verified model of the Culina C-100 control system

The C-100 has two processors. The application processor runs the cooking session and sends
requests; the safety controller owns the motor, the heater and the lid lock and trusts nothing it
is sent. They talk over C1-Link, a framed byte protocol on a UART. This project models both
processors and the link in Dafny and proves what the design promises of them, over every run.

The model has four layers. Each module gives a specification on values (functions on datatypes),
an object with the same fields, branches and loops as the firmware whose methods are proved equal
to that specification, and theorems about the specification over whole runs.

1. **Safety controller** - `Interlocks`, `MotorController`, `HeaterPid`, `LidModel`,
   `CommandHandler`, `TelemetryPublisher`, `SafetyMcu`; the requirements SR-002 to SR-008 are theorems in
   `SafetyTheorems` (SR-006 in `ApplicationRuntime`), and so is SR-001 for the lid as it stands when a
   tick begins. `SpeedLimits` says exactly when SR-001 fails for the lid as it stands when the tick
   ends, and bounds how fast the speed changes.
2. **C1-Link** - `Bytes`, `Gf2`, `Crc16`, `C1Link`, `FrameParser`, `FrameWriter`, `RingBuffer`,
   `Link`, `Transport`; the stream theorems are in `StreamTheorems`, those about the frame timeout in
   `LinkTiming`, and `WireFormat` ties the bytes to the protocol document.
3. **Request client** - `McuClient`, with `ClientTheorems` for request resolution in true time.
4. **Session and programs** - `CookingController`, `Programs`, `GuidedRecipe`, `RecipeTiming`,
   `TurboPulse`, `TelemetryStore`, `OtaUpdater`, `ApplicationRuntime`. `SessionProgress` shows that
   shutdowns end and programs begin, and in how many ticks.

Six modules join the layers: `SafeStart` (application and controller over two lossy lines),
`ReplyAge` (the same by the clock, which bounds the age of replies), `Heartbeat` (client and
controller millisecond by millisecond), `FaultPath` (a fault on its way from the controller to the
session), `TelemetryPath` (measurements on their way to the application's store) and
`CommandEffects` (a program's command on its way to the motor, heater, lid and scale). `Clock` relates the wrapping 32-bit
millisecond counter to true time, and every timing theorem is stated against true time.
`Wrappers` holds the result types and small shared functions.

Units: temperatures are tenths of a degree, commanded speeds thousandths of an RPM, so the
firmware's comparisons and ramp steps are exact integers; heater power and mean temperatures are
reals. Bytes are bit-vectors of eight bits, the CRC register one of sixteen.

`dafny verify dfyconfig.toml` checks the whole project.

## What the proofs found

- SR-001 asks for a locked lid above 6400 RPM at all times. The code fails it for one tick: the cap
  and the burst check use the lid as sampled when the tick began, and an unlock request in the same
  tick comes after that (`src/mcu/safety_mcu.cpp:54` and `:83`, `src/mcu/command_handler.cpp:93`).
  Locked in one millisecond, the lid can be unlocked in the next and the motor sent to 10700 RPM
  (`SpeedLimits.OversteppedFromPowerOn`). `SpeedLimits.OverstepsExactly` is the exact condition, on
  what a tick finds before its requests; `SpeedLimits.LimitsAtTickEnd` limits it to one tick, since
  the next one ends at 6400 RPM or less.
- A recipe step whose duration is 4294968 seconds or more ends early, because seconds are
  multiplied by 1000 in 32 bits (`src/app/cooking/guided_recipe.cpp:35`). The recipe parser's limit
  of 86400 seconds keeps such steps out of recipe files. `RecipeTiming.FullDurationExactly` is the
  exact condition, for every recipe.
- A turbo pulse whose burst is accepted in the millisecond in which the session clock reads zero
  sends the burst again, because zero also means "not started"
  (`src/app/cooking/turbo_pulse.cpp:14`). `TurboPulse.ScriptExactlyWhenClean` is the exact condition,
  `TurboPulse.BurstTwice` an instance. It is rare: the controller first ticks a program ten
  milliseconds into its session, so the clock reads zero only when it has come round, after 49.7
  days of locking or refused bursts; `TurboPulse.ShortSessionFollowsScript` covers all the rest.
- After a fault report no session can be started: a session begins only with no fault remembered,
  and the controller forgets one only in beginning (`src/app/cooking/cooking_controller.cpp:68` and
  `:144-147`). `CookingController.RunsExactly` gives the exact condition for beginning, and
  `ApplicationRuntime.FaultBarsSessions` the consequence over runs. The one way out is a fault report
  with code zero (`src/app/mcu_client.cpp:51-53`), which the safety controller's publisher never sends
  (`TelemetryPublisher.NumberedAndPaced`).
- The receive deadline belongs to the stretch in which the parser does not hunt. When a rejected
  frame's last byte is itself a sync byte, the frame it begins inherits the old deadline
  (`src/protocol/link.cpp:56-62`). `LinkTiming.FullTimeExactly` says exactly which frames have fifty
  milliseconds of their own, `LinkTiming.DeadlineIsInherited` gives one that is dropped after eleven.
- The CRC notices every change of one byte or of two neighbours but one: 0x89 on the last payload
  byte together with 0xA1 on the checksum's first byte. `StreamTheorems.CorruptionDetected` and
  `StreamTheorems.OneChangePasses` state both halves.
- `docs/c1link-protocol.md:36` says that a missing response produces a timeout after 50 ms. The
  code retries once after 50 ms and gives up after another 50 ms or at 150 ms in all; the model
  follows the code.
- `docs/c1link-protocol.md:39` asks for heartbeats while an output is active. The code sends them
  always.

## Model

| member | source | states |
|---|---|---|
| SafeStart.SafeStart | src/app/cooking/cooking_controller.cpp:94-132 | on every run of application, controller and two lossy FIFO lines, at the step that enters Running or Done the heater loop is off, drive target and command are zero, and HEATER_OFF and then MOTOR_STOP were each obeyed after every set-target request of either kind |
| SafeStart.OffUntilAsked | src/app/cooking/cooking_controller.cpp:114-131 | in every reachable state an acknowledged shutdown means all outputs off, and a running session keeps each output off until it has itself asked for it, as long as no request was made past the session |
| SafeStart.RunKeepsInv | src/app/cooking/cooking_controller.cpp:134-163 | the joint invariant of lines, client, controller and session survives every run |
| SafeStart.ReceiveKeepsInv | src/app/mcu_client.cpp:54-61 | a reply that matches message id and 8-bit sequence number answers the pending request itself, because it is less than 256 numbers old, and taking it in keeps the joint invariant |
| SafeStart.RequestEffect | src/mcu/command_handler.cpp:44-60 | outputs become active only by their set-target request; a positive reply to HEATER_OFF or MOTOR_STOP proves the output off |
| SafeStart.HandleKeepsInv | src/mcu/safety_mcu.cpp:60-69 | handling one request keeps the joint invariant |
| SafeStart.CommandKeepsInv | src/app/cooking/cooking_controller.cpp:114-125 | a shutdown command is numbered after every set-target request |
| SafeStart.ProgramKeepsInv | src/app/cooking/cooking_controller.cpp:153-159 | whatever a program requests, its numbers lie after the session start |
| SafeStart.DirectKeepsInv | src/app/mcu_client.cpp:73-98 | a request made past the session, while it runs a program or rests, keeps the joint invariant |
| SafeStart.TickIsARun | src/mcu/safety_mcu.cpp:51-98 | a whole controller tick is a run of the fine-grained steps, which puts exactly the replies of the tick on the line |
| SafeStart.PollIsARun | src/app/mcu_client.cpp:11-71 | so is a whole client poll, and it puts exactly the requests of the poll on the line |
| ReplyAge.SafeStartByTheClock | src/app/application_runtime.cpp:11-17 | with one poll in every millisecond, a controller tick after every tenth poll, at most one program command in a tick, and replies handled within 230 ms of their requests or lost: outputs off and the shutdown obeyed last whenever Running or Done is entered, with no premise on sequence numbers |
| ReplyAge.InTimeIsEnabled | src/app/mcu_client.cpp:54-61 | a reply handled within 230 ms of its request is less than 256 numbers old |
| ReplyAge.StepSpends | src/app/mcu_client.cpp:11-98 | a poll or a controller tick uses at most one sequence number, nothing else uses any, and a retry leaves no heartbeat due in the same poll |
| ReplyAge.ClockedIsARun | src/app/application_runtime.cpp:11-17 | every run by the clock is a run of the system in which each step was possible |
| FaultPath.FaultsArrive | src/mcu/telemetry_publisher.cpp:8-16 | on every run over a line that loses nothing, once the link has taken the report and the line has been read, the application remembers exactly the fault entered last, which is the one latched; before the first it remembers none |
| FaultPath.EnteredFaultEndsTheSession | src/app/cooking/cooking_controller.cpp:144-147 | the first controller tick that finds the report of an entered fault ends Faulted, whatever session and program were doing |
| FaultPath.KnownFaultBarsAll | src/app/cooking/cooking_controller.cpp:144-147 | from then on every controller tick ends Faulted, over any run, also after the safety controller has recovered |
| FaultPath.RoomTakesTheReport | src/mcu/telemetry_publisher.cpp:8-16 | a tick with room for a fault report leaves none pending |
| FaultPath.SessionKeepsFault | src/app/cooking/cooking_controller.cpp:44-163 | no start, stop or tick changes the remembered fault |
| Heartbeat.LinkNeverLost | src/app/mcu_client.cpp:65-70 | from power-on at any clock value, client polled every millisecond, frames handled within four seconds: the controller is never in the link-lost state and from the first poll on requests are queued at least once a second |
| Heartbeat.PassKeepsInv | src/app/mcu_client.cpp:65-70 | one millisecond of client, line and controller keeps the spacing of queued requests |
| SafetyTheorems.HeaterGate | src/mcu/safety_mcu.cpp:78-90 | on every run, positive heater power implies readable sensor below 165.0 degrees, no stall, lid closed, no fault, legal set point, and a request heard less than 5000 true ms ago; power never exceeds 1200 W |
| SafetyTheorems.HeaterHeats | src/mcu/safety_mcu.cpp:85-90 | the other side of the gate: with the loop on, the lid shut and no fault left, a tick heats below the set point, at full power from 9.3 degrees below it, and not at all from the set point on, as far as the integral does not say otherwise; and it integrates exactly the deviation inside the band |
| SafetyTheorems.OpenLidPausesHeating | src/mcu/safety_mcu.cpp:85-90 | with the lid open or the loop off a tick gives no power and integrates nothing |
| SafetyTheorems.SpeedCap | src/mcu/safety_mcu.cpp:83 | SR-001 and SR-002 after every tick on every run, against the lid and temperature as they stood at the start of the tick, on ramp and burst paths, also with stale readings; the lid at the end of the tick is the subject of SpeedLimits |
| SpeedLimits.OverstepsExactly | src/mcu/safety_mcu.cpp:58-83 | the requests of one tick can end it with an unlocked lid and more than 6400 RPM if and only if the lid was locked, the reading is at most 60.0 degrees, the speed below 100 RPM and the motor not stalled |
| SpeedLimits.LimitsAtTickEnd | src/mcu/safety_mcu.cpp:58-83 | when a tick ends, an open lid means at most 500 RPM without exception; a tick that begins unlocked ends at 6400 RPM or less |
| SpeedLimits.UnlockThenBurst | src/mcu/command_handler.cpp:92-102 | a stop, an unlock and a burst in one such tick end it at full speed on an unlocked lid |
| SpeedLimits.OversteppedFromPowerOn | src/mcu/command_handler.cpp:92-102 | an instance in the second tick after power-on |
| SpeedLimits.TickRamp | src/mcu/motor_controller.cpp:54-70 | over a whole controller tick without a burst the speed rises by at most 2.5 RPM; without a stop or a fault it falls by at most 10 RPM below what the cap leaves of it |
| SpeedLimits.RunRamp | src/mcu/motor_controller.cpp:54-70 | from any reachable state, over any n ticks without a burst, the speed rises by at most 2.5 n RPM |
| SpeedLimits.UndisturbedRunRamps | src/mcu/motor_controller.cpp:54-70 | over any run of controller ticks without motor commands, faults or a binding cap, the drive is exactly where the straight ramp to its target has it |
| SafetyTheorems.LockHolds | src/mcu/command_handler.cpp:176-183 | SR-008: a locked lid survives any frames while the measured speed is 100 RPM or more, or while the sensors cannot be read |
| SafetyTheorems.LinkLostExactly | src/mcu/safety_mcu.cpp:78-81 | SR-005: link loss is raised if and only if an output is active and no request has been heard for five true seconds |
| SafetyTheorems.SupervisionExact | src/mcu/safety_mcu.cpp:78-81 | the wrapping 32-bit test of link supervision agrees with true elapsed time |
| SafetyTheorems.TickFaults | src/mcu/safety_mcu.cpp:51-90 | SR-003, SR-004, SR-007: an unsafe sample always ends the tick in a fault, an unreadable sensor in its own fault, and every fault means outputs off and zero watts |
| SafetyTheorems.RunKeepsInv | src/mcu/safety_mcu.cpp:51-98 | the invariant against the true clock over every run |
| SafetyTheorems.RunSound | src/mcu/safety_mcu.cpp:51-98 | on every run and any clock: faulted means off, locked means closed, heater target legal |
| SafetyTheorems.FaultLatch | src/mcu/safety_mcu.cpp:36-69 | from any latched fault, over any run: the fault goes only after an empty MOTOR_STOP in a tick with a safe sample, and an output is on only after a set-target request later than that |
| SafetyTheorems.FaultClearsExactly | src/mcu/safety_mcu.cpp:36-69 | a tick that finds a fault ends without one if and only if its sample is safe and one of its frames is an empty MOTOR_STOP |
| SafetyTheorems.DrainLatch | src/mcu/safety_mcu.cpp:60-69 | the same within the frames of a single tick |
| SafetyTheorems.ReceiveSound | src/mcu/safety_mcu.cpp:60-69 | one frame keeps the controller sound and unlocks the lid only below 100 RPM |
| SafetyTheorems.GrantedSpeedStands | src/mcu/command_handler.cpp:79-108 | the granted RPM in a reply is what was asked for, up to the cap of the sampled inputs, and is the target at the end of that tick unless a later motor command or a fault intervenes |
| SafetyTheorems.GrantBecomesTarget | src/mcu/command_handler.cpp:79-108 | a positive reply carries the smaller of the requested speed and the continuous cap, which is the new target; a ramp leaves the commanded speed, a burst jumps to it |
| SafetyTheorems.RepliesMatchRequests | src/mcu/command_handler.cpp:26-60 | every request of a tick gets exactly one echoing reply, in order; nothing else is answered |
| SafetyMcu.SafetyMcu.Tick1ms | src/mcu/safety_mcu.cpp:51-103 | the tick on the objects computes the specified state, replies, heater power, duty, fault reports and telemetry frames |
| SafetyMcu.SafetyMcu.SampleInputs | src/mcu/safety_mcu.cpp:14-26 | all inputs are refreshed together or not at all |
| SafetyMcu.SafetyMcu.EnterFaultState | src/mcu/safety_mcu.cpp:28-34 | outputs off, the code latched and handed to the publisher |
| SafetyMcu.SafetyMcu.DrainPort | src/mcu/safety_mcu.cpp:58-69 | frames are handled in arrival order, with all their replies |
| SafetyMcu.SafetyMcu.HandleFrame | src/mcu/safety_mcu.cpp:60-68 | one frame: time stamp, command, acknowledgement |
| SafetyMcu.SafetyMcu.Protect | src/mcu/safety_mcu.cpp:71-81 | interlocks, then link supervision |
| SafetyMcu.SafetyMcu.Drive | src/mcu/safety_mcu.cpp:83-92 | cap, heater, ramp |
| SafetyMcu.SafetyMcu.CanClear | src/mcu/safety_mcu.cpp:36-49 | the recovery condition of each fault |
| SafetyMcu.SafetyMcu.PublishTelemetry | src/mcu/safety_mcu.cpp:94-102 | the measurements of the tick are offered to the publisher |
| SafetyMcu.EnteredFaultIsReported | src/mcu/safety_mcu.cpp:28-34 | every fault a tick enters is handed to the publisher, and nothing else is |
| TelemetryPublisher.NumberedAndPaced | src/mcu/telemetry_publisher.cpp:7-29 | over any run and any refusals, telemetry frames are numbered without gaps, no fault report has code zero, and measurements are at least ten true ms apart |
| TelemetryPublisher.ReportIsSent | src/mcu/telemetry_publisher.cpp:8-16 | a fault report survives any number of refusals and is the first frame to go out once there is room |
| TelemetryPath.MeasuredIsPublished | src/mcu/safety_mcu.cpp:94-102 | measurements are published exactly if ten true ms have passed, the link has room and no report is held up; they decode to the temperature, speed, lid, lock and stall sampled in the tick, the weight since the tare, and heater-on exactly when power flows |
| TelemetryPath.MeasuredIsStored | src/app/mcu_client.cpp:42-50 | the application then has exactly these as its latest sample |
| TelemetryPublisher.TelemetryPublisher.MaybePublish | src/mcu/telemetry_publisher.cpp:7-29 | the publisher object: report first, then, when due, the payload encoded in place |
| TelemetryPublisher.TelemetryPublisher.PublishFault | src/mcu/telemetry_publisher.cpp:31-33 | the latest fault is the one to report |
| CommandHandler.OneReplyPerRequest | src/mcu/command_handler.cpp:26-60 | exactly one echoing reply per request, none otherwise; a refusal changes nothing |
| CommandHandler.FaultGate | src/mcu/command_handler.cpp:48-52 | while a fault is latched commands can only switch off |
| CommandHandler.OnlySetTargetActivates | src/mcu/command_handler.cpp:79-131 | only an accepted set-target request activates an output, and heater targets are within 370 to 1600 |
| CommandEffects.CommandTakesEffect | src/app/mcu_client.cpp:109-136 | command by command: what a program asks of the client is queued as one frame exactly if the client is free and the link has room, is granted exactly if it can be obeyed and no fault bars it, and then changes what it names as it says, and nothing else |
| CommandEffects.FrameTakesEffect | src/mcu/command_handler.cpp:62-183 | the same from the frame on: its message id and payload mean the command to the safety controller |
| CommandHandler.HeaterTargetIsRequested | src/mcu/command_handler.cpp:119-131 | a granted heater request switches the loop on with the requested set point and touches nothing else |
| CommandHandler.Identifies | src/mcu/command_handler.cpp:62-77 | PING and GET_VERSION are answered, the latter with 0.9.0, faulted or not, and change nothing |
| CommandHandler.CommandHandler.HandleRequest | src/mcu/command_handler.cpp:44-183 | the dispatch on the objects computes the specified plant and reply |
| CommandHandler.CommandHandler.HandleMotorSetTarget | src/mcu/command_handler.cpp:79-108 | motor request: bounds, burst conditions, grant |
| CommandHandler.CommandHandler.HandleHeaterSetTarget | src/mcu/command_handler.cpp:119-131 | heater request: range check |
| CommandHandler.CommandHandler.HandleEmpty | src/mcu/command_handler.cpp:62-183 | the handlers of the requests without payload |
| CommandHandler.UnknownIsRefused | src/mcu/command_handler.cpp:53-59 | a message id without a handler is refused |
| CommandHandler.GrantedExactly | src/mcu/command_handler.cpp:44-183 | a request is granted if and only if the conditions of the message catalogue (docs/c1link-protocol.md) hold and no fault bars it |
| CommandHandler.ScaleCountsFromTare | src/mcu/command_handler.cpp:142-164 | after a tare at one raw count, a reading reports the difference to less than a gram, and zero at the same count |
| CommandHandler.LockReplyIsHonest | src/mcu/command_handler.cpp:166-174 | the reply to a lock request says whether the lid is locked, which it is exactly when it is closed |
| Interlocks.GrantIsCappedRequest | src/mcu/interlocks.cpp:7-32 | granting min(request, 10700) equals min(request, continuous cap) |
| Interlocks.ContinuousCap | src/mcu/interlocks.cpp:21-32 | 500 RPM with the lid open; full speed if and only if closed, locked and at most 60.0 degrees; 6400 RPM otherwise |
| MotorController.RampEnvelope | src/mcu/motor_controller.cpp:54-69 | closed form of any number of undisturbed ticks: straight line, no overshoot, reached after an explicit count |
| MotorController.RampWithinDatasheet | src/mcu/motor_controller.cpp:9-29 | every profile stays within 2500 RPM/s up and 10000 RPM/s down, inside the data sheet of docs/datasheets/motor-driver-mx400.md |
| MotorController.ProfileRates | src/mcu/motor_controller.cpp:9-21 | gentle, normal and fast gain exactly 500, 1500 and 2500 RPM a second over any number of ticks short of the target, and slowing down loses four times as much |
| MotorController.MotorController.Tick1ms | src/mcu/motor_controller.cpp:54-69 | one ramp step; the duty is the commanded speed |
| MotorController.MotorController.SetTarget | src/mcu/motor_controller.cpp:23-29 | target clamped to 10700 RPM, profile selected |
| MotorController.MotorController.Burst | src/mcu/motor_controller.cpp:31-37 | target and command jump together |
| MotorController.MotorController.Stop | src/mcu/motor_controller.cpp:39-43 | target, command and duty zero |
| MotorController.MotorController.EnforceCap | src/mcu/motor_controller.cpp:45-52 | target and command cut to the cap |
| HeaterPid.NoWindup | src/mcu/heater_pid.cpp:34-36 | over any readings the integral drifts at most 5 degree-milliseconds a step, and not at all outside the band |
| HeaterPid.ColdIsHeated | src/mcu/heater_pid.cpp:29-45 | below the set point the enabled loop heats, and at 1200 W from 9.3 degrees below it, if the integral is not negative |
| HeaterPid.HotIsNotHeated | src/mcu/heater_pid.cpp:29-45 | at or above the set point there is no power, if the integral is not positive |
| HeaterPid.WarmerNeverRaises | src/mcu/heater_pid.cpp:29-45 | the power never rises with the reading, across the edges of the integration band too |
| HeaterPid.PowerIsLinear | src/mcu/heater_pid.cpp:8-12 | between the limits a tenth of a degree is worth 13 W, and at the set point a degree-second of integral 2 W |
| HeaterPid.IntegralIsSum | src/mcu/heater_pid.cpp:34-36 | over any readings the integral grows by exactly the deviations of those less than five degrees from the target |
| HeaterPid.HeaterPid.Update | src/mcu/heater_pid.cpp:29-45 | power is the clamped control law, the integral moves only inside the band |
| HeaterPid.HeaterPid.SetTarget | src/mcu/heater_pid.cpp:15-21 | a new or first target clears the integral |
| HeaterPid.HeaterPid.Disable | src/mcu/heater_pid.cpp:23-27 | everything cleared |
| LidModel.LockedStaysShut | src/sim/lid_model.h:12-23 | over any user moves locked implies closed, and a locked lid does not move |
| LidModel.UnlockedFollowsTheUser | src/sim/lid_model.h:10-18 | an unlocked lid is as the user last moved it |
| LidModel.LidModel.SetLock | src/sim/lid_model.h:19-23 | the lock moves only on a closed lid |
| LidModel.LidModel.OpenByUser | src/sim/lid_model.h:12-16 | opening is refused while locked |
| StreamTheorems.ParserIsSound | src/protocol/frame_parser.cpp:21-104 | on arbitrary bytes a delivered frame is exactly the latest 8+N+2 bytes, well-formed with matching CRC |
| StreamTheorems.ParserIsComplete | src/protocol/frame_parser.cpp:21-104 | between frames every well-formed frame is delivered, on its last byte only |
| StreamTheorems.DeliveredUnlessTakenIn | src/protocol/frame_parser.cpp:14-104 | after any bytes a well-formed frame is delivered unless its first byte goes on another frame: a byte that spoils one frame may begin the next |
| StreamTheorems.StreamRoundTrip | src/protocol/frame_writer.cpp:9-29 | any frames, separated by any noise without a sync pair, arrive exactly and in order, whatever the payloads contain |
| StreamTheorems.StreamTiming | src/protocol/frame_parser.cpp:82-100 | each frame of such a stream arrives on its last byte, not before |
| StreamTheorems.NoiseIsIgnored | src/protocol/frame_parser.cpp:28-35 | bytes without a sync pair deliver nothing and leave the parser idle |
| StreamTheorems.CorruptionDetected | src/protocol/frame_parser.cpp:82-92 | altering one byte or two adjacent bytes of a written frame (flags, type, sequence, id, payload, CRC, or across payload and CRC) makes the parser reject it and resume hunting, except for exactly one change, 0x89 on the last payload byte with 0xA1 on the first CRC byte |
| StreamTheorems.OneChangePasses | src/protocol/frame_parser.cpp:82-92 | every frame with a payload does have that one change, and it is delivered as another frame |
| StreamTheorems.Recovers | src/protocol/frame_parser.cpp:63-81 | among any 258 bytes after a sync pair one sends the parser back to hunting |
| StreamTheorems.EncodeIsWellFormed | src/protocol/frame_writer.cpp:9-29 | what the writer produces is a frame of the protocol document |
| WireFormat.FrameLayout | docs/c1link-protocol.md:9-18 | every field of an encoded frame is where the protocol document has it |
| WireFormat.FirstPing | src/protocol/frame_writer.cpp:9-29 | the ten bytes of the first ping, the checksum with its low byte first |
| WireFormat.TelemetryLayout | docs/c1link-protocol.md:57 | the fields of a telemetry payload, little-endian at their offsets |
| WireFormat.FieldsAreLittleEndian | src/protocol/c1link.h:87-122 | all integer fields are little-endian, signed ones in two's complement |
| StreamTheorems.EncodeAllRoundTrip | src/protocol/frame_writer.cpp:9-29 | back-to-back encodings decode to the same frames |
| StreamTheorems.PrefixOfStream | src/protocol/frame_parser.cpp:21-104 | any prefix of the bytes yields a prefix of the frames |
| StreamTheorems.FeedConcat | src/protocol/frame_parser.cpp:21-104 | feeding two pieces in turn is feeding their concatenation |
| StreamTheorems.HistoryExplains | src/protocol/frame_parser.cpp:21-104 | the parser state always says what the latest bytes were |
| FrameParser.FrameParser.Feed | src/protocol/frame_parser.cpp:21-104 | the incremental eleven-state parser refines the collect-then-judge specification; payload writes stay in bounds |
| FrameParser.FrameParser.FeedHeader | src/protocol/frame_parser.cpp:36-58 | version, type, sequence number, message id |
| FrameParser.FrameParser.FeedLengthHi | src/protocol/frame_parser.cpp:63-72 | an illegal length is rejected as soon as it is known |
| FrameParser.FrameParser.FeedPayload | src/protocol/frame_parser.cpp:73-81 | payload bytes are stored in place |
| FrameParser.FrameParser.FeedLast | src/protocol/frame_parser.cpp:86-101 | the verdict at the last byte |
| FrameParser.FrameParser.ResyncOn | src/protocol/frame_parser.cpp:14-19 | a rejected byte may itself begin a sync pair |
| FrameWriter.WriteFrame | src/protocol/frame_writer.cpp:9-29 | writes the encoding in place or nothing, and no byte outside it |
| Crc16.CrcDetectsPair | src/common/crc16.cpp:5-21 | messages that differ within two adjacent bytes have different CRCs, with any head and tail |
| Crc16.CrcDetectsByte | src/common/crc16.cpp:5-21 | the same for a single byte, which may be the last |
| Crc16.AdjacentBytesInjective | src/common/crc16.cpp:8-18 | two register steps are injective in the pair of bytes |
| Crc16.ShiftsInjective | src/common/crc16.cpp:10-18 | bit shifts of the register are injective |
| Crc16.StraddlingChange | src/common/crc16.cpp:5-21 | a change of the last message byte goes with a change of the lower CRC byte exactly for 0x89 and 0xA1 |
| Crc16.CrcLinear | src/common/crc16.cpp:5-21 | the CRC is linear over GF(2) in register and message |
| Crc16.CrcConcat | src/common/crc16.cpp:5-21 | a CRC may be taken in pieces, each seeded with the one before |
| Crc16.CrcTailInjective | src/common/crc16.cpp:5-21 | different registers still differ after any common tail |
| Crc16.CheckValue | tests/unit/crc16_test.cpp:7-11 | the catalogued check value 0x29B1 |
| Crc16.Ccitt | src/common/crc16.cpp:5-21 | the nested bit loop computes the CRC of the specification |
| C1Link.TelemetryRoundTrip | src/protocol/c1link.h:124-130 | every telemetry field is read back where it was written |
| C1Link.FlagsReadBack | src/mcu/safety_mcu.cpp:99-101 | each telemetry flag bit tells its own condition |
| C1Link.I16RoundTrip | src/protocol/c1link.h:96-102 | signed 16-bit fields survive the wire |
| C1Link.U32RoundTrip | src/protocol/c1link.h:104-114 | unsigned 32-bit fields survive the wire |
| C1Link.I32RoundTrip | src/protocol/c1link.h:116-122 | signed 32-bit fields survive the wire |
| C1Link.StoreU16 | src/protocol/c1link.h:87-90 | writes two bytes in place and no others |
| C1Link.StoreU32 | src/protocol/c1link.h:104-109 | writes four bytes in place and no others |
| C1Link.StoreTelemetry | src/protocol/c1link.h:124-130 | writes the thirteen payload bytes in place and no others |
| Link.Link.Send | src/protocol/link.cpp:9-32 | a frame is accepted exactly when legal and fitting; accepted frames extend the outgoing bytes by their encoding, refused ones leave them unchanged |
| Link.Link.FlushTx | src/protocol/link.cpp:39-50 | a partial UART write neither loses nor reorders a byte |
| Link.Link.Compact | src/protocol/link.cpp:14-19 | moving the unsent bytes to the front keeps them |
| Link.Link.CancelPendingTx | src/protocol/link.cpp:34-37 | drops what the UART has not taken, possibly half a frame |
| Link.Link.Poll | src/protocol/link.cpp:52-70 | reads up to one frame; state and frame start are those of the timed receiver, and a frame in progress is dropped exactly when the parser has not hunted for more than 50 true ms |
| Link.Link.DropStalled | src/protocol/link.cpp:64-68 | the signed 32-bit deadline test agrees with true time |
| Link.Link.Receive | src/protocol/link.cpp:55-63 | the read loop consumes a prefix of the waiting bytes and computes exactly the state, the frame and the time at which the parser last ceased to hunt |
| Link.Link.ReceiveByte | src/protocol/link.cpp:56-62 | the deadline is set exactly by the byte that ends the hunt |
| Link.HearIsParsing | src/protocol/link.cpp:55-63 | the timed receiver is the byte-stream parser |
| LinkTiming.FullTimeExactly | src/protocol/link.cpp:56-68 | on every run a frame in progress has 50 ms from its own first sync byte if and only if that byte found the parser hunting, or some moment of the same millisecond before it did |
| LinkTiming.DeadlineIsInherited | src/protocol/link.cpp:56-68 | a run in which a frame is dropped 11 ms after it began |
| Link.Endpoint.Write | src/sim/in_memory_transport.h:22-28 | accepts as many bytes as fit, in order |
| Transport.Duplex.FifoDelivery | src/sim/in_memory_transport.h:12-41 | in every state the received frames are a prefix of the sent ones, and all of them once nothing is on the way |
| Transport.Duplex.Send | src/protocol/link.cpp:9-32 | sending keeps the conservation invariant |
| Transport.Duplex.PollFar | src/protocol/link.cpp:52-70 | receiving in time keeps the conservation invariant |
| Transport.Duplex.PollNear | src/protocol/link.cpp:39-50 | flushing keeps the conservation invariant |
| RingBuffer.RingBuffer.Push | src/common/ring_buffer.h:14-22 | the circular buffer is a bounded FIFO: append |
| RingBuffer.RingBuffer.Pop | src/common/ring_buffer.h:24-32 | the circular buffer is a bounded FIFO: take |
| ClientTheorems.RequestsResolve | src/app/mcu_client.cpp:11-98 | over every run each accepted request ends exactly once, is queued at most twice, and is not still waiting after a poll at or past 150 true ms |
| ClientTheorems.PollOutcome | src/app/mcu_client.cpp:11-63 | exactly how a poll decides: timeout, or the first frame with the pending id and latest sequence number, or waiting |
| ClientTheorems.TimersExact | src/app/mcu_client.cpp:12-19 | deadline and retry tests on the wrapping clock agree with true time while a request waits |
| ClientTheorems.ExpireExact | src/app/mcu_client.cpp:12-38 | the first stage of a poll in true time: deadline, one retry, timeout |
| ClientTheorems.RetryRepeatsTheRequest | src/app/mcu_client.cpp:18-30 | over every run: a poll sends the open request again, with the message id and payload that were asked for and a new number, exactly if it has waited more than 50 and less than 150 true ms, was not sent again before, and the link has room; otherwise it sends at most a ping |
| ClientTheorems.RequestGoesOut | src/app/mcu_client.cpp:73-98 | a request is accepted exactly if none is open, no reply waits, it fits and the link has room, and goes out as it was asked |
| ClientTheorems.AbsorbAllMeans | src/app/mcu_client.cpp:40-63 | a batch completes the request if and only if some frame answers it, and the first such frame becomes the response |
| ClientTheorems.LatestFaultIsRemembered | src/app/mcu_client.cpp:51-53 | the remembered fault code is the one most recently reported |
| ClientTheorems.RunKeepsInv | src/app/mcu_client.cpp:11-98 | the accounting of accepted, resolved and queued requests over every run |
| ClientTheorems.PollKeepsBeating | src/app/mcu_client.cpp:65-70 | with a willing link less than a second passes between queued requests |
| McuClient.McuClient.PollLink | src/app/mcu_client.cpp:11-71 | expiry, receive loop with stored telemetry, and heartbeat on the object are the specified stages; the pending transmission is cancelled once exactly when the request times out |
| McuClient.McuClient.ExpireOrRetry | src/app/mcu_client.cpp:12-38 | deadline and retry, and the cancellation of the pending transmission exactly when the request times out |
| McuClient.McuClient.AbsorbFrame | src/app/mcu_client.cpp:41-62 | telemetry is stored, fault reports and correlated replies are taken in |
| McuClient.MeasurementsArrive | src/app/mcu_client.cpp:42-50 | a telemetry frame of the controller leaves in the store exactly what was measured, stamped on arrival |
| McuClient.ReportIsRemembered | src/app/mcu_client.cpp:51-53 | a fault report is remembered as a fault |
| McuClient.McuClient.SendHeartbeat | src/app/mcu_client.cpp:65-70 | untracked ping |
| McuClient.McuClient.SendRequest | src/app/mcu_client.cpp:73-98 | a request is refused while another is open; a refusal by the link still uses up a sequence number |
| McuClient.McuClient.TakeResponse | src/app/mcu_client.cpp:100-107 | the response is handed over once |
| CookingController.SessionStaysOrderly | src/app/cooking/cooking_controller.cpp:44-163 | the session invariant over all interleavings of start, stop and tick with any replies, refusals, timeouts and faults |
| CookingController.HappenKeepsSession | src/app/cooking/cooking_controller.cpp:44-163 | each event keeps the invariant; MOTOR_STOP is never issued by a shutdown before HEATER_OFF is acknowledged; Running and Done are entered only from an acknowledged shutdown |
| CookingController.StoppingKeepsSession | src/app/cooking/cooking_controller.cpp:94-132 | the shutdown sequence issues at most one command, the right one |
| CookingController.RunsExactly | src/app/cooking/cooking_controller.cpp:126-131 | a tick begins a session if and only if a program waits for a shutdown with both commands acknowledged, no fault is remembered and no command has failed |
| SessionProgress.ShutdownTickExactly | src/app/cooking/cooking_controller.cpp:94-163 | a shutdown is a machine of five stages, which each tick follows exactly: acknowledged commands give way to the next, failed ones are due again, due ones are queued if client and link are free, and after both the waiting program begins or the session is over |
| SessionProgress.OtherTickExactly | src/app/cooking/cooking_controller.cpp:134-163 | outside a shutdown a tick makes the session Faulted exactly on a reported fault or a failed command, runs the program, and begins the shutdown when it ends |
| SessionProgress.StartedProgramRuns | src/app/cooking/cooking_controller.cpp:44-71 | a started program runs after three ticks with room if its commands are answered in between, from idle, done or after a fault shutdown |
| SessionProgress.StoppedSessionIsDone | src/app/cooking/cooking_controller.cpp:73-80 | a stopped session is done after three such ticks |
| SessionProgress.PressedIsDone | src/app/application_runtime.cpp:11-17 | in the runtime, polled every ms and ticked every tenth: a program whose start is pressed runs at the third tick, and a stopped session is done by then |
| SessionProgress.ThreeRounds | src/app/cooking/cooking_controller.cpp:94-132 | a fresh shutdown queues HEATER_OFF in the first round, MOTOR_STOP in the second and ends in the third |
| SessionProgress.RoundMoves | src/app/cooking/cooking_controller.cpp:94-132 | one round of polls and a tick: what was asked for is acknowledged, and the next command is asked for |
| SessionProgress.PollsGrant | src/app/mcu_client.cpp:11-71 | polls that come in time and bring no bad news leave a request open or granted |
| SessionProgress.ReplyObliges | src/app/mcu_client.cpp:54-61 | a round with nothing open, or with one poll in time that brings the positive reply, meets the condition of the three rounds |
| SessionProgress.StartsExactly | src/app/cooking/cooking_controller.cpp:44-56 | a program can be started exactly from an idle or done session or after a completed fault shutdown; otherwise nothing changes |
| SessionProgress.StopsExactly | src/app/cooking/cooking_controller.cpp:73-80 | stopping withdraws a waiting program, lets a shutdown go on, and begins one otherwise |
| CookingController.ReportedFaultBarsRestart | src/app/cooking/cooking_controller.cpp:144-147 | while a fault code is remembered no controller event begins a session or forgets it, and every tick ends Faulted |
| ApplicationRuntime.FaultBarsSessions | src/app/application_runtime.cpp:11-17 | over any run of polls, ticks, starts and stops no session is entered while a reported fault stands and no later report has code zero |
| CookingController.StoppedStaysStopped | src/app/cooking/cooking_controller.cpp:73-80 | after a stop no program runs until one is started again, over any later events; a waiting program is dropped |
| CookingController.CookingController.Tick10ms | src/app/cooking/cooking_controller.cpp:134-163 | the tick on the objects computes the specified session, client, frames, display and image check |
| CookingController.CookingController.RunStoppingSequence | src/app/cooking/cooking_controller.cpp:94-132 | the shutdown sequence on the objects |
| CookingController.CookingController.NoteOutcome | src/app/cooking/cooking_controller.cpp:95-112 | acknowledgements in order, failed commands issued again |
| CookingController.CookingController.Start | src/app/cooking/cooking_controller.cpp:44-56 | start is refused while running, stopping or still shutting down from a fault |
| CookingController.CookingController.BeginProgram | src/app/cooking/cooking_controller.cpp:58-71 | a session begins with all flags, fault and status cleared |
| CookingController.CookingController.StopSession | src/app/cooking/cooking_controller.cpp:73-80 | stop withdraws a waiting program or begins a shutdown |
| CookingController.CookingController.ShutDown | src/app/cooking/cooking_controller.cpp:82-92 | a shutdown begins with nothing sent or acknowledged |
| CookingController.CookingController.RefreshDisplay | src/app/cooking/cooking_controller.cpp:141-142 | the mean and the warning shown are those of the last two seconds |
| CookingController.CookingController.StepOta | src/app/cooking/cooking_controller.cpp:149-151 | one chunk of a verification in progress |
| CookingController.CookingController.SettleSession | src/app/cooking/cooking_controller.cpp:136-147 | feed, reply, display, failure check |
| GuidedRecipe.RecipeFollowsScript | src/app/cooking/guided_recipe.cpp:68-93 | whatever is refused and retried, accepted commands are a prefix of the recipe's script, timed as it says, and all of it when finished |
| RecipeTiming.FullDurationExactly | src/app/cooking/guided_recipe.cpp:34-35 | for every recipe and start time: on all runs every timed step lasts its full duration if and only if every Mix and Heat duration is below 4294968 seconds; and the same for the runs ticked every ten milliseconds |
| RecipeTiming.HoldIsDuration | src/app/cooking/guided_recipe.cpp:35 | the 32-bit product of seconds and 1000 is the duration exactly below that bound |
| RecipeTiming.ScriptWaitsNoLonger | src/app/cooking/guided_recipe.cpp:5-93 | line by line the script has the recipe's commands and waits no longer than the recipe says |
| RecipeTiming.BriskRun | src/app/cooking/guided_recipe.cpp:68-93 | every recipe has a run through all its steps, ticked exactly every ten milliseconds, in which each timed step ends within two ticks of the time the script allows |
| GuidedRecipe.NextTakesALine | src/app/cooking/guided_recipe.cpp:5-93 | each tick takes exactly the next line off the script when its command is accepted, none otherwise |
| GuidedRecipe.StepEndsExactly | src/app/cooking/guided_recipe.cpp:29-40 | a weighing ends exactly on a reading of at least the weight, a note exactly once confirmed |
| Programs.DialSpeeds | src/app/cooking/program.h:38-40 | dial d gives 1070 times min(d, 10) RPM |
| GuidedRecipe.GuidedRecipe.OnTick | src/app/cooking/guided_recipe.cpp:68-93 | the tick on the object issues the specified command through the client and moves as its fate implies |
| GuidedRecipe.GuidedRecipe.RunSetup | src/app/cooking/guided_recipe.cpp:5-27 | set-up commands of each step kind |
| GuidedRecipe.GuidedRecipe.RunTeardown | src/app/cooking/guided_recipe.cpp:42-59 | tear-down commands of each step kind |
| Programs.Issue | src/app/mcu_client.cpp:109-136 | the client's command wrappers: one request with the right id and payload |
| TurboPulse.PulseFollowsScript | src/app/cooking/turbo_pulse.cpp:5-37 | accepted commands are lock, burst, stop no sooner than the pulse length after the last burst, unlock; the burst repeats only at clock zero |
| TurboPulse.ScriptExactlyWhenClean | src/app/cooking/turbo_pulse.cpp:13-20 | the plain four-command script is followed from here on if and only if no burst was accepted when the session clock read zero |
| TurboPulse.BurstTwice | src/app/cooking/turbo_pulse.cpp:13-17 | a concrete session that bursts twice, when the session clock has come round |
| TurboPulse.ShortSessionFollowsScript | src/app/cooking/turbo_pulse.cpp:5-37 | a session of less than 2^32 ms, not ticked in its first millisecond, follows the plain script |
| TurboPulse.UnlockWaitsForRunDown | src/app/cooking/turbo_pulse.cpp:27-33 | the unlock is accepted only after the stop and on a tick whose reading is below 100 RPM |
| TurboPulse.PulseOnSchedule | src/app/cooking/turbo_pulse.cpp:5-37 | ticked every ten ms with its commands accepted, a pulse locks, bursts, stops in the tick after its length is over, unlocks in the next and is finished, at exactly these times |
| TurboPulse.TurboPulse.OnTick | src/app/cooking/turbo_pulse.cpp:5-37 | the tick on the object; unlocking waits for a reading below 100 RPM |
| TurboPulse.TurboPulse.constructor | src/app/cooking/turbo_pulse.h:11 | pulses are limited to 2000 ms |
| TelemetryStore.WindowOverHistory | src/app/telemetry_store.cpp:28-63 | after any run of appends a query scans exactly the retained samples within the window, across wraparound |
| TelemetryStore.TelemetryStore.QueriesEndAtTheLatest | src/app/telemetry_store.cpp:13-26 | after any run of appends the latest sample is the one appended last, and queries scan the window that ends with it |
| TelemetryStore.MeanIsFair | src/app/telemetry_store.cpp:28-44 | the mean of one sample is its temperature and all samples count alike |
| TelemetryStore.ScanFindsTheWindow | src/app/telemetry_store.cpp:36-39 | stopping at the first sample too old loses none |
| TelemetryStore.WithinExactly | src/app/telemetry_store.cpp:37-39 | membership of the window, both ways |
| TelemetryStore.HistoryIsTheLast | src/app/telemetry_store.cpp:5-11 | the store holds the last min(n, 360000) samples |
| TelemetryStore.HotBowlExactly | src/app/cooking/cooking_controller.cpp:142 | the display warns if and only if some reading in the window is above 60.0 degrees |
| TelemetryStore.TelemetryStore.Append | src/app/telemetry_store.cpp:5-11 | append and evict |
| TelemetryStore.TelemetryStore.AverageTempC | src/app/telemetry_store.cpp:28-44 | the backward loop computes the mean of the window |
| TelemetryStore.TelemetryStore.MaxTempC | src/app/telemetry_store.cpp:46-63 | the backward loop computes the maximum above -1000 degrees |
| OtaUpdater.ChunkedIsWhole | src/app/ota/ota_updater.cpp:25-40 | exactly ceil(len / 4096) steps leave Verifying, with the verdict of the one-shot CRC |
| OtaUpdater.ProgressIsHonest | src/app/ota/ota_updater.cpp:42-47 | progress is monotone, at most 100, and 100 exactly when the verdict is in |
| OtaUpdater.OtaUpdater.Begin | src/app/ota/ota_updater.cpp:8-23 | argument and state checks; an accepted image starts afresh |
| OtaUpdater.OtaUpdater.StepOnce | src/app/ota/ota_updater.cpp:25-40 | one chunk on the object |
| ApplicationRuntime.FedEveryTenMilliseconds | src/app/application_runtime.cpp:11-17 | SR-006: over any run the watchdog is fed once in every ten milliseconds and the session keeps its invariant |
| ApplicationRuntime.ApplicationRuntime.Tick1ms | src/app/application_runtime.cpp:11-17 | poll first with telemetry stored, then the controller and one image chunk on every tenth call |
| Clock.ElapsedExact | src/common/time_types.h:11 | 32-bit subtraction measures any true interval shorter than one wrap |
| Clock.SignedExact | src/protocol/link.cpp:64-66 | the signed comparison is exact within half a wrap on either side |

## Left out

- SafeStart.SafeStart: assumes that no request is made past the session during a shutdown, and that no reply is delivered 256 or more sequence numbers after its request, which ReplyAge derives from a delay bound; without it a stale reply could match. Frames may be lost but not forged on these lines.
- ReplyAge.SafeStartByTheClock: leaves out requests made past the session, and programs that try several commands in one tick, either of which may use numbers faster.
- Heartbeat.LinkNeverLost: assumes that the link accepts every frame it is given and that frames are handled in less than four seconds.
- StreamTheorems.CorruptionDetected: leaves out changes to the sync and length bytes, and changes of the type or version byte to an illegal value, after which the parser reads a different span of the stream; for these only ParserIsSound and Recovers hold.
- StreamTheorems.StreamRoundTrip: is about bytes without pauses; a pause of more than 50 ms inside a frame drops it, as Link.Link.Poll states.
- Transport.Duplex.PollFar: requires that no frame in progress has reached its timeout, and the transport has no cancelled transmission; Link.Link.CancelPendingTx states what a cancellation drops.
- SessionProgress.StartedProgramRuns: assumes that the link has room in each of the three ticks and that an open request is granted before the next; what a tick does otherwise is SessionProgress.ShutdownTickExactly.
- TelemetryPath.MeasuredIsPublished: assumes that scale counts and tare are within 30 bits, and that less than one wrap of the clock has passed since the last measurements.
- Link.Link.Poll: while a frame is in progress, polls must be less than 24.8 days apart, beyond which the signed 32-bit comparison is ambiguous.
- ClientTheorems.RequestsResolve: assumes the same bound on the spacing of polls.
- SafetyTheorems.HeaterGate: assumes ticks less than 49.7 days apart, as do the other statements about link supervision.
- TelemetryStore.WindowOverHistory: assumes that the retained samples span less than one wrap of the clock.
- Frames instead of bytes above the link: the client and the controller use a port with a sequence of received frames and, for the client, of answers to whether the transmit queue has room. Which frames arrive is arbitrary.
- An image that changes during its verification: the updater reads the bytes as they are at each step, and the theorem is about an unchanged image.
- On the SafeStart lines any telemetry may arrive at any time; the publisher is joined to the controller in SafetyMcu, and to the application in FaultPath over a line that loses nothing.
- The link's answers to the safety controller: replies are attempts, and whether the link takes the two telemetry frames of a tick are parameters.
- A program is a parameter of the session controller: the requests it tries in each tick and whether it has finished. `GuidedRecipe` and `TurboPulse` are proved against the same client operations. The other cooking modes are left out.
- Float rounding: `to_celsius`, `from_celsius`, the control law and the ramp are exact here; the counts-to-grams division truncates exactly.
- Null pointers: a missing frame destination of the parser, a missing payload and a missing reply destination.
- One scale reading serves a whole controller tick, although each command may read the scale afresh.
- Sensors, motor and scale plants: their readings are arbitrary inputs in each tick. The lid is modelled.
- Recipe parsing, recipe texts and program names, the user interface, the command line, sockets, logging, locking between threads.
- Integer widths of counters that only grow (ticks, stored bytes) are unbounded here; clocks, sequence numbers, lengths and wire fields have their widths.
