# HANSEL verification model

A Dafny model of the parts of the robot train whose mistakes would be hardest to
see: who may move and when the train may come apart, what the radar pipeline
keeps of its evidence, and what the rescue network promises about a request.

* **Control and detach.** `ControlProtocol` is the per-session freshness and
  ordering check, `DriveLatch` the propulsion latch with its crash-safe copy on
  disk, `ControlServer` a robot node, `MeshControlClient` the controller.
  `DetachSystem` puts a controller, four nodes, the datagrams between them,
  node crashes and failing disk writes into one step system; `DetachSafety`
  proves what a detach press implies in every run of it, and `DetachExample` has a
  run with one. `ValidatorRuns` and `LatchSafety` hold the single-component results.
* **Radar stream.** `TiStreamDecoder` is the resynchronising packet decoder,
  `TiStreamProperties` its byte accounting, `TiStartup` what its turns drop and count,
  `TiChunking` when chunking matters.
  `RadarCapture` is the capture loop with its frame counter, headers, raw file
  and index; `RawCaptureIndex` the inspector of that index.
* **Mission log.** `MissionLog` is the background writer and the reader,
  `MissionLogRuns` what survives a crash, `MissionLogIntake` what is taken in and refused.
* **Radar supervision.** `RadarWatchdog` tails the evidence files
  (`RadarWatchdogRuns`: piecewise equals one shot; `RadarWatchdogFaults`: what it
  reports and when). `SupervisorCustody` states what a supervised run may do, given
  what the outside world said; `RadarSupervisor` is the supervisor, proved to do only
  that; `SupervisorLaws` is what it means for a whole run.
* **Scene and calibration.** `RadarScene`, `RadarSceneRuns` and
  `RadarScenePositions` are the tracker and the hazard latch; `VoxelComponents` and
  `RadarCalibration` the clutter clusters, `RadarClutterModel` what these are.
* **Rescue network.** `RescueForwarder` is the store-and-forward side,
  `RescueDelivery` the whole delivery system with its receiver.

Each stateful component appears twice: as a class whose methods change its
fields as the original does, and as a function on values that the methods are
proved against; the properties are lemmas about the functions, over every run.

## Findings

Expectations the code does not meet on every input, each with a lemma that shows
it fail and one that says exactly when it holds.

| expectation | source | fails | holds exactly when |
|---|---|---|---|
| frames do not depend on how the serial port cuts the bytes | sensors/ti_mmwave.py:799-806 | `TiChunking.UnfaithfulSplit`, `ChunkingMatters` | `TiChunking.ChunkingHarmlessIff`: no packet holds a false start; `SplitFaithfulIff` for one split |
| an index that is completed is healthy | sensors/radar_capture.py:651-694, 766-814 | `RadarCapture.StoppedBeforeCounting` | `RadarCapture.CompletedIndexHealthyIff`: the interrupt did not come between the raw write and the byte count |
| a record the writer accepts can be read | sensors/mission_log.py:201 and 420 | `MissionLogRuns.AcceptedButUnreadable` | `MissionLogRuns.LogSurvivesCrash`: no kept record is exactly as long as the limit |
| started minus stopped events are the owned children | sensors/radar_supervisor.py:1009-1027 | `RadarSupervisor.RunToImbalance` | `SupervisorCustody.EventsBalanceIff`: every raising end write was followed by the child's removal |
| a rejected `drive_enable` leaves the node latched over a restart | robot/mesh_control_server.py:784-823 | `LatchSafety.RejectedEnableCouldWakeIff` | the same lemma: unless the unlink took effect unsynced and neither rollback write became durable |

## Assumptions

Where comments and code differ the model follows the code: a non-retryable
status outside 2xx, 5xx and the retryable list is permanent, which includes
3xx although the comment names only 4xx.

Acknowledgements are not forged, no other sender shares the
controller's address and random session identifier, nodes have a latch store and
do not run with the raw-detach override, the host clock used by one validator or
one capture does not go back, there is one rescue forwarder, request
identifiers are fresh, and the receiver commits before it acknowledges. An index
record cut short by an interrupt and the footer written behind it make a line that
is no JSON object.

## Model

| member | source | states |
|---|---|---|
| ControlProtocol.ProtocolValidator.Validate | common/control_protocol.py:123-237 | the validator object does exactly one step of the specification `Step`: same verdict, same session table |
| ControlProtocol.ProtocolValidator.Forget | common/control_protocol.py:249-257 | eviction removes the least recently seen session, the earliest inserted on a tie |
| ControlProtocol.OldestIsFirstMinimum | common/control_protocol.py:249-257 | the evicted entry is the first with the smallest last-seen time |
| ControlProtocol.ProtocolValidator.RememberSession | common/control_protocol.py:239-257 | storing a session is an insertion or update followed by at most one eviction |
| ValidatorRuns.AcceptedIff | common/control_protocol.py:123-237 | a packet is accepted exactly when it is well-formed and is a stop, or belongs to a known session, has a larger sequence number and is at most its TTL slower than the fastest remembered packet |
| ValidatorRuns.WellFormedIff | common/control_protocol.py:123-197 | which messages are well-formed on their own, field by field |
| ValidatorRuns.ReasonMeans | common/control_protocol.py:198-230 | the reason given with a verdict: what was amiss with a refused packet, and whether an accepted stop came late or twice |
| ValidatorRuns.StoredEntry | common/control_protocol.py:231-248 | what an accepted, advancing packet leaves of its session: its number, the smaller offset, the time it came |
| ValidatorRuns.RememberKeeps | common/control_protocol.py:239-257 | the key just stored is never the one evicted, and the table stays within `max_sessions` |
| ValidatorRuns.TableBounded | common/control_protocol.py:239-257 | over every run with a clock that does not go back the table never exceeds `max_sessions` |
| ValidatorRuns.JustStoredStays | common/control_protocol.py:182-257 | after an accepted packet its session is in the table, with a sequence number no smaller |
| ValidatorRuns.AcceptedSeqsIncrease | common/control_protocol.py:182-237 | while a session stays in the table, an accepted non-stop command has a larger number than everything accepted before it there |
| ValidatorRuns.NonStopFollowsStop | common/control_protocol.py:182-237 | every accepted non-stop command follows an accepted stop that opened its session |
| ValidatorRuns.StopAlwaysAccepted | common/control_protocol.py:206-230 | a stop is accepted if and only if it is well-formed, however late or duplicated |
| ValidatorRuns.BaselineIsMinimum | common/control_protocol.py:198-237 | a session's stored offset is the minimum over exactly the packets remembered since it was opened |
| ValidatorRuns.AcceptedWithinTtl | common/control_protocol.py:198-237 | an accepted non-stop packet exceeds that minimum by at most its TTL |
| ValidatorRuns.ClockOriginIrrelevant | common/control_protocol.py:198-237 | shifting all send times of a session by a constant (validity kept) changes no verdict of the run |
| DriveLatch.DriveLatchStore.Replace | robot/mesh_control_server.py:235-264 | an atomic replace leaves one of: nothing done, the change visible but not durable, the change durable; and passes through exactly the listed disks |
| DriveLatch.DriveLatchStore.LoadDriveEnabled | robot/mesh_control_server.py:118-160 | enabled only without a pending marker and with a valid enabled state (or no state and only enabled early-format files) |
| LatchSafety.LoadIff | robot/mesh_control_server.py:118-160 | the disk reads as enabled if and only if it is readable, has no marker and holds a valid enabled state, or no state and only enabled early-format files |
| DriveLatch.GpioRobotController.HandleCommand | robot/motor_driver.py:1024-1096 | the controller's reply and new state are those of `Handle`; what these are is said by the next five rows |
| LatchSafety.StopStills | robot/motor_driver.py:718-737 | a stop, for every controller, stills wheels and front motors and touches neither latch nor fault, and is acknowledged unless the hardware raises |
| LatchSafety.DriveMoves | robot/motor_driver.py:539-567 | a drive command is taken exactly by an enabled controller without a fault, and then sets exactly the wheels or exactly the front motors to what is asked |
| LatchSafety.FrontStopStills | robot/motor_driver.py:919-925 | a front stop stills the front motors alone on the head, and everything on any other node |
| LatchSafety.OnlyTheseChange | robot/motor_driver.py:1024-1096 | only an enable takes the latch off, only a hold or disable puts it on, only drive commands start a wheel; holds and disables stop the wheels; servo commands change nothing here |
| LatchSafety.NodesDriveStraight | robot/motor_driver.py:1098-1122 | a node other than the head turns every drive command into one straight ahead or back, the way it was meant, or into a stop |
| DriveLatch.GpioRobotController.SetDriveTarget | robot/motor_driver.py:539-567 | wheel targets change only while propulsion is enabled |
| DriveLatch.ApplyValidated | robot/mesh_control_server.py:707-769 | one validated command does to controller and disk what `Apply` says, disk write by disk write |
| DriveLatch.ApplyEnable | robot/mesh_control_server.py:733-769 | an enable marks, saves, enables, commits, and rolls back at the first failure |
| LatchSafety.EnableSticks | robot/mesh_control_server.py:733-769 | an applied enable is durable: the controller is enabled with no wheel started, and every restart finds it enabled |
| LatchSafety.FaultlessApplies | robot/mesh_control_server.py:707-769 | a hold, a disable and an enable are applied exactly when none of their steps fails; every other command never touches the disk |
| DriveLatch.RollbackFailedEnable | robot/mesh_control_server.py:784-823 | a rollback holds the controller, marks again and saves disabled |
| ControlServer.ControlServerCore.ProcessDatagram | robot/mesh_control_server.py:587-705 | the server object does to sessions, stop table, controller and disk what `Process` says, and acknowledges accordingly |
| LatchSafety.AppliedIff | robot/mesh_control_server.py:587-705 | a node acknowledges a command as applied exactly when the sender is allowed, the session check accepts it, a press is armed and the controller applies it; a refused datagram changes neither controller nor disk |
| ControlServer.ControlServerCore.RememberStop | robot/mesh_control_server.py:825-848 | an applied stop is noted in the bounded stop table |
| ControlServer.ControlServerCore.ConsumeStop | robot/mesh_control_server.py:850-857 | an applied detach removes its session's stop |
| ControlServer.RestorePersistedDriveLatch | robot/mesh_control_server.py:939-977 | start-up latches the controller, before the socket opens, unless the disk says enabled |
| LatchSafety.StartsEnabledIff | robot/mesh_control_server.py:939-977 | a node starts able to move if and only if the disk reads as enabled; otherwise it starts latched, or not at all |
| LatchSafety.StaysLatched | robot/mesh_control_server.py:707-823 | a command during which the controller is not enabled leaves a latched node latched, at every crash point and for every failing write |
| LatchSafety.SecureUntilWake | robot/mesh_control_server.py:733-752 | until the controller has enabled propulsion an enable leaves no disk that could start up enabled |
| LatchSafety.WakePoint | robot/mesh_control_server.py:733-769 | propulsion is enabled only by an enable whose marker and state were both durably written |
| LatchSafety.HoldSticks | robot/mesh_control_server.py:715-731 | an acknowledged hold or drive disable is durable and has stopped the wheels |
| LatchSafety.RejectedEnableCouldWakeIff | robot/mesh_control_server.py:733-823 | a rejected enable can leave a disk that starts up enabled if and only if the marker's unlink took effect without its sync and neither rollback write became durable |
| LatchSafety.FreedIff | robot/mesh_control_server.py:707-823 | after a command on a latched node the controller is enabled or the disk may start up enabled if and only if an enable's unlink took effect and it was applied or not taken back by a durable rollback |
| LatchSafety.SecureBeforeUnlink | robot/mesh_control_server.py:183-186 | at a crash anywhere before the unlink in `commit_drive_enable` took effect a latched node's disk still starts up latched |
| LatchSafety.LoadRisesOnlyAtUnlink | robot/mesh_control_server.py:118-266 | for every command and every failing write, what `load_drive_enabled` would return goes from false to true only at that unlink, which follows the controller's enable |
| LatchSafety.LatchedRejectsDrive | robot/motor_driver.py:1033-1048 | a latched controller rejects every drive command and is moved by no other |
| LatchSafety.SecureStart | robot/mesh_control_server.py:939-977 | a node that starts from such a disk opens its socket latched and still |
| LatchSafety.StopTableIsLastStop | robot/mesh_control_server.py:825-857 | over every run an entry of the stop table is the session's last applied stop that no applied detach has consumed |
| LatchSafety.DetachConsumesStop | robot/mesh_control_server.py:647-672 | every applied detach names an applied stop of its own source and session, at most ten seconds old, and an acknowledged release of the node whose coupling its servo holds |
| LatchSafety.ArmedIff | robot/mesh_control_server.py:859-893 | which press is armed, in terms of its context and the session's last applied stop |
| LatchSafety.DetachesConsumeDistinctStops | robot/mesh_control_server.py:850-894 | two applied detaches of a session consume different stops |
| MeshControlClient.ControlTransport.SendOne | controller/mesh_control_client.py:417-462 | a send takes the next number, registers its waiter and puts one message on the wire |
| MeshControlClient.ControlTransport.Receive | controller/mesh_control_client.py:345-391 | an acknowledgement counts only for a waiter of the same session, number and target |
| MeshControlClient.ControlTransport.WaitApplied | controller/mesh_control_client.py:488-500 | a wait succeeds only on an applied acknowledgement of the same command |
| MeshControlClient.ControlTransport.StopActiveTargets | controller/mesh_control_client.py:542-561 | every listed target is sent a stop; the result is whether all were confirmed |
| MeshControlClient.ControlTransport.SendDetachRelease | controller/mesh_control_client.py:600-692 | what was sent stays sent; the procedure goes on from there by a run of the state machine that starts a detach of the given node among the given active nodes, takes no step outside it and ends with the reported result |
| MeshControlClient.BeginsIff | controller/mesh_control_client.py:600-625 | a detach begins exactly for a node with a servo in front of it when both are active; otherwise the result names what is amiss |
| MeshControlClient.ResultMeans | controller/mesh_control_client.py:626-692 | what each result of a detach rests on: completed means a confirmed press, and an unconfirmed press ends it only after every target was stopped again |
| MeshControlClient.StopsAgain | controller/mesh_control_client.py:672-692 | a press that is not confirmed is answered by stopping every active target again |
| MeshControlClient.EveryTargetIsSentAStop | controller/mesh_control_client.py:542-561 | over every run of the procedure, acknowledgements of stops are awaited only once every active target was sent one, the first time and again after a press that was not confirmed |
| DetachSystem.AppliedFacts | robot/mesh_control_server.py:587-769 | what an applied acknowledgement means at a node: addressed to it, echoed in full, for a stop that the node stands still, and for a hold or disable durable, latched and still |
| DetachSystem.StaysLatchedUnlessFreed | robot/mesh_control_server.py:587-823 | a processed datagram leaves a latched node latched and still unless it is an enable that was applied or not taken back |
| DetachSystem.CrashInsideSecure | robot/mesh_control_server.py:707-823 | a crash in the middle of a command, before the marker's unlink took effect, leaves a latched node's disk starting up latched |
| DetachSafety.StepKeepsInv | controller/mesh_control_client.py:600-692 | every step of controller, nodes and network keeps the system invariant |
| DetachSafety.DetachIsSafe | controller/mesh_control_client.py:600-692 | in every run a detach press applied for the controller follows an applied stop on every active target, each of which stood still when it acknowledged it, and then an applied hold on the released node, which is latched and still, up or down, unless an enable was applied since or unlinked its marker without being taken back |
| DetachSafety.CompletedWasPressed | controller/mesh_control_client.py:657-671 | a detach that the controller reports completed was pressed: some node applied the press for it |
| DetachSafety.AcknowledgedHoldLasts | robot/mesh_control_server.py:707-731 | in every run a node that acknowledged a hold or drive disable is latched and still, up or down, unless such an enable came after |
| DetachSafety.LatchedNodeStaysOff | robot/motor_driver.py:1024-1048 | a latched node that is up stays latched with still wheels under every command but an enable; a drive command is rejected, or is one the node turns into a stop; it restarts latched and still from whatever a crash leaves |
| DetachExample.DetachGoesThrough | controller/mesh_control_client.py:600-692 | there is a run in which the stops, the hold and the press are all applied, so the safety result speaks of presses that happen |
| TiStreamDecoder.TiMmwaveStreamDecoder.FeedChunk | sensors/ti_mmwave.py:734-831 | one feed makes of the decoder state and emits exactly what `Feed` says, and leaves less than one maximal packet |
| TiStreamDecoder.TiMmwaveStreamDecoder.TakeTurn | sensors/ti_mmwave.py:773-827 | one turn of the loop stops, gives bytes up, or emits a packet |
| TiStreamDecoder.TiMmwaveStreamDecoder.DiscardPrefix | sensors/ti_mmwave.py:854-879 | buffer and receipt segments lose the same bytes; neither internal error can be raised |
| TiStreamDecoder.FindNextPlausibleMagic | sensors/ti_mmwave.py:833-852 | the next magic word with a plausible length, none if there is no magic word |
| TiStartup.NothingAcceptableDropped | sensors/ti_mmwave.py:773-827 | whatever is buffered, one turn gives up no packet that could be accepted, and an accepted one is the first there is |
| TiStartup.HaltKeepsWaiting | sensors/ti_mmwave.py:773-806 | when the loop stops, no acceptable packet is at the front, and only what cannot begin a magic word was given up |
| TiStartup.OverflowKeepsLast | sensors/ti_mmwave.py:758-772 | a buffer that is too full keeps its last bytes, and counts the others as discarded |
| TiStreamProperties.CaptureAccounting | sensors/ti_mmwave.py:734-879 | bytes fed are bytes discarded plus bytes of emitted frames plus bytes buffered; frames come from disjoint stretches in stream order, each stamped with the arrival of its first byte |
| TiStartup.StartupTotals | sensors/ti_mmwave.py:814-831 | in every capture the start-up totals are the bytes discarded and errors counted before the first frame, or so far while there is none; errors are the turns that gave up a start |
| TiStreamProperties.FramesInReceiptOrder | sensors/ti_mmwave.py:758-827 | frames never go back in receipt time when chunks do not |
| TiChunking.SplitFaithfulIff | sensors/ti_mmwave.py:734-852 | a split that never overflows the buffer yields exactly the packets' frames, discards exactly the leading bytes, counts no error and leaves nothing if and only if no chunk ends inside a packet with a false start already in view |
| TiChunking.ChunkingHarmlessIff | sensors/ti_mmwave.py:734-852 | every such split does so if and only if no packet holds a false start: a magic word inside it with a plausible length behind it, more than sixteen bytes before its end |
| TiChunking.SmallChunksNeverOverflow | sensors/ti_mmwave.py:758-772 | chunks that fit beside one maximal packet never overflow the buffer |
| TiChunking.UnfaithfulSplit | sensors/ti_mmwave.py:799-806 | for any parser and any stream with a packet that holds a false start, the bytes one by one are a split that is not decoded faithfully |
| TiChunking.ChunkingMatters | sensors/ti_mmwave.py:799-806 | such a packet: decoded when it arrives whole, not when it arrives byte by byte |
| MissionLog.MissionLogWriter.Submit | sensors/mission_log.py:190-210 | a sample is refused, dropped or queued exactly as `Offer` says; what that is `AcceptedIff` says |
| MissionLog.MissionLogWriter.WriteCritical | sensors/mission_log.py:212-253 | a critical record is refused, waits for room or is queued exactly as `Offer` says; what that is `AcceptedIff` says |
| MissionLog.MissionLogWriter.Close | sensors/mission_log.py:312-330 | closing without draining discards the queue and fails its critical writes |
| MissionLog.MissionLogWriter.CompleteLine | sensors/mission_log.py:352-365 | a completed line is counted, and a critical one is synced and confirmed |
| MissionLog.MissionLogWriter.FailThread | sensors/mission_log.py:367-387 | a failure of the thread fails the active and queued critical writes and empties the queue |
| MissionLog.IterMissionLog | sensors/mission_log.py:399-451 | the reader yields the entries, and the error, of the specification `Read` |
| MissionLogRuns.StepKeepsInv | sensors/mission_log.py:190-396 | every interleaved step keeps queue, counters, file and durable part in agreement |
| MissionLogRuns.CountersDescribeBacklog | sensors/mission_log.py:184-305 | in every run the counters are the queue plus the record in flight and stay within their bounds |
| MissionLogRuns.CleanCloseWritesAll | sensors/mission_log.py:312-396 | a clean, draining close has durably written every accepted record |
| MissionLogRuns.ReadPrefix | sensors/mission_log.py:399-451 | reading any prefix of a log yields its whole lines, unless a line with its newline exceeds the limit |
| MissionLogRuns.ReadableIff | sensors/mission_log.py:416-424 | with records within the limit, only a kept record of exactly that length fails |
| MissionLogRuns.LogSurvivesCrash | sensors/mission_log.py:190-451 | after any run and crash the reader yields exactly the first k accepted records, and all returned critical writes are among them, if and only if no kept record is exactly as long as the limit |
| MissionLogRuns.AcceptedButUnreadable | sensors/mission_log.py:201-424 | a record of exactly the limit is written and then makes the log unreadable: the reader counts the newline, the writer does not |
| MissionLogIntake.AllOneMission | sensors/mission_log.py:255-305 | in every run all accepted records are of one mission, that of the first |
| MissionLogIntake.AcceptedIff | sensors/mission_log.py:190-305 | after any run a record is accepted if and only if the writer neither failed nor was closed, its encoding is within the limit, there is room, and no record of another mission was accepted before; each refusal names the first that does not hold and changes nothing but the count of dropped samples |
| MissionLogIntake.DroppedCounts | sensors/mission_log.py:190-330 | over every run the dropped count is the samples refused for lack of room plus the records discarded by a close that does not drain |
| MissionLogIntake.CriticalsAnswered | sensors/mission_log.py:212-387 | over every run each accepted critical write is confirmed, failed, or still queued or in flight |
| MissionLogIntake.ConfirmIff | sensors/mission_log.py:233-253 | what a waiting critical write is told |
| MissionLogIntake.ReadLine | sensors/mission_log.py:399-451 | on any bytes the reader yields a first line that is within the limit, decodes and carries the expected number, and goes on behind it; otherwise it ends with that error |
| MissionLogIntake.ReadRest | sensors/mission_log.py:416-451 | what is left behind the last newline is nothing, too long, or a line cut short, which only recovery passes over |
| RadarWatchdog.RadarEpochWatchdog.PollOnce | sensors/radar_watchdog.py:79-86 | one poll does to the watchdog what `Polled` says |
| RadarWatchdog.RadarEpochWatchdog.ScanRaw | sensors/radar_watchdog.py:145-184 | identity, size and continuity checks, then a search of the carried overlap and the new bytes |
| RadarWatchdog.RadarEpochWatchdog.ScanMission | sensors/radar_watchdog.py:88-143 | the same checks, then the whole lines of the carried part and the new bytes |
| RadarWatchdog.RadarEpochWatchdog.ObserveFrame | sensors/radar_watchdog.py:221-249 | the run of good frames grows or restarts, and verification needs it long enough in time |
| RadarWatchdog.RadarEpochWatchdog.ApplyDeadlines | sensors/radar_watchdog.py:251-267 | the deadlines applied are those of `Deadlines`; what they report `DeadlinesMean` says |
| RadarWatchdogRuns.LinesJoin | sensors/radar_watchdog.py:121-123 | splitting piecewise with a carried partial line is splitting the whole |
| RadarWatchdogRuns.OverlapSuffices | sensors/radar_watchdog.py:179-184 | a pattern missed so far can only appear in the carried overlap plus the new bytes |
| RadarWatchdogRuns.WatchdogIsOneShotScan | sensors/radar_watchdog.py:79-249 | over append-only files: assertion reported iff it occurs in the bytes read, mission text rejected iff not clean, frames those of the whole text, good run the longest qualifying suffix, verified iff some frame completed a run in time |
| RadarWatchdogRuns.FaultAndVerificationAreFinal | sensors/radar_watchdog.py:79-86 | whatever the files do, the first fault stays and verification is never taken back |
| RadarWatchdogFaults.DeadlinesMean | sensors/radar_watchdog.py:252-270 | over append-only files a poll that finds no fault in the evidence reports a frame timeout if and only if no frame came by the first deadline or the last is older than allowed, and a verification timeout if and only if neither holds, frames came, and none completed a run in time by that deadline |
| RadarWatchdogFaults.QualifiesIff | sensors/radar_watchdog.py:237-250 | which frames count towards verification |
| RadarWatchdogFaults.LastSightingIs | sensors/radar_watchdog.py:221-236 | time and number of the last sighting are those of the last frame seen |
| RadarWatchdogFaults.ReplacementReported | sensors/radar_watchdog.py:88-206 | whatever the files do, a poll reports invalid raw evidence if and only if the file is gone, another one, shorter, or different at the end of what was read; a replaced mission file is a fault too |
| RadarCapture.StepUnderstoodIff | sensors/radar_capture.py:97-117 | one step of the true counter is reported with its exact gap and no discontinuity if and only if it is between 1 and 2^31 - 1 |
| RadarCapture.ClassifyMeans | sensors/radar_capture.py:97-117 | what duplicate, consecutive, gap, wrap and reset mean for two numbers, and the gap of each |
| RadarCapture.GapsAddUp | sensors/radar_capture.py:97-117 | across any number of wraps, gaps plus frames received after the first are the true advance, with no duplicate or reset reported |
| RadarCapture.SensorHeaderFactory.Next | sensors/header_factory.py:81-128 | consecutive numbers, and no header when time goes back |
| RadarCapture.ChunkTimes | sensors/radar_capture.py:630-648 | with a clock that does not go back, observation midpoints do not go back |
| RadarCapture.ObservedMeans | sensors/radar_capture.py:120-171 | a read is stamped with its midpoint, and its uncertainty is the largest of half the window, the timeout and the time on the wire, rounded up |
| RadarCapture.CaptureSession.EmitFrame | sensors/radar_capture.py:695-763 | a decoded frame is classified and counted and always gets its header; the header starts a new epoch exactly when the counter was reset |
| RadarCapture.CaptureSession.Capture | sensors/radar_capture.py:625-814 | the loop, ended anywhere by an interrupt or not, keeps every byte, emits the decoder's frames up to where it was left, never sees time regress, and completes an index that the inspector reports healthy if and only if no interrupt fell between the raw write and the byte count |
| RadarCapture.WholeIterationsHealthy | sensors/radar_capture.py:649-814 | an index completed after whole iterations tiles the raw file and is healthy |
| RadarCapture.CompletedIndexHealthyIff | sensors/radar_capture.py:649-814 | a completed index is healthy if and only if the interrupt that ended the loop, if any, did not come while the raw file held bytes of a chunk not counted yet |
| RadarCapture.StoppedBeforeCounting | sensors/radar_capture.py:692-814 | one such stop: with the first record in the index and its byte not counted, the inspector reports a footer of the wrong size |
| RadarCapture.CaptureSession.RecordChunk | sensors/radar_capture.py:649-694 | raw bytes, digest, number, index line and byte count are entered in this order, up to where the iteration is left |
| RawCaptureIndex.InspectUartChunkIndex | sensors/raw_capture_index.py:118-472 | the pass collects exactly the errors of the specification and is healthy when there are none |
| RawCaptureIndex.ChunkGood | sensors/raw_capture_index.py:262-346 | a chunk record adds no error exactly when it is the next in number, offset and time |
| RawCaptureIndex.EndGood | sensors/raw_capture_index.py:347-420 | a footer adds no error exactly when its totals agree with the chunks |
| RawCaptureIndex.HealthyIff | sensors/raw_capture_index.py:118-472 | healthy if and only if the records tile the raw file in order with read windows that do not overlap, before one footer that agrees with them and with the file |
| SupervisorCustody.AtMostOneOfEach | sensors/radar_supervisor.py:963-1007 | at every moment of a run at most one capture and one viewer are owned |
| SupervisorCustody.CaptureGoneBeforeNextAttempt | sensors/radar_supervisor.py:441-466 | an owned capture is given up before any later reset, configuration or capture start |
| SupervisorCustody.UartTakenBack | sensors/radar_supervisor.py:505-586 | after the UART lock was released for a capture it is taken again before any later reset or configuration |
| SupervisorLaws.ViewerOnVerifiedEpoch | sensors/radar_supervisor.py:612-656 | a viewer is launched only on the paths of an epoch whose watchdog had said, of the running capture, that it is verified and not at fault, and with no bad news of the capture after that |
| SupervisorLaws.RunningOnGoodNews | sensors/radar_supervisor.py:612-670 | RUNNING is entered only while the last news of the capture is that it runs, its port is there and its watchdog reports no fault |
| SupervisorLaws.CaptureStoppedOnBadNews | sensors/radar_supervisor.py:421-478 | a capture is stopped only when the last news of it is an exit, a lost port or a fault, unless the final cleanup began |
| SupervisorLaws.PortSeenFirst | sensors/radar_supervisor.py:487-560 | the target is reset and configured only while the ports seen last hold the selected one |
| SupervisorLaws.LocksHeld | sensors/radar_supervisor.py:495-512 | the target is reset and configured only while both locks are held |
| SupervisorLaws.InOpenEpoch | sensors/radar_supervisor.py:553-656 | a capture is launched, an epoch verified and a viewer launched only in an open epoch |
| SupervisorLaws.DelayBetweenResets | sensors/radar_supervisor.py:480-670 | between two resets of the target a delay was waited |
| SupervisorLaws.RecoversIff | sensors/radar_supervisor.py:421-466 | an attempt is a recovery exactly when RUNNING was entered before |
| SupervisorLaws.RecoveredFromReset | sensors/radar_supervisor.py:513-538 | in a recovery the target is configured only after a reset was carried out or its port was seen absent since it was configured last |
| SupervisorLaws.NoSecondLaunch | sensors/radar_supervisor.py:743-781 | a viewer is launched again only after the last was registered, a delay was waited, or another epoch verified |
| SupervisorLaws.DelayLaw | sensors/radar_supervisor.py:921-930 | every delay waited is twice the one before, up to the maximum, and the initial one at first and after a reset, which takes a stable RUNNING |
| SupervisorLaws.ResetOnGoodNews | sensors/radar_supervisor.py:695-708 | the delay is reset only while the last news of the capture is good |
| RadarSupervisor.RadarSupervisor.Run | sensors/radar_supervisor.py:421-478 | whatever the outside world answers, the effects of the whole run follow the custody rules and the delay rule, the process events are those of the effects and the registered children those they leave, epochs are numbered and closed in order, the delay is that of its back-offs and the locks end up free |
| RadarSupervisor.RadarSupervisor.AttemptUntilRunning | sensors/radar_supervisor.py:480-670 | the attempt loop ends in RUNNING with capture, viewer and watchdog of a verified epoch and nothing heard against them, or stops or fails |
| RadarSupervisor.RadarSupervisor.ResetPort | sensors/radar_supervisor.py:487-538 | the target is reset only with no capture owned, both locks held, its port seen and a delay behind it; what follows may be configured |
| RadarSupervisor.RadarSupervisor.ConfigurePort | sensors/radar_supervisor.py:539-560 | the target is configured only with no capture owned and both locks held |
| RadarSupervisor.RadarSupervisor.LaunchCapture | sensors/radar_supervisor.py:590-611 | a capture starts only in an open epoch after the UART lock is released, and is registered or the epoch abandoned |
| RadarSupervisor.RadarSupervisor.VerifyCapture | sensors/radar_supervisor.py:612-645 | an epoch counts as verified only when the last poll said so, with no exit and no fault; on an exit or a fault the capture is stopped and its epoch closed before the next attempt |
| RadarSupervisor.RadarSupervisor.WaitUntilVerified | sensors/radar_supervisor.py:932-961 | the wait ends well only on a verified poll, and fails exactly on an exit, with its code, or a fault |
| RadarSupervisor.RadarSupervisor.PollRetainedRadarFault | sensors/radar_supervisor.py:783-806 | a fault is reported exactly when an exit, a lost port or a watchdog fault is heard, the exit first |
| RadarSupervisor.RadarSupervisor.StartViewerWithRetry | sensors/radar_supervisor.py:743-781 | a viewer is handed over only while capture and watchdog of the verified epoch are in charge, and one that came too late is stopped |
| RadarSupervisor.RadarSupervisor.MonitorUntilFault | sensors/radar_supervisor.py:672-741 | the monitor ends with a stop request, a failure, or a fault that is the last thing heard of the capture, which is still registered |
| RadarSupervisor.RadarSupervisor.MonitorOnce | sensors/radar_supervisor.py:684-741 | a round that hears of an exit, a lost port or a fault ends with it; one that hears of none and finds the viewer there goes on, and resets the delay exactly after a stable RUNNING |
| RadarSupervisor.RadarSupervisor.Recover | sensors/radar_supervisor.py:441-459 | a fault stops the capture and closes the epoch before anything is tried again |
| RadarSupervisor.RadarSupervisor.Backoff | sensors/radar_supervisor.py:921-930 | one back-off doubles the delay up to the maximum |
| RadarSupervisor.RadarSupervisor.RecordStop | sensors/radar_supervisor.py:991-1027 | the end of a child is recorded and the child dropped; when the manifest write in between raises, the end stays recorded and the child registered |
| RadarSupervisor.RadarSupervisor.StopRegisteredChildren | sensors/radar_supervisor.py:1029-1087 | cleanup succeeds only when no registered child is left |
| RadarSupervisor.RadarSupervisor.Finish | sensors/radar_supervisor.py:1113-1131 | at STOPPED every epoch is closed |
| RadarSupervisor.DelayDoubles | sensors/radar_supervisor.py:921-930 | after n back-offs the delay is min(max, initial * 2^n) |
| SupervisorCustody.EventsBalanceIff | sensors/radar_supervisor.py:963-1027 | at every moment of a run at which no end is just being written, the children started and not ended by the process events are the registered ones if and only if every manifest write that raised while an end was recorded was followed by the removal of that child |
| RadarSupervisor.RunToImbalance | sensors/radar_supervisor.py:1009-1087 | a script under which a whole run ends with the capture ended by the events and still registered |
| RescueForwarder.FieldStore.RecoverStaleSending | rescue-network/src/rescue_network/repositories/rescue_repository.py:124-137 | exactly the stale sending rows become pending again, and are counted |
| RescueForwarder.FieldStore.ClaimDue | rescue-network/src/rescue_network/repositories/rescue_repository.py:42-66 | the oldest due rows, at most the batch, are marked sending |
| RescueForwarder.FieldStore.AttemptDelivery | rescue-network/src/rescue_network/services/delivery_service.py:120-192 | the row and outcome after one answer are those of `Attempted`; what these are `OutcomeIff` says |
| RescueForwarder.OutcomeIff | rescue-network/src/rescue_network/services/delivery_service.py:120-192 | a request is failed for good if and only if the status is below 500, outside 2xx and outside 401, 403, 408, 425 and 429; delivered if and only if it is 2xx with a valid acknowledgement; otherwise, as on a network error, it is pending with one more retry |
| RescueForwarder.ClaimMeans | rescue-network/src/rescue_network/repositories/rescue_repository.py:42-66 | a claim takes only rows that are pending and due; one left out found the batch full of rows created no later; the rows taken are marked as sending now and nothing else changes |
| RescueForwarder.RecoveredMeans | rescue-network/src/rescue_network/repositories/rescue_repository.py:124-137 | exactly the rows in sending for longer than allowed are pending again, with their retry time kept |
| RescueForwarder.FieldStore.RunOnce | rescue-network/src/rescue_network/forwarder.py:39-83 | a pass recovers, claims, and attempts each claimed row in order; it reports how many rows were stale, and how many of the claimed ones stand delivered, pending again and failed |
| RescueForwarder.BackoffBounds | rescue-network/src/rescue_network/retry.py:34-50 | a delay lies between the capped exponential term and 1.2 times it |
| RescueForwarder.BackoffDoubles | rescue-network/src/rescue_network/retry.py:34-50 | the term doubles from 5 s with each retry until it is 300 s from the seventh on |
| RescueForwarder.RetryWaitBounded | rescue-network/src/rescue_network/services/delivery_service.py:97-117 | a retried row is due after the capped term of its new retry count, and up to a fifth more |
| RescueDelivery.WaitsBounded | rescue-network/src/rescue_network/services/delivery_service.py:97-117 | in every run, with crashes and recoveries, a pending row is due at once or at most 1.2 * min(300, 5 * 2^(n-1)) seconds after its last attempt |
| RescueDelivery.ReceiverStore.StoreReceived | rescue-network/src/rescue_network/services/receiver_service.py:17-65 | a request is stored once even when another insert wins the race, and the stored row is returned |
| RescueDelivery.ExactlyOnceStorage | rescue-network/src/rescue_network/services/receiver_service.py:28-65 | in every run the receiver has at most one row per request, and a delivered field row has its row there with the same content |
| RescueDelivery.OutcomesAreFinal | rescue-network/src/rescue_network/forwarder.py:54-83 | over every run no request disappears or changes content, delivered and failed are final, and no stored row is lost |
| RescueDelivery.EndedOnlyByAnswer | rescue-network/src/rescue_network/services/delivery_service.py:120-192 | in every run a failed row was answered with a refusing status for that request, and a delivered one with an acknowledged 2xx |
| RescueDelivery.DeliveredWithin | rescue-network/src/rescue_network/repositories/rescue_repository.py:42-66 | once every POST is accepted a due row with m undelivered rows created no later than it is delivered within ceil(m / batch) passes |
| RescueDelivery.RecoveredIsDue | rescue-network/src/rescue_network/repositories/rescue_repository.py:124-137 | a claimed row whose forwarder died is due again as soon as it is recovered |
| VoxelComponents.AdjacentListed | sensors/radar_calibration.py:119-126 | the listed voxels are exactly those within one step in each dimension |
| VoxelComponents.Gather | sensors/radar_calibration.py:156-168 | the worklist terminates with exactly the component of its start |
| VoxelComponents.FindComponents | sensors/radar_calibration.py:153-169 | the outer loop lists the components by their least voxels |
| VoxelComponents.ComponentsAreClasses | sensors/radar_calibration.py:119-169 | the components are the classes of connectedness of the occupied voxels, cover them and are disjoint |
| RadarCalibration.BuildObservations | sensors/radar_calibration.py:133-151 | the dictionary holds, voxel by voxel, every point in range in order |
| RadarCalibration.PointClusters | sensors/radar_calibration.py:129-205 | the clusters are those of the specification `ClustersOf` |
| RadarCalibration.MedianUnordered | sensors/radar_calibration.py:176-179 | the median depends on the values and not on their order |
| RadarCalibration.OrderDoesNotMatter | sensors/radar_calibration.py:129-205 | the clusters do not depend on the order of frames or of the points of a frame |
| RadarClutterModel.ClustersAre | sensors/radar_calibration.py:129-205 | the clusters, in the order of their centres, are those of the components that at least 60 % of the frames saw, with median centre and the clamped distance of the farthest point |
| RadarClutterModel.ClusterIff | sensors/radar_calibration.py:167-195 | a component gives a cluster exactly when at least 60 % of the frames saw it, and which cluster that is |
| RadarClutterModel.ObservationsAre | sensors/radar_calibration.py:137-148 | the observations of a component are exactly the points within 0.15 m in its voxels of 0.02 m, each with its frame |
| RadarClutterModel.MedianMeans | sensors/radar_calibration.py:176-179 | the median is the middle of the values in ascending order, or the mean of the middle two |
| RadarScene.RadarHazardEvaluator.Update | monitor/radar_scene.py:49-133 | level and latch are those of `Evaluate` |
| RadarScene.RadarSceneEstimator.UpsertTrack | monitor/radar_scene.py:454-535 | a sighting joins the nearest candidate within reach or starts a track |
| RadarScene.RadarSceneEstimator.IngestFrame | monitor/radar_scene.py:198-327 | one frame does to tracks, latch and status what `Ingest` says |
| RadarScene.RadarSceneEstimator.TakeSnapshot | monitor/radar_scene.py:329-355 | a snapshot clears on a faulty feed, expires tracks and evaluates the hazard |
| RadarSceneRuns.ConfirmedIffTwoOfThree | monitor/radar_scene.py:227-236 | in every run a track is confirmed iff a point hit it in at least two of its last three frame windows, lost frames counted |
| RadarSceneRuns.PointsGoToDistinctTracks | monitor/radar_scene.py:241-264 | in every run the accepted points of a frame go to different tracks |
| RadarSceneRuns.CellsLeavePoints | monitor/radar_scene.py:466-479 | heatmap cells change no point track and no track's hits |
| RadarSceneRuns.NumbersAreNotReused | monitor/radar_scene.py:516-535 | between any two moments of a run that clears no evidence, numbers only grow and a number given before the first belongs only to a track that was there then |
| RadarSceneRuns.HazardMeans | monitor/radar_scene.py:49-133 | DANGER iff the latched track is a live point track inside 0.13 m or a confirmed one is inside 0.10 m; NORMAL iff neither and some track is confirmed, and then all confirmed ones are beyond 0.10 m |
| RadarSceneRuns.LatchReleasedIff | monitor/radar_scene.py:85-96 | a snapshot keeps the latch iff evidence is trusted and the latched track is a live point track inside 0.13 m |
| RadarSceneRuns.LatchStaysIff | monitor/radar_scene.py:85-96 | over any part of a run that clears no evidence a latched DANGER stays on its track if and only if every snapshot finds that track alive and inside 0.13 m on trusted evidence |
| RadarSceneRuns.FrameKeepsLatchedTrack | monitor/radar_scene.py:198-327 | a frame that clears nothing keeps the latch, and the latched track stays a point track moved only by a point |
| RadarScenePositions.StandsAtLastHit | monitor/radar_scene.py:466-515 | in every run a point track stands where the last point that hit it was seen, with that point's time, uncertainty and confidence |
| RadarScenePositions.JoinsNearest | monitor/radar_scene.py:454-486 | a sighting joins the nearest track that may take it if and only if one is within 0.18 m |
| RadarScenePositions.AcceptedAre | monitor/radar_scene.py:241-264 | exactly the points in the scene are taken, without those the clutter model claims on a calibrated frame |
| RadarScenePositions.ClearsMeans | monitor/radar_scene.py:198-240 | a frame of another producer, a duplicate or out-of-order one, or one that cannot be trusted throws all evidence away; any other keeps the latch |
| RadarScenePositions.SnapshotMeans | monitor/radar_scene.py:329-355 | a snapshot on a faulty feed leaves no track, latch or producer; any other keeps exactly the tracks seen within the last 0.3 s |
| RadarScenePositions.DangerDistance | monitor/radar_scene.py:85-117 | a danger reports the distance of the latched track while it holds, and else of the nearest confirmed one inside the entry distance, which is latched |

## Left out

- JSON, HMAC, SHA-256 and base64: messages and records are values, a digest is a parameter, and the record codec is a parameter with a round trip and no newline in its output.
- The radar packet's inside: `parse_packet` is a parameter that accepts only a packet with the magic word, its own length and a legal size; the TLV walk, point formats and heatmap quantisation are not modelled.
- Command normalisation, plain-text legacy commands, motion timeouts, camera profiles, speed scaling, PID control, quadrature counting and steering servos.
- Partial effects of a GPIO failure: a failing command raises after its state change is complete, so mixed intermediate motions do not appear.
- A socket error while the controller sends: in the step system it is the `Abort` step, in `SendDetachRelease` it does not occur.
- The claim that nothing moves between the stop and the detach: the stop table is not cleared by motion, so it is not true of the code and not made here.
- The timeouts of `submit`, `write_critical` and `close`: a wait that times out changes nothing, so only the successful pass is a step.
- Thread scheduling of the mission log: each section under the lock and each file operation is one atomic step, in any order.
- RadarSupervisor.RadarSupervisor.Run: the original's loops need not end; here the outside world answers from a finite script and then asks to stop, so each finite part of an endless run is covered and the endless run itself is not.
- Port inventory matching, manifest contents, reasons and time stamps of the supervisor; a manifest write is only a step that may raise.
- RadarSupervisor.RadarSupervisor.MonitorUntilFault: the capture poll, port inventory and watchdog poll of a round are one question to the outside world.
- Real process ownership after a failed registration: the supervisor's registered children are modelled, the process manager's own list is not.
- RadarCalibration.PointClusters: points are given in mapped coordinates, radii are kept squared, and coordinates are exact; the heatmap statistics and the model file are not modelled.
- RadarScene.RadarSceneEstimator.IngestFrame: clutter matching, calibration binding and the heatmap thresholds arrive as decisions; distances are compared squared; the grid is not modelled.
- RescueForwarder.ComputeBackoff: arithmetic is exact; the original's conversion to a float overflows from retry 1025 on.
- The stored error text, health alerts and web front ends of the rescue network.
- RadarCapture.CaptureSession.Capture: an interrupt inside the handling of one decoded frame, between its gap count and its header, is not modelled; nor one while the footer is written, which leaves the index incomplete.
- The health records and summary statistics of a capture, and the threshold calibration of link quality: case tables without state.
- `QualitySupervisor`, `listen/*`, dashboards, captive portal, systemd and socket glue.
