# PID record scan and soft IOC start-up, in Dafny

This project models two pieces of EPICS base and proves properties of the
model.

**The PID record** (`src/rec/recPid.c`). A record holds a setpoint `val`, a
controlled value `cval` read through the link `cvl`, and an output `out`. A scan
first reads the controlled value through `cvl`. If `cvl` is not a database
link, or the read fails, while less than MAJOR is pending, it raises SOFT or
READ at MAJOR and reads nothing more. Otherwise, in closed-loop mode with a
database link `stpl`, it reads the setpoint. If that read fails while less
than MAJOR is pending, it writes READ/MAJOR straight into the committed status
and severity and skips the computation. Otherwise it measures the time since
the last computation in clock ticks. If that is too soon, the scan ends there,
without alarm checks, monitor events or the forward link. Otherwise it
computes the *change* of output with the incremental (first-difference) PID
formula. Every scan that was not cut short by a too-soon return then checks
the alarm limits against the setpoint, posts monitor events to subscribers
with value and archive deadbands, and processes the forward link. The record is the immutable
datatype `PidRecords.PidRecord`. A scan is the pure function
`PidProcess.Process` from a record and its `ScanInputs` to a new record and a
list of events. The inputs are the two link reads, the tick counter and the
tick rate.

**The soft IOC's `main`** (`src/softIoc/softMain.cpp`). It parses the command
line and drives the host: it loads the database definition, registers support,
walks the `-a`, `-d`, `-m`, `-s` and `-h` options, runs `iocInit`, runs a
start-up script, and then starts a shell, ends the main thread or gives up with
"Nothing to do". `SoftMain.Main` maps `argv[0]`, the other arguments and a
`Host` to a `Run`. A `Run` is the ordered list of host actions plus how the
process ends. `OptionWords` gives a second, declarative reading of the option
arguments. The lemmas there prove that main's threaded loop agrees with it.

Modules:

- `AlarmCodes`: the alarm status and severity codes the record uses.
- `PidRecords`: the record, `init_record` and the display/control limit getters.
- `Ticks`: elapsed ticks across the 32-bit wrap of the tick counter.
- `PidAlgorithm`: the incremental formula and the positional form it is the first difference of.
- `PidControl`: `do_pid`, with the link reads as inputs.
- `PidAlarm`: `alarm`.
- `PidMonitor`: `monitor` and its events.
- `PidProcess`: `process`, and lemmas about whole scans.
- `SoftMain`: `main` and `exitSubroutine`.
- `OptionWords`: the word-by-word reading of `main`'s options.

The model follows these details of the code:

- After a failed controlled-value or setpoint read while the pending severity
  is below MAJOR, `do_pid` returns 0, so `alarm` and `monitor` still run. With
  MAJOR or worse already pending, a failed read falls through and the scan
  carries on.
- The alarm limits are checked against the setpoint `val`, not against the
  controlled value.
- The archive deadband is one-sided: `max(0, alst - val) > adel`. So, with a
  non-negative deadband, a value that rises past `alst` never posts an archive
  event. With subscribers, a negative deadband sets the log bit on every scan.
- Equal tick readings defer the scan before the minimum delta time is
  consulted.

## Model

| member | source | states |
|---|---|---|
| PidRecords.InitRecord | src/rec/recPid.c:102-114 | The last alarmed, archived and monitored values are seeded with 1e30. The setpoint comes from a constant setpoint link and is otherwise kept. The status is 0, and no other field changes. |
| PidProcess.ReportedMetadataIsStable | src/rec/recPid.c:116-170 | The precision, graphic limits and control limits a client is given are the same after `init_record` and after any scan as before. |
| PidAlarm.ReportedLimitsAreThresholds | src/rec/recPid.c:146-159 | The upper alarm, lower alarm, upper warning and lower warning limits a client is given are the thresholds of HIHI (above), LOLO (below), HIGH (above) and LOW (below), with each alarm's status and severity. |
| PidRecords.ControlDouble | src/rec/recPid.c:161-170 | The control limits are exactly the display limits the graphic request reports. |
| Ticks.ElapsedTicks | src/rec/recPid.c:386-395 | For two different readings of the 32-bit tick counter, the elapsed count is between 1 and 2^32-1. Added to the earlier reading modulo 2^32, it gives the later one. Without a wrap it is the plain difference. |
| Ticks.ElapsedSeconds | src/rec/recPid.c:396 | The delta time is positive, and times the tick rate it gives the elapsed ticks. |
| Ticks.WrapExample | src/rec/recPid.c:390-395 | Going from 0xFFFFFFF0 to 0x10 across the wrap counts 32 ticks. |
| PidAlgorithm.IncrementIsFirstDifference | src/rec/recPid.c:317-334 | Once the previous delta time is non-zero, the record's output change `kp*(de + e*dt*ki + kd*(de/dt - dep/dtp))` is exactly M(n) - M(n-1) of the positional PID law. |
| PidAlgorithm.IncrementsTelescope | src/rec/recPid.c:317-334 | Starting from the positional output after two samples, the output changes add up to the positional output at every later sample. |
| PidControl.DoPid | src/rec/recPid.c:336-419 | Without a database link for the controlled value, SOFT/MAJOR is raised as the pending alarm. A failed controlled-value read raises READ/MAJOR. Either way this happens only while the pending severity is below MAJOR. A failed closed-loop setpoint read writes READ/MAJOR to the committed status. The scan is deferred exactly when the reads pass and the ticks are equal or the delta time is below `mdt`, and then only the setpoint moves. Otherwise the tick, delta time, error, change in error, controlled value and output change as the formula says. Only those fields and the alarm fields change, and the pending severity never drops. |
| PidAlarm.Alarm | src/rec/recPid.c:199-249 | Within the hysteresis of the last alarmed value nothing changes. Otherwise the record is unchanged exactly when no limit fires. When one fires, the first of HIHI, LOLO, HIGH, LOW whose severity exceeds the pending one and whose limit is crossed is raised, and `lalm` becomes the setpoint. Only `lalm`, `nsta` and `nsev` change, and the severity never drops. |
| PidAlarm.ReportedUpperAlarmLimitIsHihi | src/rec/recPid.c:146-159 | With no pending alarm, an enabled HIHI severity and the value outside the hysteresis, HIHI is raised exactly when the value is above the upper alarm limit a client is shown. |
| PidAlarm.HihiOutranksHigh | src/rec/recPid.c:209-236 | With limits 90/80/20/10 and the value at 95, HIHI is raised and HIGH is not. |
| PidMonitor.ValueMask | src/rec/recPid.c:272-300 | The value-field mask has the alarm bit exactly when status or severity changed. It has the value bit exactly when the value moved past the monitor deadband, and the log bit exactly when `max(0, alst - val)` exceeds the archive deadband. |
| PidMonitor.EmitPosts | src/rec/recPid.c:276-313 | The events post status and severity once each with mask DBE_VALUE exactly on an alarm change. They post the value once with exactly the computed mask when it is non-empty. They post the controlled value and output once each with mask DBE_VALUE exactly when they changed. |
| PidMonitor.EmitInFieldOrder | src/rec/recPid.c:276-313 | The posts come in the order status, severity, value, controlled value, output. |
| PidMonitor.Monitor | src/rec/recPid.c:251-315 | The pending alarm is always committed and reset. Without subscribers nothing is posted and no reference value moves. With subscribers, each field is posted at most once with exactly the mask the code uses, in the order status, severity, value, controlled value, output. `mlst`/`alst` follow the value and log bits, and `ocva`/`oout` catch up with `cval`/`out`. Nothing else changes. |
| PidProcess.Complete | src/rec/recPid.c:185-196 | After a `do_pid` that ran, the scan commits and resets the pending alarm `alarm` evaluated, with its latched `lalm`. It keeps `monitor`'s reference values and posts, in field order, and processes the forward link last exactly when it is a database link. It reports 0, clears the active flag and changes no other field. |
| PidProcess.Process | src/rec/recPid.c:172-197 | A scan reports status 0 and leaves the record inactive. A deferred scan emits nothing and changes only the setpoint. Any other scan commits and resets the pending alarm with a severity at least the incoming pending one. It scans the forward link last, exactly when that link is a database link. A scan stopped by a failed read leaves the controller state (tick, delta time, error, output) alone. Any scan that is not deferred commits the setpoint and controller state `do_pid` left and the alarm `alarm` evaluated on that record, and its posts are the monitor's, in field order. It also commits the `lalm` that `alarm` latched and the `mlst`, `alst`, `ocva` and `oout` that `monitor` moved. No other field changes: gains, limits, severities, deadbands, links, subscribers and display fields stay as they were. A computing scan commits the reading, the sample tick, the delta time in seconds, the error `val - cval` and its change. |
| PidProcess.ControlledValueFailureIsCommitted | src/rec/recPid.c:353-370 | With less than MAJOR pending, a missing or failed controlled-value read leaves the controller state alone and ends the same scan with a committed severity of at least MAJOR. When it is exactly MAJOR the committed status is SOFT or READ. A limit with a higher severity can outrank it. |
| PidProcess.SetpointFailureIsOverwritten | src/rec/recPid.c:371-383 | When only the setpoint read fails, with nothing pending and no limit armed, the READ/MAJOR written by `do_pid` is overwritten by `monitor`. The scan ends with NO_ALARM committed and the setpoint holding the read's result. Subscribers still see a status post and an alarm-masked value post. |
| PidProcess.FirstScanMonitorsAndArchives | src/rec/recPid.c:105-108 | After the 1e30 seeding, the first scan that is not deferred posts the value with both the value and log bits, and both references take the setpoint. This holds for any physically bounded value and deadbands. |
| PidProcess.FirstScanRaisesFirstFiringLimit | src/rec/recPid.c:105-108 | After the 1e30 seeding of `lalm`, the first scan that is not deferred is outside the hysteresis band. When a limit fires, the first firing one in priority order is committed and the setpoint is latched in `lalm`. This holds for any physically bounded value and hysteresis. |
| PidProcess.ComputedOutputIsPositionalChange | src/rec/recPid.c:399-417 | For a computing scan with a non-zero previous delta time, the new output is the first difference of the positional output over the last three errors. |
| SoftMain.LastSlash | src/softIoc/softMain.cpp:96 | The result is -1 or the index of a '/'. No '/' follows it. |
| SoftMain.Basename | src/softIoc/softMain.cpp:96-101 | The program name is the suffix of `argv[0]` after its last '/'. It contains no '/', and it is the whole string when there is no '/'. |
| SoftMain.Dispatch | src/softIoc/softMain.cpp:124-156 | One option either ends the process or consumes one or two arguments. The trace only grows, and the loaded-database and shell flags are never cleared. |
| SoftMain.OptionLoop | src/softIoc/softMain.cpp:123-157 | When the loop finishes, it leaves a suffix of the arguments that is shorter than two or does not start with an option. The trace only grows, and the flags are never cleared. |
| SoftMain.AfterOptions | src/softIoc/softMain.cpp:159-180 | A last `-a`, `-d` or `-m` without its argument fails after exactly "missing argument" and the usage text. A last `-h` succeeds after exactly the usage text, and any other unknown option fails after exactly "not recognized" and the usage text. In these cases nothing is started. A last `-s` runs start-up on the rest, then ends in the shell with success, or fails if the script fails. With no option left, start-up runs on the rest, success means a shell was requested and the script did not fail, and failure means the script failed or nothing was loaded or left to run. In those two cases the run is exactly `Finish`'s. |
| SoftMain.Startup | src/softIoc/softMain.cpp:182-192 | `iocInit` runs exactly when a database was loaded, and first. The script runs exactly when an argument is left. A failing script is the last action. |
| SoftMain.StartupRunsEachOnce | src/softIoc/softMain.cpp:182-192 | Start-up adds only `iocInit`, pauses and the script. `iocInit` runs once exactly when a database was loaded, the script once exactly when an argument is left, and there is one pause after each of them that succeeded. |
| SoftMain.Ending | src/softIoc/softMain.cpp:194-204 | After start-up, a failing script ends at once with failure. Otherwise exactly one of these follows: the shell alone with success, exactly when it was requested; nothing, with the main thread exiting, when something was loaded or a script ran; or "Nothing to do" and the usage text, with failure. |
| SoftMain.Finish | src/softIoc/softMain.cpp:182-205 | A failing script ends with failure. Otherwise a shell request ends in the shell with success. Without one, the main thread exits when something was loaded or a script ran. When neither happened, "Nothing to do" is printed and the process fails. After start-up, exactly `Ending`'s actions follow, and the run ends as `Ending` says. |
| SoftMain.Options | src/softIoc/softMain.cpp:116-157 | Every run that gets past the database definition starts with loading it and registering support. |
| SoftMain.Main | src/softIoc/softMain.cpp:89-121 | A first `-h` prints usage and succeeds before anything is loaded. Otherwise the first action loads the database definition. That is `-D`'s path when `-D` is the first argument and a path follows it, and the compiled-in default `<EPICS_BASE>/dbd/softIoc.dbd` otherwise. If that load fails, the process ends with failure. Otherwise support is registered next. |
| SoftMain.ExitSubroutine | src/softIoc/softMain.cpp:75-77 | The `exit` subroutine always exits, with success exactly when its input A is zero. |
| OptionWords.Words | src/softIoc/softMain.cpp:123-157 | The arguments are split into words, an optional option that ends the loop, and a tail. Every word starts with an option. A stopping option is neither `-a`, `-d`, `-m` nor `-s`. Without one, the tail is shorter than two or does not start with an option. |
| OptionWords.WordsCover | src/softIoc/softMain.cpp:123-157 | The words, the stopping option and the tail, put back together, are exactly the arguments. |
| OptionWords.MacrosAfterCons | src/softIoc/softMain.cpp:142-145 | The macros in force after a word and then more words are those after the more words, started from that word's macros. |
| OptionWords.ExpectedCons | src/softIoc/softMain.cpp:125-137 | The actions of a word followed by more words are the word's actions, then the actions of the rest with the macros the word leaves. |
| OptionWords.LoadsSucceedCons | src/softIoc/softMain.cpp:131-137 | Every load among a word and the words after it succeeds exactly when the word's own load does not fail and every later load succeeds with the macros the word leaves. |
| OptionWords.FailsAtCons | src/softIoc/softMain.cpp:131-137 | A first failing load after the first word is the first failing load of the remaining words. It produces the same run from the state after the first word. |
| OptionWords.LoopFollowsWords | src/softIoc/softMain.cpp:123-157 | When every `-d` loads, main's loop ends with the state the words describe. The macros are the last `-m`'s, the shell is requested if any `-s`, and a database is loaded if any `-d`. Every `-a` and `-d` acts with the macros of the most recent `-m` before it. The leftover arguments are the tail, or, with a stopping option, the process ends there. |
| OptionWords.LoopStopsAtFailedLoad | src/softIoc/softMain.cpp:131-134 | When the `-d` at position k is the first to fail, the process ends with failure right after that load, and only the earlier words have acted. |
| OptionWords.FirstFailure | src/softIoc/softMain.cpp:131-134 | Some load fails exactly when there is a first load that fails. |
| OptionWords.OptionsFollowWords | src/softIoc/softMain.cpp:120-180 | The handling of the option arguments is determined by the words. The first failing `-d` ends the process there. Otherwise a stopping option ends it after every word has acted. Otherwise the leftover arguments are handled from the state the words describe. |
| OptionWords.MainFollowsWords | src/softIoc/softMain.cpp:89-180 | Once the database definition has loaded, the whole of `main` is determined by the words of the arguments after `-D` and its path. The first failing `-d` ends the process there. Otherwise a stopping option ends it after every word has acted. Otherwise the leftover arguments are handled from the state the words describe. |

## Left out

- `src/dev/devBoSoftRaw.c` is not part of this model.
- `report`, `get_value` and `get_units` of the PID record are not modelled. They only print or hand out the value and units fields.
- The internals of `dbGetLink`, `tickGet`, `vxTicksPerSecond`, `db_post_events` and `dbScanPassive` are not modelled. A link read is an input `(ok, value)`, with the value being the destination's content after the call. The tick reading and the tick rate are inputs. Posting and forward scanning are output events.
- `dbLoadDatabase`, `registerRecordDeviceDriver`, `dbLoadRecords`, `asSetSubstitutions`, `asSetFilename`, `iocInit`, `iocsh` and `epicsThreadExitMain` are host actions in a trace. Whether a load or a script fails is a function of its arguments in `Host`.
- IEEE single-precision rounding of the `float` fields and of the delta-time conversion is not modelled. The arithmetic is exact over `real`.
- SoftMain.ExitSubroutine: the `a == 0.0` test is over `real`, which has no NaN. In the source, a NaN field A fails the test and exits with failure.
- PidControl.DoPid: a tick rate of zero is not modelled (it is a positive input), because the source would divide by it.
- PidControl.DoPid: when the controlled-value link is not a database link but a MAJOR or worse alarm is already pending, the source calls `dbGetLink` on it anyway. The model takes that read's outcome as the input like any other read.
- The `pact` flag is modelled as set and cleared within one scan. Concurrent or re-entrant processing is not modelled.
- Forward-link processing is one `ScanForward` event. The processing of the linked record is not modelled.
- The 0.2 s sleeps of `main` are `Pause` actions with no duration.
- The text of the usage and error messages is not modelled beyond which complaint is printed and with which program name. `exit` is the end of a `Run`.
- Arguments are whole strings. A C string's end at its first NUL is not modelled: a one-character option has the letter NUL, which is not recognised.
- The alarm status and severity numbers come from EPICS `alarm.h`, which is not part of this model.
- PidProcess.FirstScanMonitorsAndArchives: stated for values and deadbands below 1e29 in magnitude, because with larger ones the 1e30 seeding no longer guarantees the first monitor.
- PidProcess.FirstScanRaisesFirstFiringLimit: stated for values and a hysteresis below 1e29 in magnitude, for the same reason.
