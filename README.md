# CPU Monitor & App Restarter — a Dafny model of its watchdog engine

The program is a desktop watchdog for Windows. It keeps a list of applications
(for example Reolink camera clients). On every pass it samples each
application's CPU usage. It restarts an application whose usage stays above a
threshold, and relaunches one that has disappeared.

Two engines exist:

- **The enhanced engine** (`CPUMonitorApp` in cpu_monitor1.py):
  - per-app enable flags;
  - a GPU discount factor on CPU readings;
  - a debounce timer, so an app is restarted only after its CPU has stayed high
    for `cpu_threshold_duration` seconds;
  - a three-tier relaunch (stored path, common install paths, bare name);
  - executable discovery;
  - pause/resume;
  - a filter that keeps Reolink error chatter off the console.
- **The original engine** (cpu_monitor.py). It has none of these. It restarts
  an application in the same pass that finds it above the threshold.

## How the model is organised

| file | what it models |
|---|---|
| `text.dfy` (`Text`) | the Python string operations the engine relies on: `lower`, `strip`, `capitalize`, substring `in` |
| `os_oracle.dfy` (`Os`) | the operating system as one value, `Oracle`: the process table, per-pid CPU readings, which pids can be terminated or report user times, which paths exist, which commands start, `USERNAME`, and the answers of `where` |
| `records.dfy` (`Records`) | the app record, the settings, their defaults and the default-filling applied when they are loaded |
| `sampling.dfy` (`Sampling`) | process matching, `_filter_gpu_usage` and `get_app_cpu_usage_detailed` (a loop proved against a prefix-recursive specification) |
| `restart.dfy` (`Restart`) | the kill loop, the launch tiers and the two restart sequences of the enhanced engine |
| `tracker.dfy` (`Tracker`) | the rule chain of `check_apps_cpu` as a pure `Step` function, runs of ticks, the threshold column of the app table and the warning count |
| `discovery.dfy` (`Discovery`) | `find_executable_path` |
| `monitor.dfy` (`Monitor`) | the `CpuMonitor` class: the app list, the settings and the `monitoring`/`paused` flags, with every command of the window as a method, and `check_apps_cpu` as a loop proved against `Tracker.TickApps` |
| `console_filter.dfy` (`ConsoleFilter`) | `_should_filter` and `_is_reolink_error` |
| `legacy.dfy` (`Legacy`) | the original engine: its record, sampling, kill loop, restart sequences, rule chain, and the `LegacyMonitor` class |

Each evaluation of an app in a tick gets its own `Observation`: an `Oracle`
snapshot, plus the clock reading `time.time()` returns. A Python exception that
the source catches is modelled by the state the handler leaves.

### Behaviour of the code that is easy to misread

The model follows the code as written in each of these cases:

- **A vanished app is relaunched on every tick.** After a failed auto-restart,
  with the app still gone, the auto-restart runs again on every tick. The guard
  `status != "Terminated"` always holds on such a tick, so it never blocks a
  second auto-restart: `restart_terminated_app` always replaces "Terminated"
  with "Auto-Restarted" or "Auto-Restart Failed" before the tick ends. The same
  happens after a successful auto-restart if the relaunched process is not found
  on the next tick. See `Tracker.ZeroTicksRetriggerAutoRestart` and
  `Tracker.NeverEntersTerminated`. The original engine's guard
  (cpu_monitor.py:427) reads the same way: its `restart_terminated_app` ends in
  "Auto-Restarted" or "Restart Failed" (`Legacy.LegacyTerminationRestarts`).
- **The termination branch does not clear the threshold timer.** An app that
  vanishes while its timer runs keeps that timer.
- **A negative startup delay.** `restart_app` passes `startup_delay` to
  `time.sleep` unguarded. A negative value raises after the processes are
  killed, and the handler only logs, so the record is left as it was. No field
  is validated when `start_monitoring` parses the entries, so negative values
  are accepted.
- **A parse error leaves a partial update.** `start_monitoring` assigns the
  fields one at a time, so the fields before the first one that fails to parse
  keep their new values. See `Monitor.ParseInputs`.
- **A stop and a start within the startup delay start two loops.** The delayed
  start checks only the `monitoring` flag. A stop followed by a start within
  the delay therefore leaves two delayed starts pending, and each one starts a
  monitor loop. See `Monitor.StopThenRestartStartsTwoLoops`.
- **In the original engine a stop and a start within one check interval run
  two loops.** A successful start disables the Start button until a stop, so
  the button gives no second start while monitoring. But a loop thread tests
  the flag only after its sleep. A stop followed by a start before that test
  leaves the old thread running beside the new one. See
  `Legacy.StopThenStartRunsTwoLoops`.
- **The original engine aborts on a nameless process.** A process whose name
  psutil reports as `None` makes `.lower()` raise AttributeError, which that
  loop does not catch:
  - in sampling, the app is skipped for that pass and `last_cpu` is not
    written;
  - in the kill loop, the restart is abandoned.

## Model

| member | source | states |
|---|---|---|
| Text.StripSpec | cpu_monitor1.py:596-597 | the stripped name is the entry with a whitespace prefix and a whitespace suffix cut off; it is empty exactly when the entry is all whitespace, and otherwise neither begins nor ends with whitespace |
| Records.SettingsFromDoc | cpu_monitor1.py:1380-1394 | for each of the eight keys, a present value is taken and a missing key gets its fixed default from `DefaultSettings`, not the value held before |
| Records.SettingsRoundTrip | cpu_monitor1.py:1362-1394 | loading what `save_settings` wrote restores every setting |
| Records.EmptySettingsDocGivesDefaults | cpu_monitor1.py:1380-1394 | a settings file with no keys loads as the constructor's defaults |
| Records.FillDefaults | cpu_monitor1.py:1403-1416 | a missing "enabled" loads as true and a missing "threshold_exceeded_time" as no timer; present values of those two keys are kept, and name, process name, status, last CPU, restart count and executable path are carried over |
| Records.AppRoundTrip | cpu_monitor1.py:1396-1416 | loading a saved app gives back the same record |
| Sampling.FilterGpu | cpu_monitor1.py:918-940 | with user times available the result is `max(0, raw*factor)`, and otherwise exactly `raw*factor` |
| Sampling.GetAppCpuUsageDetailed | cpu_monitor1.py:870-916 | the loop returns the sum of filtered CPU and the number of processes whose name is non-empty, whose lower-cased name or non-empty exe contains the lower-cased app name, and whose CPU could be read |
| Sampling.CountZeroIff | cpu_monitor1.py:874-916 | the count is zero exactly when no process in the table is counted |
| Sampling.CountBounded | cpu_monitor1.py:874-916 | at most one count per process in the table |
| Sampling.CpuNonNegative | cpu_monitor1.py:918-940 | with a non-negative factor and non-negative readings the total is non-negative |
| Sampling.NamelessNeverCounted | cpu_monitor1.py:880-882 | a process with a missing or empty name never counts, whatever its exe |
| Sampling.NameMatchCounted | cpu_monitor1.py:884-904 | a readable process whose name contains the app name always counts |
| Restart.TerminateMatching | cpu_monitor1.py:949-973 | the kill loop counts exactly the processes that match by app name, by process name or by exe, and whose `terminate()` succeeds |
| Restart.KilledZeroIff | cpu_monitor1.py:949-973 | nothing is killed exactly when no process both matches and can be terminated |
| Restart.SampledIsKillTarget | cpu_monitor1.py:964-966 | every process the sampler counts is also a kill target |
| Restart.FirstWorking | cpu_monitor1.py:1005-1015 | the chosen common path exists and starts, and every earlier one fails; none is chosen only when all fail |
| Restart.RelaunchOrder | cpu_monitor1.py:984-1024 | the tiers in order: the stored path when it is non-empty, exists and starts; else the first common path that does, written back as the executable path; else the bare name; the outcome succeeds exactly when some tier starts |
| Restart.TryRelaunch | cpu_monitor1.py:984-1024 | the launch loop reaches the same outcome and executable path as the tier order |
| Restart.OverloadNoKillNoChange | cpu_monitor1.py:975-1038 | with no process killed the record is unchanged |
| Restart.OverloadOutcome | cpu_monitor1.py:975-1035 | after a kill the record is "Restarted" with count +1 exactly when a tier launched, otherwise "Restart Failed" with the count kept; no other field changes |
| Restart.OverloadCount | cpu_monitor1.py:1026-1035 | the count rises by at most one, and only together with "Restarted" |
| Restart.TerminationOutcome | cpu_monitor1.py:1045-1114 | the auto-restart ends "Auto-Restarted" with count +1 exactly when a tier launched, else "Auto-Restart Failed" with the count kept; the executable path becomes the one the launch tiers wrote back, and nothing else changes |
| Tracker.StepKeepsIdentity | cpu_monitor1.py:817-868 | a tick never renames or toggles an app, and a disabled app is skipped with no field changed |
| Tracker.FirstBreachStartsTimer | cpu_monitor1.py:834-841 | the first over-threshold tick stores `now` as the timer and changes nothing else besides the sample |
| Tracker.RestartIssuedIff | cpu_monitor1.py:834-848 | a restart happens exactly when the app is enabled, outside the termination case, over the threshold, with a timer at least the duration old; the result is `restart_app`'s record with the timer cleared |
| Tracker.NoRestartWithoutTimer | cpu_monitor1.py:837-848 | a tick that starts with no timer never issues an overload restart |
| Tracker.NotYetDue | cpu_monitor1.py:849-852 | over the threshold with a young timer only the sample changes |
| Tracker.NormalizeClearsTimerOnly | cpu_monitor1.py:854-857 | at or below the threshold with a timer, only the timer is cleared; the status stays |
| Tracker.RecoveredIff | cpu_monitor1.py:854-861 | the status returns to "Active" exactly when the timer is already clear, at least one process is counted, the CPU is at or below the threshold, and the status is "Terminated" or "Restarting" |
| Tracker.TerminationRestarts | cpu_monitor1.py:827-832 | zero processes with auto-restart on and status not "Terminated" run the auto-restart: "Auto-Restarted" with count +1 or "Auto-Restart Failed" with count kept; the timer is untouched |
| Tracker.NeverEntersTerminated | cpu_monitor1.py:825-832 | no tick moves an app into "Terminated": an app that did not start the tick there does not end it there |
| Tracker.NoAutoRestartNoTermination | cpu_monitor1.py:825-832 | with auto-restart off the termination rule never applies |
| Tracker.RestartCountStep | cpu_monitor1.py:817-868 | per tick the count rises by at most one, and only on a restart rule |
| Tracker.ZeroTicksRetriggerAutoRestart | cpu_monitor1.py:825-832 | two consecutive zero-process ticks both run the auto-restart |
| Tracker.SustainedBreachRestartsOnce | cpu_monitor1.py:834-848 | holding an app over the threshold from a clear timer gives TimerStarted, then TimerRunning until the duration is reached, then exactly one RestartIssued, after which the timer is clear |
| Tracker.ThresholdStatus | cpu_monitor1.py:682-690 | "Normal" exactly without a timer, "RESTART NOW" exactly when the duration has passed, else a warning with the positive time remaining |
| Tracker.ViewPredictsDecision | cpu_monitor1.py:682-690 | for an overloaded enabled app the table's column predicts the tick: Normal → timer starts, warning → waits, RESTART NOW → restart |
| Tracker.WarningsSpec | cpu_monitor1.py:798-801 | the warning count is at most the enabled count, and zero exactly when no enabled app has a timer |
| Tracker.CalmTickClearsWarnings | cpu_monitor1.py:854-857 | a tick in which every enabled app is present and calm leaves no warnings |
| Discovery.FirstExisting | cpu_monitor1.py:1130-1141 | the chosen install path exists and all earlier ones do not |
| Discovery.FirstProvided | cpu_monitor1.py:1143-1152 | the executable of the first process with a matching name and an existing exe; none exactly when no process has both |
| Discovery.FindExecutableSpec | cpu_monitor1.py:1116-1158 | a successful `where` wins; otherwise any path found exists; nothing is found exactly when all three searches fail |
| Discovery.FindExecutablePath | cpu_monitor1.py:1116-1158 | the method returns what the three-tier search specifies |
| Discovery.SearchInstallPaths | cpu_monitor1.py:1139-1141 | the loop stops at the first existing install path, as `FirstExisting` specifies |
| Discovery.SearchProcesses | cpu_monitor1.py:1143-1152 | the loop returns the exe of the first providing process, as `FirstProvided` specifies |
| Monitor.FirstIndex | cpu_monitor1.py:660-668 | the first position holding the name; none exactly when the name is absent |
| Monitor.Without | cpu_monitor1.py:642 | every kept record was in the list and has another name |
| Monitor.WithoutMultiplicity | cpu_monitor1.py:642 | records with other names keep their multiplicity |
| Monitor.WithoutKeepsOrder | cpu_monitor1.py:642 | the kept records stay in list order: removal distributes over concatenation, and one record is kept exactly when its name differs |
| Monitor.WithoutSpec | cpu_monitor1.py:1303 | removal leaves no record of that name, keeps names distinct, drops exactly one record when the name was listed and changes nothing otherwise |
| Monitor.AppendFreshKeepsUnique | cpu_monitor1.py:601-619 | appending a name that is not listed keeps names distinct |
| Monitor.ParseInputsSpec | cpu_monitor1.py:703-717 | parsing succeeds exactly when every numeric entry parses, and then gives exactly the entered values; for each field that can fail first, the fields before it hold the entered values and it and all later fields keep their old values, with the error-filter flag entered right after the duration |
| Monitor.DiscoveredSpec | cpu_monitor1.py:1160-1177 | discovery never replaces a set path and fills an empty one only with a non-empty result |
| Monitor.CpuMonitor.constructor | cpu_monitor1.py:76-88 | empty list, default settings, not monitoring, not paused |
| Monitor.CpuMonitor.AddApp | cpu_monitor1.py:595-623 | an empty stripped name and a listed name are rejected; otherwise `NewApp` is appended; names stay distinct |
| Monitor.CpuMonitor.RemoveApp | cpu_monitor1.py:625-646 | with a selection and a confirmation the list becomes `Without` that name; otherwise unchanged |
| Monitor.CpuMonitor.RemoveAppByName | cpu_monitor1.py:1293-1306 | on confirmation the list becomes `Without` the name |
| Monitor.CpuMonitor.ToggleAppStatus | cpu_monitor1.py:648-670 | flips `enabled` of the first record with the name only; reports whether it was found |
| Monitor.CpuMonitor.SetExecutablePath | cpu_monitor1.py:1229-1242 | sets the path of the first record with the name exactly when the path exists; the result says so |
| Monitor.CpuMonitor.ResetThresholdTimer | cpu_monitor1.py:1280-1291 | clears the timer of the first record with the name |
| Monitor.CpuMonitor.DiscoverExecutablePaths | cpu_monitor1.py:1160-1177 | every record becomes `Discovered` |
| Monitor.CpuMonitor.LoadMonitoredApps | cpu_monitor1.py:1403-1416 | an existing file replaces the list by its entries with defaults filled in |
| Monitor.CpuMonitor.LoadSettings | cpu_monitor1.py:1380-1394 | an existing file replaces the settings by `SettingsFromDoc` |
| Monitor.CpuMonitor.StartMonitoring | cpu_monitor1.py:702-749 | a parse error, an empty list or no enabled app reject the start and leave the flags; success sets monitoring on and paused off and starts the loop now or arms a delayed start |
| Monitor.CpuMonitor.DelayedStartElapsed | cpu_monitor1.py:738-741 | a delayed start launches a loop only if monitoring is still on |
| Monitor.CpuMonitor.AutoStartMonitoring | cpu_monitor1.py:587-593 | runs `start_monitoring` exactly when some app is enabled, with its effect on the settings and flags (monitoring on, not paused, loop started now or armed); otherwise nothing changes |
| Monitor.CpuMonitor.PauseMonitoring | cpu_monitor1.py:758-770 | pause and resume toggle `paused` |
| Monitor.CpuMonitor.StopMonitoring | cpu_monitor1.py:772-779 | both flags off |
| Monitor.CpuMonitor.MonitorLoopStep | cpu_monitor1.py:781-790 | a pass samples exactly while monitoring and not paused |
| Monitor.CpuMonitor.UpdateMonitoringInfo | cpu_monitor1.py:792-815 | enabled, total and warning counts while monitoring; the paused notice while paused; blank when stopped |
| Monitor.CpuMonitor.CheckAppsCpu | cpu_monitor1.py:817-868 | the list after the loop is `Tracker.TickApps` and each decision is `Tracker.Step`'s |
| Monitor.CpuMonitor.CheckApp | cpu_monitor1.py:818-868 | one app's record becomes `Tracker.Step`'s result and the others stay |
| Monitor.CpuMonitor.RestartApp | cpu_monitor1.py:942-1043 | the record becomes `Restart.OverloadRestart`'s |
| Monitor.CpuMonitor.RestartTerminatedApp | cpu_monitor1.py:1045-1114 | the record becomes `Restart.TerminationRestart`'s |
| Monitor.StopThenRestartStartsTwoLoops | cpu_monitor1.py:738-741 | stop then start within the delay leads to two monitor loops |
| ConsoleFilter.ScanPatterns | cpu_monitor1.py:49-52 | the scan finds a phrase exactly when some lower-cased phrase occurs in the text |
| ConsoleFilter.ShouldFilter | cpu_monitor1.py:31-53 | a chunk is dropped exactly when it is not blank and mentions a phrase |
| ConsoleFilter.IsReolinkError | cpu_monitor1.py:1330-1349 | a message is kept off the console exactly when it mentions a phrase |
| ConsoleFilter.PatternListsAgree | cpu_monitor1.py:37-47 | the two phrase lists coincide once lower-cased |
| ConsoleFilter.PatternsNotBlank | cpu_monitor1.py:37-47 | every phrase starts with a non-whitespace character |
| ConsoleFilter.FiltersAgree | cpu_monitor1.py:1330-1349 | the stream filter and the log filter decide alike on every text |
| ConsoleFilter.UndefinedIsFiltered | cpu_monitor1.py:49-52 | any text holding "undefined" in any case is dropped |
| ConsoleFilter.BlankIsKept | cpu_monitor1.py:33-34 | text that `strip()` leaves empty is never dropped |
| Legacy.LegacySettingsRoundTrip | cpu_monitor.py:574-600 | saved settings load back unchanged; an empty file loads the defaults |
| Legacy.LegacyCpuUsage | cpu_monitor.py:453-469 | the loop returns the raw CPU sum and the count of name-matching readable processes, or fails when a process has no name |
| Legacy.LegacyCountZeroIff | cpu_monitor.py:453-469 | the count is zero exactly when no process is counted |
| Legacy.LegacyMatchIgnoresExe | cpu_monitor.py:460 | matching does not look at the executable path |
| Legacy.ExeOnlyMatchNotCountedByLegacy | cpu_monitor.py:460 | the processes the enhanced sampler counts and this one does not are exactly those with a non-empty name lacking the app name, a non-empty exe holding it, and a readable CPU |
| Legacy.LegacyTerminate | cpu_monitor.py:477-485 | the kill loop counts name-matching processes whose `terminate()` succeeds, or fails on a nameless process |
| Legacy.LegacyOverloadOutcome | cpu_monitor.py:471-519 | count +1 and "Restarted" exactly when something was killed, the delay is non-negative and the launch target starts; otherwise the record is unchanged |
| Legacy.LegacyTerminationOutcome | cpu_monitor.py:521-555 | "Auto-Restarted" with count +1 exactly when the target starts, else "Restart Failed" with the count kept; nothing else changes |
| Legacy.LegacySampleFailureKeepsApp | cpu_monitor.py:421-443 | a failed sample leaves the record untouched |
| Legacy.LegacyImmediateRestart | cpu_monitor.py:433-435 | a restart is issued exactly when the sample succeeds, the termination case does not apply and the CPU is over the threshold, with no timer |
| Legacy.LegacyTerminationRestarts | cpu_monitor.py:426-430 | the auto-restart runs exactly on zero processes with auto-restart on and status not "Terminated", and ends "Auto-Restarted" or "Restart Failed" |
| Legacy.LegacyRecoveredIff | cpu_monitor.py:438-439 | "Active" again exactly with processes, CPU at or below the threshold, and status "Terminated" or "Restarting" |
| Legacy.LegacyStepKeepsIdentity | cpu_monitor.py:418-446 | a pass keeps an app's name, process name and stored path, and raises its restart count by at most one, only on a restart rule |
| Legacy.LegacyTickApps | cpu_monitor.py:418-446 | a pass keeps every app in its place with its name, process name and path, and moves each restart count by at most one |
| Legacy.LegacyRun | cpu_monitor.py:408-446 | over n passes the name and path stay and the restart count rises by at most n |
| Legacy.LegacyRestartsEveryPass | cpu_monitor.py:433-435 | n restartable hot passes give n restarts |
| Legacy.ParseLegacyInputs | cpu_monitor.py:378-385 | parsing succeeds exactly when all three numbers parse, and gives the entered values; when the interval or the startup delay fails, the fields before it hold the entered values and it and the later ones keep their old values |
| Legacy.LegacyWithout | cpu_monitor.py:356 | kept records were listed and have another name |
| Legacy.LegacyWithoutMultiplicity | cpu_monitor.py:356 | records with other names keep their multiplicity |
| Legacy.LegacyWithoutKeepsOrder | cpu_monitor.py:356 | the kept records stay in list order |
| Legacy.LegacyMonitor.constructor | cpu_monitor.py:27-33 | empty list, defaults, not monitoring, Start button enabled, no loop thread |
| Legacy.LegacyMonitor.LoadSettings | cpu_monitor.py:589-600 | an existing file's values or the defaults replace the settings |
| Legacy.LegacyMonitor.LoadMonitoredApps | cpu_monitor.py:610-618 | an existing file's list replaces the current one as stored |
| Legacy.LegacyMonitor.AddApp | cpu_monitor.py:306-333 | empty and listed names are rejected; otherwise one fresh record is appended; names stay distinct |
| Legacy.LegacyMonitor.RemoveApp | cpu_monitor.py:345-359 | with a selection the list becomes `LegacyWithout` that name, with no confirmation |
| Legacy.LegacyMonitor.StartMonitoring | cpu_monitor.py:377-398 | runs only from the enabled Start button; a parse error or an empty list reject the start and leave the button enabled; a success turns monitoring on, starts one more loop thread and disables the button |
| Legacy.LegacyMonitor.StopMonitoring | cpu_monitor.py:400-406 | monitoring off and the Start button enabled; loop threads are left to notice the flag |
| Legacy.LegacyMonitor.MonitorLoopStep | cpu_monitor.py:408-416 | a live loop thread checks the apps exactly while monitoring, and otherwise leaves its loop |
| Legacy.LegacyMonitor.CheckAppsCpu | cpu_monitor.py:418-446 | the list after the loop is `LegacyTickApps` and each decision is `LegacyStep`'s |
| Legacy.LegacyMonitor.CheckApp | cpu_monitor.py:421-442 | one app's record becomes `LegacyStep`'s |
| Legacy.LegacyMonitor.RestartApp | cpu_monitor.py:471-519 | the record becomes `LegacyOverloadRestart`'s |
| Legacy.LegacyMonitor.RestartTerminatedApp | cpu_monitor.py:521-555 | the record becomes `LegacyTerminationRestart`'s |
| Legacy.StopThenStartRunsTwoLoops | cpu_monitor.py:377-413 | a stop and a start within one check interval leave two loop threads running |

## Left out

- Floating point is not modelled: the thresholds, intervals, delays, the duration, the GPU factor, CPU readings and timestamps, all Python floats, are exact reals. `float()` also accepts "nan" and "inf" in the entries; a NaN threshold would make every `cpu_percent > cpu_threshold` test false, and a NaN or infinite startup delay would reach `time.sleep`. Those entries, and rounding in sums and comparisons, are not represented; a parsed entry in `Monitor.ParseInputs` and `Legacy.ParseLegacyInputs` is always a real number.
- cpu_monitor1.py nests double quotes inside double-quoted f-strings (for example `f"DETECTED: {app["name"]} ..."` in `check_apps_cpu`). Python accepts that only from version 3.12 on; earlier interpreters reject the whole file. The model follows the code's meaning and says nothing about the interpreter version.

- The Tk user interface is not modelled: layout, styles, the Treeview rendering, message boxes, file dialogs and context menus. A dialog's answer and the selected row are parameters.
- A `messagebox.showinfo` raised from the monitor thread is not modelled. Such a call would land in the restart handlers:
  - in the enhanced engine, after "Auto-Restarted" it would turn the status into "Auto-Restart Failed";
  - in the original engine (cpu_monitor.py:548-555), after "Auto-Restarted" it would turn the status into "Restart Failed" with the restart count already raised by one.
- Treeview value coercion is not modelled. A name displayed as a number would come back from the selection as an int and match nothing.
- Threads and `root.after` hand-offs are not modelled. A tick is one sequential loop step, and a delayed start is a pending counter that `Monitor.CpuMonitor.DelayedStartElapsed` consumes. In the original engine the loop threads are a count of live threads; each `Legacy.LegacyMonitor.MonitorLoopStep` is one test of the loop's flag by one of them. The interleaving of two loop threads over the shared list is not represented.
- Sleeps and the clock are not modelled beyond ordering. Time is the `now` of each observation.
- The loop's `time.sleep(check_interval)` raising on a negative interval is caught and changes no state, so it is left out.
- psutil, `subprocess.Popen`, `where`, `os.path.exists` and `os.getenv` are answers of the `Oracle` value. One snapshot serves each app's evaluation and its restart. Processes that change between the sampling and the kill loop, and the terminations an aborted kill loop already performed, are not represented.
- JSON reading and writing are not modelled. A missing or unreadable file is `None`; a document is a record of optional keys.
- Records written by the original engine and loaded by the enhanced one are not modelled. The enhanced engine fills in the two missing keys; `Records.FillDefaults` covers only that.
- `str.lower`, `str.strip` and `str.capitalize` act on ASCII only. Python's Unicode case mapping and whitespace class are not modelled.
- Log formatting, the log widget and its 1000-line trim are not modelled, and neither is `logging`.
- The console-stream swapping (`setup_output_filtering`, `FilteredOutput.write`, `flush`, `__getattr__`) is not modelled. `log_message`'s choice whether to echo to the console is not a member of its own; it is `ConsoleFilter.IsReolinkError` guarded by the setting.
- `test_output_filter`, `debug_cpu_monitoring`, `browse_executable` and `on_closing` are UI or diagnostics, and are not modelled.
- demo.py is not part of this model: it is a print-only psutil demonstration with no state.
- run_cpu_monitor_main.py is not part of this model: it is an import-and-run launcher.
- The corrupted pause-button code at cpu_monitor.py:267 is not modelled.
- Legacy.LegacyMonitor.LoadMonitoredApps: the stored list is taken as already well-formed records. A file with missing keys would raise KeyError later, in code that is not modelled.
- Sampling.CpuNonNegative: holds only under its stated assumptions. psutil readings are not negative, but the oracle allows any real number.
