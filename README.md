# MuteMicService: the microphone monitor and its view model, in Dafny

MuteMicService keeps the default capture device muted. Its `MicMuteService` runs a background loop. Each cycle of the loop does four things:

1. It awaits a settle delay.
2. It asks `MicrophoneManager` whether a microphone is present. When that differs from the previous cycle's answer, it raises a detection notification and a status.
3. With a microphone present, it reads the mute flag and calls `MuteMicrophone` up to `_retryAttempts` times, stopping at the first success. It reads the flag again and, when the two readings differ, raises a mute-state notification and a status.
4. It awaits the check interval.

An exception in a cycle is reported as an `Error: <message>` status, followed by a 2000 ms backoff. Cancellation ends the loop. `MainViewModel` owns the service, subscribes to its three notifications and derives the text, detail and colour class of the window's status display.

The project models these two classes.

- `oracle.dfy` (module `Oracle`) holds what the service cannot see.
  - `CycleInput` gives what the device answers in one cycle, and which delay of the cycle, if any, observes cancellation.
  - It also says which notification's handler, if any, throws.
  - `Device` is the microphone as the view model reads it, with the guards of `MicrophoneManager`.
- `cycle.dfy` (module `Cycle`) defines the specification functions of the loop.
  - `Attempts`/`Retry` describe the retry loop, `CycleStep` one cycle, and `RunUpTo`/`Run` the loop over a sequence of cycles.
  - Each states the notifications raised (`Event`), in order, and the device calls and delays made (`Op`), in order.
- `services.dfy` (module `Services`) is the class `MicMuteService`.
  - Its fields are the running flag, the three settings, the trace of raised notifications and the log of device calls and delays.
  - `Start`, `Stop` and `ConfigureSettings` are state transitions. `taskCanceled` stands for the status of `_monitoringTask`, which `MonitorMicrophone` sets. `StopAsWritten` is `Stop` as the code has it, reading that status (see Findings).
  - `MonitorMicrophone` is the `while` loop of `MonitorMicrophoneAsync`, with the retry `for` loop inside `MuteWithRetries`. It is proved to produce exactly `Run`.
- `cycle_props.dfy` and `cycle_reports.dfy` (modules `CycleProps`, `CycleReports`) prove what the loop promises:
  - the retry bound and order;
  - edge-triggered detection that alternates starting with `true`;
  - where each report sits and what it carries;
  - how errors and cancellation end a cycle;
  - that a cancelled loop raises nothing more.
- `view_model.dfy` (module `ViewModels`) covers the view model.
  - `CurrentStatus` is the decision table of `UpdateStatusBasedOnCurrentState`.
  - `ServiceButtonText` is the button label.
  - The class `MainViewModel` holds the field-by-field handlers, the `ServiceEnabled` setter and the refresh.

Status messages are kept in the trace as a `Notice` value. `Cycle.Text` gives the exact string the source raises for each, for example `"Microphone detected: " + name` or `"Error: " + msg`.

Points where the code may surprise a reader; the model follows the code:

- The initial delay `_initialDelayMs` is awaited at the top of every cycle, not only before the first one (`MicMuteService.cs:76`). `CycleStep` always starts with `Wait(InitialDelay, …)`.
- `wasMicAvailable` starts `false` (`MicMuteService.cs:69`). A device that is never present therefore raises no detection notification at all, not one `false` in the first cycle (`NeverAvailableNoDetections`).
- A failed mute on a device that is already unmuted raises neither a mute-state notification nor a status, because both sit inside `if (wasMuted != isMuted)` (`MicMuteService.cs:110-114`; `FailedMuteOnUnmutedIsSilent`).
- The mute-state comparison is between two readings in the same cycle (`MicMuteService.cs:96, 109`), not between the readings of consecutive cycles.
- Every failed mute call is followed by the 100 ms retry delay, including the last one (`MicMuteService.cs:104-105`), not only the gaps between attempts.

## Model

| member | source | states |
|---|---|---|
| Oracle.CurrentName | MuteMicService/Models/MicrophoneManager.cs:88-94 | with no device resolved the name is "No microphone available"; otherwise it is the device's FriendlyName read, which may throw |
| Oracle.CurrentMuted | MuteMicService/Models/MicrophoneManager.cs:41-54 | a mute reading is true only when a device is resolved |
| Cycle.Text | MuteMicService/Services/MicMuteService.cs:85-127 | every status string is non-empty, and the error reports of line 126 are exactly the strings starting with "Error: " (the running/stopped strings are those of line 31) |
| CycleProps.TextInjective | MuteMicService/Services/MicMuteService.cs:85-127 | different notices are raised as different strings, so the trace of notices determines the strings StatusChanged carried |
| Cycle.Attempts | MuteMicService/Services/MicMuteService.cs:97-106 | after n passes the retry loop has succeeded, been cancelled, or failed n times; a cancelled loop has failed at least once, and its last retry delay observed cancellation; failures plus the success number at most n |
| Cycle.Retry | MuteMicService/Services/MicMuteService.cs:100-106 | with the bound _retryAttempts, the failed calls plus the successful one number at most the bound; a bound that is not positive makes no call and no delay |
| Cycle.DetectStage | MuteMicService/Services/MicMuteService.cs:76-91 | a cycle starts by awaiting the initial delay; it is cancelled there iff that delay observes cancellation, and then raises nothing; a report is raised only when the poll differs from the recorded availability, and starts with the detection carrying the poll; a handler can throw only on one of the two reports |
| Cycle.MuteStage | MuteMicService/Services/MicMuteService.cs:96-114 | the muting part starts by reading the mute flag; cancelled, it raises nothing; otherwise it ends with the second reading; a report is raised only when the readings differ, and starts with the mute state carrying the second reading; a handler can throw only on one of its two reports |
| Cycle.Finish | MuteMicService/Services/MicMuteService.cs:117-128 | a cycle ends with exactly one more delay and, after a handler threw, exactly one more status; it ends cancelled iff that delay observes cancellation |
| Cycle.RunUpTo | MuteMicService/Services/MicMuteService.cs:67-130 | every cycle awaits at least its initial delay, so a run not cancelled has at least one step per cycle; a cancelled run has run a cycle |
| Cycle.Run | MuteMicService/Services/MicMuteService.cs:67-130 | a run over all the cycles that is not cancelled has at least one step per cycle |
| Cycle.TaskCanceled | MuteMicService/Services/MicMuteService.cs:120-127 | the monitoring task ends Canceled exactly when the loop's last step is the 2000 ms error backoff and that backoff observed cancellation; a Canceled task means the loop ended by cancellation |
| Cycle.CycleStep | MuteMicService/Services/MicMuteService.cs:73-128 | every cycle starts by awaiting the initial delay; a cycle ends cancelled only if one of its delays observes cancellation |
| Services.MicMuteService.constructor | MuteMicService/Services/MicMuteService.cs:14-17 | a new service is stopped, with settings 1000/500/3, and has raised nothing |
| Services.MicMuteService.SetIsRunning | MuteMicService/Services/MicMuteService.cs:23-34 | the flag takes the value; "Service is running"/"stopped" is raised exactly when the value changes |
| Services.MicMuteService.Start | MuteMicService/Services/MicMuteService.cs:41-52 | starting a running service changes nothing and raises nothing; starting a stopped one launches a new task that is not Canceled, runs it and raises exactly one "Service is running" |
| Services.MicMuteService.Stop | MuteMicService/Services/MicMuteService.cs:54-65 | stopping a stopped service raises nothing; stopping a running one stops it and raises exactly one "Service is stopped" (the intended behaviour; see Findings) |
| Services.MicMuteService.StopAsWritten | MuteMicService/Services/MicMuteService.cs:54-65 | as the code has it: stopping a running service throws iff the recorded status of the monitoring task is Canceled, and then raises nothing and leaves it running; otherwise as Stop |
| Services.MicMuteService.ConfigureSettings | MuteMicService/Services/MicMuteService.cs:132-142 | each setting is replaced only by a positive argument, independently of the others; positive settings stay positive |
| Services.MicMuteService.OnStatusChanged | MuteMicService/Services/MicMuteService.cs:144-147 | raising a status appends exactly it to the trace |
| Services.MicMuteService.OnMicrophoneDetectionChanged | MuteMicService/Services/MicMuteService.cs:149-152 | raising a detection appends exactly it to the trace |
| Services.MicMuteService.OnMicrophoneMuteStateChanged | MuteMicService/Services/MicMuteService.cs:154-157 | raising a mute state appends exactly it to the trace |
| Services.MicMuteService.Delay | MuteMicService/Services/MicMuteService.cs:76 | an awaited delay is logged with its kind and length, and reports cancellation exactly when it is the delay that observes it |
| Services.MicMuteService.Initialize | MuteMicService/Services/MicMuteService.cs:79 | the poll is logged and returns the device's availability for the cycle |
| Services.MicMuteService.IsMicrophoneMuted | MuteMicService/Services/MicMuteService.cs:96 | the mute reading is logged and returned |
| Services.MicMuteService.MuteMicrophone | MuteMicService/Services/MicMuteService.cs:102 | the attempt-th mute call is logged with the device's answer, which is returned |
| Services.MicMuteService.MuteWithRetries | MuteMicService/Services/MicMuteService.cs:97-106 | with the positive settings the class keeps, the for loop makes exactly the calls and retry delays of Retry with bound _retryAttempts, and returns its success, cancellation and failure count |
| Services.MicMuteService.NotifyPair | MuteMicService/Services/MicMuteService.cs:85-90 | a notification and its status are raised in order; a handler that throws on the first stops the second |
| Services.MicMuteService.EnsureMuted | MuteMicService/Services/MicMuteService.cs:96-114 | reading, retrying, re-reading and reporting raise and log exactly what MuteStage says |
| Services.MicMuteService.DetectMicrophone | MuteMicService/Services/MicMuteService.cs:76-91 | the initial delay, the poll and the detection report are exactly DetectStage; the recorded availability becomes the polled one unless the delay was cancelled |
| Services.MicMuteService.FinishCycle | MuteMicService/Services/MicMuteService.cs:117-128 | a cycle ends with the error status and the 2000 ms backoff after a handler threw, otherwise with the check interval |
| Services.MicMuteService.MonitorCycle | MuteMicService/Services/MicMuteService.cs:73-128 | one pass of the loop body raises, logs and records availability exactly as CycleStep says, and reports whether its cancellation leaves the task Canceled (TaskCanceled) |
| Services.MicMuteService.MonitorMicrophone | MuteMicService/Services/MicMuteService.cs:67-130 | the while loop over the cycles raises and logs exactly Run, stops at the first cancelled cycle, and records the task as Canceled exactly when TaskCanceled of the run holds |
| Services.RunSession | MuteMicService/Services/MicMuteService.cs:41-65 | with the intended Stop: start twice, run, stop twice: one running status, the loop's notifications, one stopped status, and the service is stopped |
| Services.RunSessionAsWritten | MuteMicService/Services/MicMuteService.cs:41-65 | with Stop as written: Stop throws iff the task the loop leaves behind is Canceled (TaskCanceled of the run); then no stopped status is raised and the service still counts as running; otherwise as RunSession |
| CycleProps.BackoffCancellationCancelsTask | MuteMicService/Services/MicMuteService.cs:82-127 | for any run and any message: if the run is not cancelled before cycle n, and cycle n finds a microphone change, its detection handler throws, and its error backoff observes cancellation, then the task ends Canceled and the run's notifications end with that detection and the error report |
| CycleProps.BackoffCancellationExample | MuteMicService/Services/MicMuteService.cs:82-127 | the input of the finding below: one cycle that finds a microphone, with the detection handler throwing "boom" and the backoff observing cancellation, leaves the task Canceled after the detection and "Error: boom" |
| CycleProps.CycleTaskCanceled | MuteMicService/Services/MicMuteService.cs:120-127 | a cycle leaves the task Canceled iff it is cancelled right after reporting an error: cancellation at the initial, retry or interval delay reaches the break |
| CycleProps.FinishTaskCanceled | MuteMicService/Services/MicMuteService.cs:117-127 | the end of a cycle leaves the task Canceled iff it is the error backoff and that backoff observes cancellation |
| CycleProps.RetryCancelledEndsWithDelay | MuteMicService/Services/MicMuteService.cs:104-105 | a cancelled retry loop ends with the 100 ms retry delay that observed the cancellation |
| CycleProps.ThenTaskCanceled | MuteMicService/Services/MicMuteService.cs:71-129 | a run that goes on with a cycle ends Canceled or not as that cycle does |
| CycleProps.AttemptsSettled | MuteMicService/Services/MicMuteService.cs:100 | once a call succeeds or a retry delay is cancelled, further passes of the loop change nothing |
| CycleProps.AttemptsShape | MuteMicService/Services/MicMuteService.cs:97-106 | the loop's steps are failed calls each followed by a retry delay, then at most one successful call; no more than n calls; the failures are the first results; cancellation happens exactly at the last retry delay |
| CycleProps.AttemptsSucceedIff | MuteMicService/Services/MicMuteService.cs:100-106 | the loop succeeds iff some call among the first n succeeds and no retry delay before it observed cancellation |
| CycleProps.FailedTriesAt | MuteMicService/Services/MicMuteService.cs:104-105 | k failed tries are 2k steps: a failed call at even positions, a 100 ms retry delay at odd ones |
| CycleProps.RetryCallBound | MuteMicService/Services/MicMuteService.cs:100-102 | MuteMicrophone is called at most _retryAttempts times, and never when that is not positive |
| CycleProps.RetryCallOrder | MuteMicService/Services/MicMuteService.cs:100-106 | nothing follows a successful call, and each failed call is followed at once by the 100 ms retry delay |
| CycleProps.CancelledRunIsFinal | MuteMicService/Services/MicMuteService.cs:120-122 | once a cycle is cancelled, the rest of the cycles add nothing to the run |
| CycleProps.CancelledPrefixIsFinal | MuteMicService/Services/MicMuteService.cs:120-122 | after a cancelled cycle, the run stays the same at every later cycle |
| CycleProps.DetectionsAppend | MuteMicService/Services/MicMuteService.cs:85 | the detection payloads of two stretches of reports are those of the first followed by those of the second |
| CycleProps.CycleDetections | MuteMicService/Services/MicMuteService.cs:82-91 | a cycle raises one detection, carrying the polled availability, iff its initial delay was not cancelled and the poll differs from the recorded value; the recorded value becomes the poll |
| CycleProps.RunStepDetections | MuteMicService/Services/MicMuteService.cs:82-85 | one more cycle adds exactly its detection, if any, to the run's detection payloads and updates the recorded availability |
| CycleProps.RunDetections | MuteMicService/Services/MicMuteService.cs:69-91 | over any run the detection payloads strictly alternate, starting with true, and the last is the recorded availability (false when there is none) |
| CycleProps.NeverAvailableNoDetections | MuteMicService/Services/MicMuteService.cs:69-85 | a device that is never present raises no detection notification, and the recorded availability stays false |
| CycleProps.CancelledByToken | MuteMicService/Services/MicMuteService.cs:120-122 | the loop ends cancelled only if some cycle had a delay that observed cancellation |
| CycleProps.UnavailableCycleOps | MuteMicService/Services/MicMuteService.cs:94-118 | with no device a cycle awaits, polls and awaits the interval or backoff, or ends at its cancelled first delay: no mute reading and no mute call |
| CycleProps.CycleMuteCalls | MuteMicService/Services/MicMuteService.cs:94-106 | a cycle calls MuteMicrophone at most _retryAttempts times, and only with a device present |
| CycleProps.MuteStageCalls | MuteMicService/Services/MicMuteService.cs:96-109 | the mute calls of the muting part of a cycle are exactly those of its retry loop |
| CycleReports.CycleReportsUncancelled | MuteMicService/Services/MicMuteService.cs:82-127 | a cycle that no cancellation reaches raises the quiet reports up to the notification whose handler throws, then one "Error: msg" and the backoff; or raises all of them and awaits the interval; the recorded availability is the poll |
| CycleReports.CancelledCycleIsPrefix | MuteMicService/Services/MicMuteService.cs:71-122 | a cancelled initial delay raises nothing; a cancelled retry delay leaves only the detection reports; later cancellation changes no report; the reports are always a prefix of the uncancelled cycle's |
| CycleReports.MutingCycleIsPrefix | MuteMicService/Services/MicMuteService.cs:100-122 | the same, for a cycle that reaches the mute attempts |
| CycleReports.AttemptsUncancelled | MuteMicService/Services/MicMuteService.cs:104-105 | a retry loop that no cancellation stopped did what it does with no cancellation at all |
| CycleReports.CycleEventsForm | MuteMicService/Services/MicMuteService.cs:73-128 | any cycle raises nothing, only the detection reports, all the quiet reports, or a prefix of them ending at the throwing handler followed by the error status |
| CycleReports.CycleDetectionReports | MuteMicService/Services/MicMuteService.cs:82-91 | a detection notification is the first report, only when availability changed, carries the poll, and is followed by its "Microphone detected: name" / "No microphone detected" status or the error status; those statuses appear only right after it |
| CycleReports.CycleMuteReports | MuteMicService/Services/MicMuteService.cs:109-114 | a mute-state notification is raised only with a device present and the readings different, carries the second reading, and is followed by "Microphone muted" / "Failed to mute microphone" as that reading says, or the error status; those statuses appear only right after it |
| CycleReports.CycleErrorReport | MuteMicService/Services/MicMuteService.cs:124-127 | an "Error: msg" status is the last report of its cycle, at most one per cycle, with the handler's message |
| CycleReports.FailedMuteOnUnmutedIsSilent | MuteMicService/Services/MicMuteService.cs:110-114 | a device unmuted before and after the attempts raises no mute-state notification and neither mute status |
| ViewModels.CurrentStatus | MuteMicService/ViewModels/MainViewModel.cs:167-189 | Inactive iff disabled; Success iff enabled, detected and muted (detail is the name); Warning otherwise; "Microphone not muted" iff enabled, detected and unmuted; never Error, Neutral or Active |
| ViewModels.DisabledIgnoresMicrophone | MuteMicService/ViewModels/MainViewModel.cs:169-173 | disabled, the status is "Service disabled" whatever the detection and mute flags and the name |
| ViewModels.UndetectedIgnoresMute | MuteMicService/ViewModels/MainViewModel.cs:175-179 | enabled with no microphone, the status is "No microphone detected" whatever the mute flag and the name |
| ViewModels.ServiceButtonText | MuteMicService/ViewModels/MainViewModel.cs:59 | "Disable Service" iff enabled, "Enable Service" iff not |
| ViewModels.MainViewModel.constructor | MuteMicService/ViewModels/MainViewModel.cs:82-113 | the service is created stopped and configured to 500/200/3, the toggle is off, and the first reading sets the flags and status as InitializeMicrophone says |
| ViewModels.MainViewModel.InitializeMicrophone | MuteMicService/ViewModels/MainViewModel.cs:115-139 | detected: name, mute flag and ("Microphone detected", name, Success); not detected: the placeholder name, unmuted and ("No microphone detected", "Waiting for microphone...", Warning); a throwing name read gives ("Error initializing", msg, Error) and keeps name and mute flag |
| ViewModels.MainViewModel.UpdateStatus | MuteMicService/ViewModels/MainViewModel.cs:233-238 | sets exactly StatusText, DetailText and StatusState to its arguments and nothing else |
| ViewModels.MainViewModel.UpdateStatusBasedOnCurrentState | MuteMicService/ViewModels/MainViewModel.cs:167-189 | the display becomes CurrentStatus of the current flags and name |
| ViewModels.MainViewModel.SetServiceEnabled | MuteMicService/ViewModels/MainViewModel.cs:42-57 | setting the current value changes nothing and raises nothing; a real change starts or stops the service, which raises exactly one running/stopped status, and the display is re-derived |
| ViewModels.MainViewModel.ToggleService | MuteMicService/ViewModels/MainViewModel.cs:96 | the toggle flips ServiceEnabled, the service follows it with one status, and the display is re-derived |
| ViewModels.MainViewModel.OnServiceStatusChanged | MuteMicService/ViewModels/MainViewModel.cs:191-199 | after the handler the display is the derived one: the service's message survives in DetailText only if it equals the derived detail |
| ViewModels.MainViewModel.OnDetectionChanged | MuteMicService/ViewModels/MainViewModel.cs:201-217 | the detection flag takes the payload; false sets the placeholder name and unmuted; true takes the current name; the display is re-derived; a throwing name read leaves the handler with its message and changes nothing else |
| ViewModels.MainViewModel.OnMuteStateChanged | MuteMicService/ViewModels/MainViewModel.cs:219-226 | the mute flag takes the payload and the display is re-derived |
| ViewModels.MainViewModel.RefreshMicrophoneStatus | MuteMicService/ViewModels/MainViewModel.cs:141-165 | the flags follow the refreshed device (placeholder name and unmuted when absent) and the display is re-derived; a throwing name read gives ("Error refreshing status", msg, Error) |

## Left out

- Threading is not modelled: `Task.Run`, the `lock`, `Task.Wait` and handlers run on other threads (`MicMuteService.cs:43-63`). `Start` and `Stop` are atomic transitions, and the loop is run by the caller between them (`RunSession`).
- The possible deadlock is not modelled. `Stop` blocks the UI thread on the loop while the loop's handlers `Dispatcher.Invoke` onto it.
- Durations are not modelled. A delay is logged as `Wait(kind, ms)`, and the only thing it decides is whether it observes cancellation.
- The `IsCancellationRequested` check at the top of the loop (`MicMuteService.cs:71`) is folded into the next delay of the cycle observing cancellation. Both end the loop with the same notifications.
- Services.RunSession, Services.MicMuteService.Stop and ViewModels.MainViewModel.SetServiceEnabled use the intended `Stop`, which always stops a running service. As written, when the error backoff (`MicMuteService.cs:127`) observes the cancellation, the task ends Canceled and `_monitoringTask.Wait()` (line 62) throws before `IsRunning = false` (line 63). No "Service is stopped" is raised, `IsRunning` stays true, and a later `Start` returns early (line 45) with no loop running. `SetServiceEnabled` has already set `_serviceEnabled` to false (`MainViewModel.cs:47`), so `MainViewModel.Valid` does not hold after such a call in the code. This is the finding below, modelled by `StopAsWritten` and `RunSessionAsWritten`.
- Services.MicMuteService.MonitorMicrophone: the settings are held fixed while the loop runs, so a `ConfigureSettings` call from another thread during the loop is not modelled.
- Exceptions are modelled only where a cycle can raise one: a subscriber's handler of a detection or mute-state notification or of its status, including the `FriendlyName` read (`Fault`). An exception in the handler of the error status itself, or of the running/stopped status, is not modelled.
- Exception messages are an abstract string.
- `MicrophoneManager` is not part of this model beyond its guards. It is an oracle: per-cycle answers in `CycleInput`, and a `Device` for the view model. Only reading `FriendlyName` can throw, since its other members catch. `GetAvailableMicrophones`, `UnmuteMicrophone` and `Dispose` are not used by the modelled code.
- The window, its value converters and the status display's brushes are not modelled.
- These view-model parts are not modelled:
  - `DispatcherTimer` and `RefreshCommand`, which both call `RefreshMicrophoneStatus`;
  - `RelayCommand`;
  - property-change notifications, including the one for `ServiceButtonText`;
  - `Dispose`.
- `SetServiceEnabled` delivers the running/stopped status that `Start` or `Stop` raises to `OnServiceStatusChanged` itself. The loop's notifications do not reach the view model by themselves: a caller delivers each one by calling the matching handler.

## Findings

| source | as written | input that shows it | evidently intended | confidence | as-written member | corrected member |
|---|---|---|---|---|---|---|
| MuteMicService/Services/MicMuteService.cs:54-65 | `Stop` cancels the token, waits on the monitoring task, then clears `IsRunning`; the 2000 ms backoff of line 127 sits in the catch block, so a cancellation it observes leaves the loop as an exception, the task ends Canceled, and the wait throws before `IsRunning` is cleared | one cycle with a new microphone, the detection handler throwing (fault at notification 0) and the backoff observing cancellation (delay 1), then `Stop` (`CycleProps.BackoffCancellationExample`; for any run, `CycleProps.BackoffCancellationCancelsTask`) | `Stop` leaves the service stopped and raises one "Service is stopped", whichever delay observed the cancellation | medium; not executed | Services.RunSessionAsWritten | Services.RunSession |
