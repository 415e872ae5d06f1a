# Reconstructor filter, modelled in Dafny

The Reconstructor is a tablet-pipeline filter from the VoiDPlugins collection.
Tablet hardware smooths raw pen positions with an exponential moving average
(EMA), where smoothed = w * true + (1 - w) * previous smoothed. The filter
inverts that step for every tablet report. It computes
`(current - last) / w + last`, where `last` is the previous raw (smoothed)
position it saw, and writes the result back into the report.

Two things turn reconstruction off:

- an out-of-range report, which drops the baseline;
- a gap longer than the reset delay since the stopwatch was last restarted.

Exactly one report is emitted per report consumed.

Files:

- `wrappers.dfy`: `Option`, the nullable baseline.
- `vectors.dfy`: `Vec2`, positions as pairs of reals, with per-axis operations.
- `reverse_ema.dfy` (module `EmaKernel`): the forward EMA step, the
  reconstruction kernel `ReverseEma`, and the algebra relating the two.
- `reconstructor.dfy` (module `ReconstructorFilter`): the pieces of the filter.
  - The `DeviceReport` class has a constant kind and a position that the
    filter overwrites in place.
  - The `Reconstructor` class has the fields `lastAvg`, `weight`, `delay` and
    `lastRestart`. Its methods are the property accessors and `Consume`.
  - `Step` is the pure specification of one `Consume` call. `Run` folds `Step`
    over a stream of reports.
  - The remaining lemmas state what the filter does over a whole stream.

Times and the reset delay are reals in milliseconds. The current clock reading
is a parameter `now` of `Consume`. The stopwatch is the field `lastRestart`:
restarting it returns `now - lastRestart` and sets `lastRestart := now`.

The Reset Delay tooltip (Reconstructor.cs:35) describes the delay as the time
without samples after which the EMA resets. The test at line 55,
`lastAvg.HasValue && stopwatch.Restart() <= delay`, short-circuits, however:
a tablet report that finds no baseline does not restart the stopwatch. The
model follows the code. `SecondReportAfterOutOfRange` spells out the
consequence: the second tablet report after an out-of-range report measures
its elapsed time from the last restart before the pen left, not from the
report just before it.

## Model

| member | source | states |
|---|---|---|
| EmaKernel.ReverseEmaUndoesSmoothing | src/Filter/Reconstructor/Reconstructor.cs:65-68 | applying the forward EMA step to the reconstructed position, with the same baseline and weight, gives back the current report position |
| EmaKernel.ReverseEmaAtFullWeight | src/Filter/Reconstructor/Reconstructor.cs:65-68 | at weight 1 the kernel returns the current position unchanged ("1 == No effect") |
| EmaKernel.ForwardEmaInjective | src/Filter/Reconstructor/Reconstructor.cs:65-68 | for a non-zero weight, two true positions that smooth to the same output are equal, so the inverse is well defined |
| EmaKernel.ReverseEmaInvertsForward | src/Filter/Reconstructor/Reconstructor.cs:65-68 | for a non-zero weight, smoothing a true position and then reconstructing it returns that true position |
| EmaKernel.ReverseEmaIsTheOnlyPreimage | src/Filter/Reconstructor/Reconstructor.cs:65-68 | a position smooths to the current report if and only if it equals the kernel's result |
| EmaKernel.ReverseEmaFixesBaseline | src/Filter/Reconstructor/Reconstructor.cs:65-68 | a report equal to the baseline is reconstructed as the baseline itself |
| ReconstructorFilter.Clamp | src/Filter/Reconstructor/Reconstructor.cs:28 | Math.Clamp's result lies in [lo, hi], and a value already in range is returned unchanged |
| ReconstructorFilter.ClampIsNearest | src/Filter/Reconstructor/Reconstructor.cs:28 | the clamped value is the point of [lo, hi] nearest to the input |
| ReconstructorFilter.Reconstructor.constructor | src/Filter/Reconstructor/Reconstructor.cs:13-17 | a new filter has no baseline, the C# field defaults for weight and delay, and a stopwatch started at creation |
| ReconstructorFilter.Reconstructor.EMAWeight | src/Filter/Reconstructor/Reconstructor.cs:26-30 | the weight read back always lies in [0, 1] |
| ReconstructorFilter.Reconstructor.SetEMAWeight | src/Filter/Reconstructor/Reconstructor.cs:26-30 | the stored weight is the assigned value clamped to [0, 1]: in-range values are stored unchanged, values below 0 become 0 and values above 1 become 1 |
| ReconstructorFilter.Reconstructor.SetResetDelay | src/Filter/Reconstructor/Reconstructor.cs:38-42 | reading ResetDelay after assigning it returns the assigned number of milliseconds |
| ReconstructorFilter.Reconstructor.RestartStopwatch | src/Filter/Reconstructor/Reconstructor.cs:55 | a restart returns the time since the previous restart and starts timing again from now |
| ReconstructorFilter.Reconstructor.Consume | src/Filter/Reconstructor/Reconstructor.cs:48-63 | the call emits the very report it was given, and changes nothing but the baseline, the stopwatch and that report's position. An out-of-range report clears the baseline and leaves the stopwatch and the report alone. A tablet report with no baseline passes through and does not restart the stopwatch. A tablet report with a baseline restarts the stopwatch and is reconstructed exactly when the elapsed time is at most the delay. Every tablet report leaves its raw position as the new baseline. Any other report changes nothing. The new state and position are those of `Step` |
| ReconstructorFilter.Run | src/Filter/Reconstructor/Reconstructor.cs:48-63 | a stream of reports yields exactly one emitted position per report, and non-tablet reports are emitted unchanged |
| ReconstructorFilter.EmittedAt | src/Filter/Reconstructor/Reconstructor.cs:48-63 | the position emitted for the i-th report is one `Step` applied to the state that the first i reports left behind |
| ReconstructorFilter.BaselineIsLastRawPosition | src/Filter/Reconstructor/Reconstructor.cs:55-57 | after a stream, the baseline is the raw input position of the last tablet report, never its reconstructed output, unless an out-of-range report came later |
| ReconstructorFilter.OutOfRangeClearsBaseline | src/Filter/Reconstructor/Reconstructor.cs:50-51 | after an out-of-range report, the baseline stays absent until the next tablet report |
| ReconstructorFilter.PassThroughAfterOutOfRange | src/Filter/Reconstructor/Reconstructor.cs:50-56 | the first tablet report after an out-of-range report is emitted with its raw position, whatever came before and whatever non-tablet reports came in between |
| ReconstructorFilter.SecondReportAfterOutOfRange | src/Filter/Reconstructor/Reconstructor.cs:55-57 | the second tablet report after an out-of-range report is reconstructed against the first. Whether it is depends on the time since the stopwatch restart that preceded the out-of-range report |
| ReconstructorFilter.TimeoutPassesThrough | src/Filter/Reconstructor/Reconstructor.cs:55-57 | a tablet report arriving with a baseline but later than the delay is passed through, becomes the baseline and restarts the stopwatch |
| ReconstructorFilter.FirstReportOfScenario | src/Filter/Reconstructor/Reconstructor.cs:55-58 | weight 0.5, delay 50 ms, filter created at 0 ms: the first report (10, 10) at 0 ms is emitted unchanged and becomes the baseline |
| ReconstructorFilter.ScenarioWithinDelay | src/Filter/Reconstructor/Reconstructor.cs:55-58 | same filter: (12, 10) arriving 10 ms later is emitted as (14, 10) |
| ReconstructorFilter.ScenarioPastDelay | src/Filter/Reconstructor/Reconstructor.cs:55-58 | same filter: (12, 10) arriving 60 ms later is emitted as (12, 10) |

## Left out

- Positions and weights are reals, not IEEE `float`/`Vector2`, so rounding, NaN and infinities are not modelled.
- ReconstructorFilter.Reconstructor.Consume: requires a non-zero weight whenever the kernel would run, meaning a baseline exists and the elapsed time is within the delay. At weight 0, which the clamp allows, the source divides by zero and emits non-finite coordinates; reals cannot represent them.
- ReconstructorFilter.Run: requires a non-zero weight for the whole stream, not only for the reports that are reconstructed. The configuration is taken as fixed during a stream.
- ReconstructorFilter.Reconstructor.SetResetDelay: the value is stored in milliseconds as given. The conversion to `TimeSpan` and its rounding are not modelled, nor are the exceptions `TimeSpan.FromMilliseconds` throws: `OverflowException` for values beyond TimeSpan's range and `ArgumentException` for NaN.
- ReconstructorFilter.Clamp: the model takes `lo <= hi` as given, so `Math.Clamp`'s exception for `min > max` is not modelled. The source always calls it with 0 and 1.
- The internals of `HPETDeltaStopwatch` are not modelled. The clock reading is the parameter `now`, and monotonic time is not assumed.
- The plugin attributes, tooltips and `PipelinePosition` are not modelled.
- The `DefaultPropertyValue` defaults (0.5 and 50 ms) are not modelled; the plugin host applies them after construction.
- The multicast `Emit` event is not modelled. Emission is the return value of `Consume`.
- Report fields other than the position, such as pressure and buttons, are not modelled. The filter never touches them.
