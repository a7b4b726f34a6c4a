# Calcium-imaging event analysis, modelled in Dafny

This project models the computational core of a calcium-imaging analysis
application. The application loads a fluorescence recording: a time column
in milliseconds and one column per region of interest (ROI). It also loads a
table of stimuli, each with a name and start and end times in minutes.

It smooths each trace and labels every sample with an adaptive, hysteretic
detector: 1 for a rise, -1 for a fall, 0 for neither. It then measures the
response to each stimulus inside the window that runs up to the next
stimulus.

The model covers these parts:

- **`Detection`** is the detector as pure functions:
  - the rolling scan (classification with hysteresis, the influence-weighted buffer, the median/MAD baseline and spread, the run merge);
  - the `while cambios` refinement as a fixpoint with a termination measure;
  - the in-place gap-filling sweep;
  - the merge of the rise-oriented and fall-oriented passes in `robust_event_detection`.
- **`DetectionProps`** proves properties of those functions:
  - the buffer and baseline stay inside the range of the samples;
  - a constant trace is never labelled;
  - the run merge cannot fire when `run_min <= 5`;
  - the refinement never reads a window for `i < 5`, and leaves no firing index unpropagated;
  - the sequential gap-filling sweep obeys its rule with the already updated left window.
- **`Processor`** is the `SignalProcessor` class and the detector's loops, written imperatively over arrays. Each loop is proved equal to the functions of `Detection`. `Bounds` specifies `detect_event_bounds`.
- **`Metrics`** covers `calculate_stimulus_metrics`:
  - how the window is resolved from the mask, with its fallbacks;
  - the straight-line baseline, the trapezoidal areas, the maximum and the duration.
- **`Filters`** covers the small helpers:
  - the sampling-rate estimate;
  - interpolation over excluded samples;
  - the argument guard of the Butterworth filter;
  - the per-bin keep rule of the FFT filter.
- **`DataProcessor`** covers the loader: `CalciumDataLoader` with column naming and unit conversion, the lookups, the per-stimulus masks and the upload name check. `Analysis` models the results-table loop that pairs each stimulus with the next stimulus's start.
- **`Seqs`** and **`Stats`** model the Python and numpy primitives the code relies on:
  - slicing with negative bounds and `np.where`;
  - median by sorting, with a proof that the sorted arrangement is unique;
  - `np.max`.

Samples and times are `real`. Labels are `int` in {-1, 0, 1}. Exceptions
become `Option`/`Result` values. Numeric library transforms are parameters:
the Savitzky–Golay filter, Butterworth design with `filtfilt`, and the real
FFT and its inverse.

## Model

| member | source | states |
|---|---|---|
| Seqs.SliceBound | utils/signal_processing.py:151 | A Python slice bound: a negative bound counts from the end and is clamped to 0, a non-negative one is clamped to the length. |
| Seqs.PySlice | utils/signal_processing.py:151 | `s[a:b]` with Python's reading of the bounds; it equals the Dafny slice when `0 <= a <= b <= len`. |
| Seqs.Where | utils/signal_processing.py:354 | `np.where(c)[0]`: strictly increasing indices, each true, and every true index among them. |
| Seqs.FirstTrue | utils/signal_processing.py:366-367 | `np.where(c)[0][0]`: the least true index, and `None` exactly when no entry is true. |
| Seqs.LastTrue | utils/signal_processing.py:380-381 | `np.where(c)[0][-1]`: the greatest true index, and `None` exactly when no entry is true. |
| Seqs.Count | utils/signal_processing.py:151 | `np.sum(s == v)`: at most the length, and zero exactly when `v` does not occur. |
| Stats.SortSpec | utils/signal_processing.py:132 | The sort used to define the median is an ordered permutation of its input. |
| Stats.SortedUnique | utils/signal_processing.py:132 | Two ordered permutations of the same samples are equal, so the median is well defined. |
| Stats.MedianBySort | utils/signal_processing.py:157 | The median is the middle element, or the mean of the two middle elements, of the sorted samples. |
| Stats.MedianAtLeast | utils/signal_processing.py:157 | The median is at least any lower bound of the samples. |
| Stats.MedianAtMost | utils/signal_processing.py:157 | The median is at most any upper bound of the samples. |
| Stats.MedianOfConstant | utils/signal_processing.py:157 | The median of a constant sequence is that constant. |
| Stats.AbsDev | utils/signal_processing.py:158 | `np.abs(s - c)`: non-negative, and each entry is `s[j] - c` or `c - s[j]`. |
| Stats.MaxOf | utils/signal_processing.py:421 | `np.max`: an upper bound of the samples that is one of them. |
| Detection.Classify | utils/signal_processing.py:139-147 | Label 1 iff `d > 0` and (`d > k_up*sd` or the previous label is 1); -1 iff `d < 0` and (`d < -k_down*sd` or the previous label is -1); otherwise 0. |
| Detection.InitialState | utils/signal_processing.py:128-133 | Before index `w` the labels are all 0 and the buffer is `x[:w]`. |
| Detection.Fill | utils/signal_processing.py:152-154 | Slice assignment `m[lo:hi] = v`: those indices set, every other index kept. |
| Detection.MergeRun | utils/signal_processing.py:150-154 | The run merge only rewrites indices `i-run_min .. i-1`, only with the label of `i`, and never changes `i` itself. |
| Detection.Step | utils/signal_processing.py:136-159 | One scan step keeps the state well formed: labels of length N and a buffer of exactly `w` entries. |
| Detection.ScanTo | utils/signal_processing.py:136-159 | The state after the steps `w .. i-1` is well formed. |
| Detection.ScanMask | utils/signal_processing.py:136-159 | The scan's labels have one entry per sample, each in {-1, 0, 1}. |
| Detection.BaselinesTo | utils/signal_processing.py:203-231 | One recorded baseline per index processed. |
| Detection.SpreadsTo | utils/signal_processing.py:204-231 | One recorded spread per index processed. |
| Detection.RefinePass | utils/signal_processing.py:166-174 | In one pass index `j` takes the label of `j+1` exactly when `j+1` (at most `N-2`) fires, and otherwise keeps its own; labels only move one index left. |
| Detection.UnsettledFrom | utils/signal_processing.py:164-174 | Indices from the result up to `k` are settled, and the index below it is not. |
| Detection.Frontier | utils/signal_processing.py:164-174 | The termination measure: every index from it up to `N-3` is settled, and the one before it is not. |
| Detection.PassIdle | utils/signal_processing.py:164-174 | With every index settled, a pass changes nothing, so `cambios` stays false. |
| Detection.PassSettles | utils/signal_processing.py:166-174 | A pass keeps settled indices settled and settles the index just below the frontier. |
| Detection.PassAdvances | utils/signal_processing.py:164-174 | A pass that changes the labels strictly lowers the frontier, so the `while cambios` loop terminates. |
| Detection.RefineFix | utils/signal_processing.py:162-174 | The refinement's result is a fixpoint of a pass, and it only writes ±1 into indices `0 .. N-3`. |
| Detection.FillFromChanges | utils/signal_processing.py:177-185 | The sweep from `i` changes only 0 labels, only to ±1, and only at indices from `i` up to `N-post-2`. |
| Detection.GapFill | utils/signal_processing.py:177-185 | The gap-filling pass changes only 0 labels, only into ±1, and only at indices in `pre .. N-post-2`; every other index is unchanged. |
| Detection.DetectMask | utils/signal_processing.py:122-187 | `_detect_events_with_params` returns one label in {-1, 0, 1} per sample. |
| Detection.MergeMasks | utils/signal_processing.py:108-110 | The combined label is -1 exactly where the second pass says -1, and 1 exactly where the first pass says 1 and the second does not say -1. |
| Detection.RobustDetection | utils/signal_processing.py:91-120 | Three arrays of length N, labels in {-1, 0, 1}, and all three zero when `N < 2w`. |
| DetectionProps.PushedWithin | utils/signal_processing.py:141-147 | The value pushed onto the buffer lies in any range that holds the sample and the previous buffer entry, when `0 <= influence <= 1`. |
| DetectionProps.EstimatesWithin | utils/signal_processing.py:157-159 | The median of a buffer inside a range is inside it, and the MAD is non-negative. |
| DetectionProps.StepBounded | utils/signal_processing.py:136-159 | One step keeps the buffer and the baseline inside the sample range and the spread non-negative. |
| DetectionProps.InitialBounded | utils/signal_processing.py:129-133 | The initial buffer and baseline lie inside the sample range, and the spread is non-negative. |
| DetectionProps.ScanBounded | utils/signal_processing.py:129-159 | At every index of the scan, the buffer and baseline stay inside the range of the samples. |
| DetectionProps.ConstantEstimates | utils/signal_processing.py:157-158 | A buffer of a constant has that constant as its median and a MAD of 0. |
| DetectionProps.StepQuiet | utils/signal_processing.py:136-159 | On a constant trace a step labels 0 and keeps the buffer constant. |
| DetectionProps.InitialQuiet | utils/signal_processing.py:128-133 | On a constant trace the initial state has no labels, a constant buffer and a zero spread. |
| DetectionProps.ScanQuiet | utils/signal_processing.py:136-159 | On a constant trace the scan labels nothing. |
| DetectionProps.RefineZeros | utils/signal_processing.py:162-174 | All-zero labels are not changed by the refinement. |
| DetectionProps.FillZeros | utils/signal_processing.py:177-185 | All-zero labels are not changed by gap filling. |
| DetectionProps.DetectQuiet | utils/signal_processing.py:122-187 | A constant trace is labelled 0 everywhere by the detector. |
| DetectionProps.RobustQuiet | utils/signal_processing.py:91-120 | A constant trace is labelled 0 everywhere by `robust_event_detection`, whatever its length. |
| DetectionProps.MergeRunIdle | utils/signal_processing.py:150-154 | With `run_min <= 5` the run merge never changes a label: it counts only `run_min-1` labels against a threshold of `0.8*run_min`. |
| DetectionProps.EarlyWindowEmpty | utils/signal_processing.py:167 | On a trace of at least 5 samples, the slice `x[i-5:i]` is empty for `i < 5`. |
| DetectionProps.EarlyNeverFires | utils/signal_processing.py:167-171 | For `i < 5` the refinement condition is false. |
| DetectionProps.PassKeepsEarly | utils/signal_processing.py:166-174 | A pass never changes indices 0..3. |
| DetectionProps.RefineKeepsEarly | utils/signal_processing.py:162-174 | The whole refinement never changes indices 0..3. |
| DetectionProps.RefinedIsClosed | utils/signal_processing.py:162-174 | After the refinement every index that fires has passed its label to the index before it. |
| DetectionProps.FillHere | utils/signal_processing.py:177-185 | The sweep sets index `i` by the rule applied to the original labels around it. |
| DetectionProps.FillFromRule | utils/signal_processing.py:177-185 | At every visited index the sweep follows the rule, with the already updated labels on the left and the original labels on the right. |
| DetectionProps.GapFillRule | utils/signal_processing.py:177-185 | Every index in `pre .. N-post-2` follows the rule, with the already filled labels on its left and the original labels on its right (that nothing outside the range changes is the contract of Detection.GapFill). |
| DetectionProps.FillRuleMeaning | utils/signal_processing.py:178-185 | A 0 becomes 1 iff a 1 lies in both windows; otherwise it becomes -1 iff a -1 lies in both; a non-zero label never changes. |
| Bounds.Flags | utils/signal_processing.py:289-294 | `event_mask > 0` and `event_mask < 0`, entry by entry. |
| Bounds.InEventMeaning | utils/signal_processing.py:302-317 | The in-event flag is set at the end iff the last sample is flagged and some earlier sample is not. |
| Bounds.EdgeBalance | utils/signal_processing.py:302-317 | Starts minus in-loop ends equals the flag of the last sample minus the flag of the first. |
| Bounds.StartsAndEndsPair | utils/signal_processing.py:302-323 | When the first sample is not flagged, the reported starts and ends are equally many. |
| Bounds.UnbrokenEventUnreported | utils/signal_processing.py:302-323 | A trace flagged throughout reports no start and no end. |
| Processor.SavgolWindow | utils/signal_processing.py:44-45 | The window passed to the filter is odd: the given one, or one more when it is even. |
| Processor.RefineSweep | utils/signal_processing.py:165-174 | The in-place sweep equals one refinement pass, and `cambios` is true iff it changed a label. |
| Processor.SweepKeeps | utils/signal_processing.py:165-172 | One step of the sweep keeps its invariant: labels before `i` are the pass's, later ones untouched, and `cambios` is set iff some label differs. |
| Processor.RefineStep | utils/signal_processing.py:166-172 | When index `i` fires, its label is copied onto `i-1`; the flag reports whether that label changed. |
| Processor.RefineEvents | utils/signal_processing.py:162-174 | The `while cambios` loop terminates and leaves the refinement fixpoint in the array. |
| Processor.FillAt | utils/signal_processing.py:177-184 | Index `i` is rewritten by the gap-filling rule and nothing else changes. |
| Processor.FillStep | utils/signal_processing.py:176-184 | The sweep from `i` equals the sweep from `i + 1` over the labels with `i` rewritten. |
| Processor.FillDone | utils/signal_processing.py:176 | Past `N - post - 2` the sweep leaves the labels alone. |
| Processor.FillGaps | utils/signal_processing.py:177-185 | The in-place gap-filling loop equals the sequential gap-fill function. |
| Processor.MergeRunInPlace | utils/signal_processing.py:150-154 | The in-place run merge equals the run-merge function. |
| Processor.LabelSample | utils/signal_processing.py:137-147 | Writes the hysteresis label of sample `i` and returns the buffer with the value pushed for that label. |
| Processor.ScanStep | utils/signal_processing.py:136-159 | One loop iteration (label, merge, trim, new baseline and spread) equals one scan step. |
| Processor.ScanStart | utils/signal_processing.py:128-133 | The initial array, buffer, baseline (`median`) and spread (`MAD/0.6745`) equal the initial scan state. |
| Processor.Scan | utils/signal_processing.py:127-159 | The scan loop of `_detect_events_with_params` produces the scan's labels. |
| Processor.ScanRecording | utils/signal_processing.py:194-231 | The scan loop of `_detect_events_with_baseline` produces the same labels and the recorded baseline and spread arrays. |
| Processor.Combine | utils/signal_processing.py:108-110 | The two masked assignments over a zero array equal the merge of the two passes. |
| Processor.SignalProcessor.constructor | utils/signal_processing.py:27-30 | Stores the trace and the time axis; nothing is smoothed or labelled yet. |
| Processor.SignalProcessor.ApplySavgolFilter | utils/signal_processing.py:43-53 | Stores and returns the filter output for the odd window; the labels are untouched. |
| Processor.SignalProcessor.RobustEventDetection | utils/signal_processing.py:85-120 | Returns the robust detection of the chosen trace, and stores the labels only when `N >= 2w`. |
| Processor.SignalProcessor.DetectEventsWithParams | utils/signal_processing.py:122-187 | Returns the detector's labels. |
| Processor.SignalProcessor.DetectEventsWithBaseline | utils/signal_processing.py:189-258 | Returns the same labels as `_detect_events_with_params`, plus the baseline and spread trajectories, and stores the labels. |
| Processor.TrackEdge | utils/signal_processing.py:302-318 | One index of the boundary scan extends the recorded starts, ends and inside-flag exactly as the scan specification does. |
| Processor.CloseEvent | utils/signal_processing.py:320-323 | An event still open at the end is closed at the last time stamp, completing the end list. |
| Processor.SignalProcessor.DetectEventBounds | utils/signal_processing.py:272-330 | Fails iff no labels are given or stored; otherwise returns the start and end times of the rise and fall runs. |
| Metrics.StartIndex | utils/signal_processing.py:361-373 | The first in-window index labelled 1, or else the first index with time at or after the stimulus start. |
| Metrics.EndIndex | utils/signal_processing.py:375-387 | The last index labelled -1 after the start time and within the window end, or else the last index within the window end. |
| Metrics.Resolve | utils/signal_processing.py:351-391 | A resolved segment has `start < end < len(time)`. |
| Metrics.ResolveMeaning | utils/signal_processing.py:351-391 | A segment is resolved only for an occupied window, from exactly those start and end indices; an empty window gives none. |
| Metrics.OccupiedResolves | utils/signal_processing.py:370-387 | When some time lies in the window, the start and end fallbacks always find an index. |
| Metrics.Linspace | utils/signal_processing.py:402 | `np.linspace(a, b, n)`: first `a`, last `b`, constant step. |
| Metrics.Minus | utils/signal_processing.py:405 | Element-wise difference. |
| Metrics.TrapezoidOfZero | utils/signal_processing.py:408 | The trapezoidal area of a zero curve is 0. |
| Metrics.TrapezoidOfConstant | utils/signal_processing.py:408 | The trapezoidal area of a constant `c` is `c` times the time span. |
| Metrics.Trunc | utils/signal_processing.py:412 | `int()` of a real truncates toward zero. |
| Metrics.Measure | utils/signal_processing.py:394-435 | The corrected and baseline curves have the segment's length, and the corrected times are the segment's times. |
| Metrics.MeasureShape | utils/signal_processing.py:402-424 | Corrected plus baseline is the segment; the corrected curve is 0 at both ends; the maximum is attained and non-negative; the duration is end time minus start time. |
| Metrics.NoneCases | utils/signal_processing.py:351-398 | The extractor returns `None` exactly when the window is empty, or the start is not before the end, or the end is beyond the signal. |
| Metrics.ResultOfResolve | utils/signal_processing.py:351-435 | A result exists only for a resolved segment ending inside the signal, and it measures exactly that segment `start .. end` inclusive (the start and end indices of Metrics.ResolveMeaning). |
| Metrics.CorrectedEnds | utils/signal_processing.py:402-421 | A result's corrected curve is 0 at both ends, so `max_value >= 0`. |
| Metrics.PositiveDuration | utils/signal_processing.py:424 | On increasing times a result's duration is positive. |
| Metrics.LinspaceOfLine | utils/signal_processing.py:402 | A segment linear in the index is its own straight-line baseline. |
| Metrics.SliceOfZeroArea | utils/signal_processing.py:413-416 | Any prefix slice of a zero curve has area 0. |
| Metrics.LinearSegmentIsFlat | utils/signal_processing.py:402-421 | A segment linear in the index gives a zero corrected curve, zero areas and a zero maximum. |
| Metrics.ShortSegmentArea | utils/signal_processing.py:411-418 | With no more samples than `int(1/(t[1]-t[0]))`, `area_1min` equals `area_total`. |
| Metrics.StimulusEndUnused | utils/signal_processing.py:333-334 | The stimulus's end time does not affect the result. |
| Filters.Diff | utils/signal_processing.py:449 | `np.diff`: consecutive differences. |
| Filters.EstimateSamplingRate | utils/signal_processing.py:443-453 | Never negative; positive iff there are at least two times and the median step is positive; then it is `1/(60*median step)`. |
| Filters.UniformRate | utils/signal_processing.py:443-453 | On a uniform grid of step `h` minutes the rate is `1/(60h)`. |
| Filters.NonIncreasingRate | utils/signal_processing.py:443-453 | Times that never increase give the fail-soft 0. |
| Filters.InterpAtKnot | utils/signal_processing.py:477 | `np.interp` at a knot returns the knot's value. |
| Filters.InterpBounded | utils/signal_processing.py:477 | `np.interp` stays within any bounds of the knot values. |
| Filters.InterpOfLine | utils/signal_processing.py:477 | `np.interp` through points of a line reproduces the line between the first and last knot. |
| Filters.InterpolateMasked | utils/signal_processing.py:456-478 | Kept samples are unchanged; with fewer than two kept samples the trace is returned as is; otherwise each excluded sample is interpolated through the kept ones. |
| Filters.FilledWithinKept | utils/signal_processing.py:456-478 | A filled sample lies within the range of the kept samples. |
| Filters.LineRestored | utils/signal_processing.py:456-478 | A trace linear in the index comes back unchanged between the first and last kept sample. |
| Filters.ButterCutoff | utils/signal_processing.py:496-513 | The guard accepts only a type other than `none`, a positive rate, and cutoffs normalised into (0, 1), with a band strictly ordered. |
| Filters.ButterRejects | utils/signal_processing.py:495-512 | The guard refuses type `none`, a non-positive rate, a missing or out-of-range scalar cutoff, and a cutoff list that is not two present values `0 < lo < hi < nyquist`; the filter then returns the signal unchanged. |
| Filters.ButterAcceptsBand | utils/signal_processing.py:503-507 | Any band `0 < lo < hi < nyquist` is accepted, as `[lo/nyquist, hi/nyquist]`. |
| Filters.ButterAcceptsInRange | utils/signal_processing.py:508-513 | Any single cutoff strictly between 0 and the Nyquist frequency is accepted and divided by the Nyquist frequency. |
| Filters.ApplyButterFilter | utils/signal_processing.py:496-516 | The signal comes back unchanged when the guard refuses; otherwise it is filtered with the normalised cutoff. |
| Filters.RfftFreqs | utils/signal_processing.py:563 | `rfftfreq`: `n//2 + 1` bins, from 0, strictly increasing, up to the Nyquist frequency. |
| Filters.KeepMask | utils/signal_processing.py:567-577 | Fails iff the cutoff's shape does not fit the type; otherwise one flag per bin, all true for an unnamed type. |
| Filters.BandsComplementary | utils/signal_processing.py:572-577 | Band-pass and band-stop with the same band keep complementary bins. |
| Filters.OneSidedCover | utils/signal_processing.py:568-571 | Low-pass and high-pass with the same cutoff together keep every bin, and both keep a bin iff it is at the cutoff. |
| Filters.OneSidedContiguous | utils/signal_processing.py:563-571 | Low-pass keeps a prefix of the FFT bins and high-pass a suffix. |
| Filters.Suppress | utils/signal_processing.py:579 | Rejected bins become 0 and kept bins are unchanged. |
| Filters.SuppressIdempotent | utils/signal_processing.py:579 | Zeroing the rejected bins twice is zeroing them once. |
| Filters.ApplyFftFilter | utils/signal_processing.py:546-580 | Unchanged for a non-positive rate or type `none`; an error exactly for an empty trace or a misfitting cutoff; otherwise the inverse transform of the masked spectrum. |
| DataProcessor.NatToString | utils/data_processor.py:62 | The decimal rendering of a column number is non-empty and made of digits. |
| DataProcessor.ParseNatToString | utils/data_processor.py:62 | Reading back a rendered number gives the number. |
| DataProcessor.NatToStringInjective | utils/data_processor.py:62 | Distinct numbers render differently. |
| DataProcessor.ColumnNames | utils/data_processor.py:62 | `n` names: `Time`, then `ROI_1 .. ROI_{n-1}`. |
| DataProcessor.ColumnNamesDistinct | utils/data_processor.py:62 | No two column names are equal. |
| DataProcessor.RoiColumns | utils/data_processor.py:69 | The filter keeps exactly the names starting with `ROI_`. |
| DataProcessor.RoiColumnsOfNames | utils/data_processor.py:62-69 | After loading, `roi_columns` is every column but `Time`, in order. |
| DataProcessor.ToMinutes | utils/data_processor.py:65 | Each time is the raw value divided by 60000. |
| DataProcessor.Upper | utils/data_processor.py:99 | Upper-casing is letter by letter and keeps the length. |
| DataProcessor.UpperIdempotent | utils/data_processor.py:99 | Upper-casing twice is upper-casing once. |
| DataProcessor.UpperNames | utils/data_processor.py:99 | The stimulus table with only the names upper-cased. |
| DataProcessor.IndexOf | utils/data_processor.py:130-133 | The first position of a name, and `None` exactly when it is absent. |
| DataProcessor.FirstRow | utils/data_processor.py:148-154 | The first row with a given name, and `None` exactly when there is none. |
| DataProcessor.Lookup | utils/data_processor.py:148-157 | Fails, with the original name in the message, iff no row carries the upper-cased name; otherwise returns the first such row's `inicio`, `fin` and `duracion = fin - inicio`. |
| DataProcessor.LookupIgnoresCase | utils/data_processor.py:99-151 | On a loaded table the lookup succeeds iff some row's name equals the query up to case. |
| DataProcessor.TotalMeaning | utils/data_processor.py:170-183 | The product mask is 0 or 1, and 0 exactly at rows inside at least one stimulus interval. |
| DataProcessor.MaskOfLastRow | utils/data_processor.py:174-182 | A name is a key iff some row carries it, and its mask is the one of the last such row. |
| DataProcessor.MasksAreBinary | utils/data_processor.py:170-185 | Every returned mask has one 0/1 entry per recording row. |
| DataProcessor.CalciumDataLoader.constructor | utils/data_processor.py:33-36 | Nothing is loaded. |
| DataProcessor.CalciumDataLoader.LoadTxtData | utils/data_processor.py:62-72 | The columns are renamed, the time is converted to minutes, and the time array and ROI names are kept consistently; the stimulus table is untouched. |
| DataProcessor.CalciumDataLoader.LoadCsvData | utils/data_processor.py:99-101 | The stored table has its names upper-cased; the recording is untouched. |
| DataProcessor.CalciumDataLoader.LoadAllData | utils/data_processor.py:106-115 | Both loads, with the results of each. |
| DataProcessor.CalciumDataLoader.GetRoiData | utils/data_processor.py:127-133 | Fails when nothing is loaded or the name is not a column; otherwise returns the column with that name. |
| DataProcessor.CalciumDataLoader.GetStimulusInfo | utils/data_processor.py:145-157 | Fails when no table is loaded; otherwise it is the case-insensitive lookup. |
| DataProcessor.CalciumDataLoader.CreateStimulusMasks | utils/data_processor.py:166-186 | Fails unless both tables are loaded; otherwise the loop builds the per-stimulus masks, with `TOTAL`, their product, written last. |
| DataProcessor.RoiByName | utils/data_processor.py:62-133 | After loading, `get_roi_data("ROI_i")` returns column `i`. |
| DataProcessor.ValidateUploadedFiles | utils/data_processor.py:223-229 | Valid iff each given name has its extension; the txt message takes precedence over the csv message. |
| Analysis.NextStart | app.py:342-345 | The next row's start, and `None` exactly for the last stimulus. |
| Analysis.RowFor | app.py:349-383 | A row names its ROI and stimulus, and has times exactly when the extractor returns a result. |
| Analysis.StimulusResults | app.py:335-396 | One row per stimulus, in table order. |
| Analysis.RowDuration | app.py:373-383 | On increasing times a measured row has a positive duration, and an unmeasured row has zeros and no times. |

## Left out

- Streamlit widgets, session state, plotting, file reading (`pd.read_csv`, `os.path.exists`), temporary files and process launch. Loaded tables enter as parsed columns and rows.
- Numeric library transforms are parameters without properties: the Savitzky–Golay filter, Butterworth design with `filtfilt`, and the real FFT and its inverse. Also left out: `compute_fft_spectrum`, `calculate_derivative` (`np.gradient`) and `get_data_summary`, which are float means and transforms with no logic of their own.
- IEEE-754 behaviour (NaN, infinities, rounding) is not modelled. Samples are reals, so `nanmedian` is the median and `isfinite` is always true in `interpolate_masked_signal`.
- Python exceptions become `Option`/`Result` values. The blanket `except` clauses of `calculate_stimulus_metrics` are its `None` results.
- Detector parameters are naturals with `w >= 1`. Negative `run_min` or window sizes are not modelled.
- Metrics.CalculateStimulusMetrics: requires the mask and the time axis to have the same length, since numpy broadcasting errors are not modelled. Its properties are stated as lemmas, not as its own `ensures`.
- Detection.BaselinesTo and Detection.SpreadsTo: only their lengths are stated. The per-index values are given by the functions themselves and tied to the recording loop by `Processor.ScanRecording`.
- DataProcessor.Upper: only ASCII letters are upper-cased. Python's Unicode case mapping is not modelled.
- DataProcessor.CalciumDataLoader.LoadTxtData: requires at least one parsed column of equal-length columns, which pandas guarantees. The partial state left by a failing rename is not modelled.
- Filters.InterpolateMasked: requires the keep mask to have one entry per sample; the numpy shape error of a mismatched mask is not modelled.
- Filters.KeepMask: a two-element cutoff with a one-sided filter is always an error here. With one or two bins numpy would broadcast it instead.
- Filters.ApplyFftFilter: assumes the FFT parameter returns `n//2 + 1` bins, as `np.fft.rfft` does.
- Filters.ButterCutoff: a filter type the design function rejects raises there, which is not modelled.
- Processor.SignalProcessor.DetectEventBounds: requires the labels to be no longer than the time axis; the `IndexError` of a longer mask is not modelled.
- Analysis.StimulusResults: the stimulus name is the first column. A separate `Stimuli` column is not distinguished, and the outer `except` is not modelled because the extractor already returns `None`.
