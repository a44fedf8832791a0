# Monitoring dashboard mockup: the logic behind the charts, tour and dialogs

This Dafny project models the parts of the gauge-spark-ui dashboard mockup
that compute something exact. Everything else in the repository is markup
and styling. The modelled parts are:

- **Detail chart series** (`DetailSeries`, `detail_series.dfy`). The
  single-metric page builds a synthetic CPU series for a time range. It
  uses a point count and a sample spacing per range, and unknown range
  labels fall back to defaults. Next to each count the generator records an
  interval label that nothing reads. The model keeps it because it names the
  spacing a second time, which pins the spacing table. Samples sit at
  `now - (n - i) * spacing`.
  Each value is `47 + 8 sin(i/10) + noise`, clamped to [0, 100]. The samples
  at ⌊30%⌋, ⌊60%⌋ and ⌊85%⌋ of the series are replaced by spikes of
  `77 + 15 r`. From the series the page derives an anomaly list
  (`delta = value - baseline`, critical iff `delta > 40`), a current value
  with its `|| 45.2` fallback, and a normal/warning/critical status.
- **Overview trend series** (`TrendSeries`, `trend_series.dfy`). This is a
  separate preset with its own tables. It produces 12/18/24/28 points, has
  one spike of `base + 35` at sample 8 in the 1h view only, draws a
  reference line at `base - 10`, applies no clamp, and labels sample `i`
  as `${4+i}:${(5i)%60}`. CPU, memory and disk are generated from the
  same range selector.
- **Onboarding tour** (`Tour`, `tour.dfy`). It has a table of five steps,
  Next/Skip/finish transitions and the keyboard shortcuts. It also covers
  the "Done" caption, the progress dots, and the tooltip placement with
  clamping into the window.
- **Data-gathering progress** (`Progress`, `progress.dfy`). A per-second
  tick is saturated at 60, and the bar width is a percentage.
- **Settings dialog** (`Settings`, `settings.dfy`). It covers the
  local form state, the field edits, Reset, Save, Escape and closing, and
  the density-to-padding lookup.
- Shared helpers: `Common` (`common.dfy`) holds Option, the clamp and the
  two injected numeric types. `Text` (`text.dfy`) holds decimal rendering
  of naturals, the parser that undoes it, and a character search.

Two things are injected rather than computed:

- The noise source. `Math.random` becomes `rnd: nat -> Unit`, where
  `rnd(k)` is the value of the k-th call during one generation. `Unit` is
  the reals in [0, 1).
  - The detail generator calls it once per sample (the regular variation).
    At an anomaly index it calls it a second time (the spike). So sample
    `i` reads draw `DrawsBefore(n, i)`, and for a spike also the next one.
  - The trend generator calls it once per sample.
  - The CPU, memory and disk series take consecutive blocks of draws.
- `Math.sin` becomes `sin: real -> Wave`, where `Wave` is the reals in
  [-1, 1].

Values are Dafny `real`s and timestamps are integer milliseconds. The clock
reading `now` is a parameter.

## Model

| member | source | states |
|---|---|---|
| DetailSeries.PointCount | src/pages/MetricDetail.tsx:68-92 | The count is one of the six the view can produce, and any other label keeps 24. Which offered range gets which count follows from `IntervalMatchesSpacing` and `WindowMatchesRange` together. |
| DetailSeries.Spacing | src/pages/MetricDetail.tsx:125-134 | The spacing is a positive whole number of minutes. Unknown labels get the 15-minute default. |
| DetailSeries.WindowMatchesRange | src/pages/MetricDetail.tsx:68-134 | For each offered range, count × spacing equals the span the label names, read independently from the label text (e.g. "30d" gives 30 days). An unknown label covers six hours. |
| DetailSeries.IntervalLabel | src/pages/MetricDetail.tsx:69-90 | The interval label the switch records for each range; any other label keeps "1h". Every label ends in a unit that has a duration. |
| DetailSeries.IntervalMatchesSpacing | src/pages/MetricDetail.tsx:68-134 | For each offered range, the interval label recorded next to its count ("1m", "5m", "15m", "1h", "6h") names exactly that range's sample spacing. This fixes the spacing of every range; `WindowMatchesRange` then fixes its count. For any other label, the kept "1h" is four times the 15-minute fallback spacing. |
| DetailSeries.AnomalyIndexSet | src/pages/MetricDetail.tsx:106-108 | The flagged indices are the integer floors of 30%, 60% and 85% of the point count. `AnomalyIndicesSeparate` proves them distinct, ordered and inside the series for every count the view produces. |
| DetailSeries.DrawsBefore | src/pages/MetricDetail.tsx:102-111 | Each sample takes at least one noise draw, so sample `i` reads a draw at index ≥ `i`. |
| DetailSeries.Timestamp | src/pages/MetricDetail.tsx:98-99 | A sample's time is never after `now`. With a positive spacing it equals `now` only at index `n`, so every real sample lies strictly in the past. |
| DetailSeries.MakePoint | src/pages/MetricDetail.tsx:94-119 | A sample's value is in [0, 100] and its baseline is 47. It is flagged iff its index is an anomaly index. A spike is `77 + 15r`, which lies in [77, 92), so the clamp leaves it alone. A regular sample is `47 + 8 sin + 10r − 5`, which lies in [34, 60), also unclamped. |
| DetailSeries.SampleAt | src/pages/MetricDetail.tsx:97-119 | Sample `i` carries its timestamp. A spike is `77 + 15r` with `r` the second draw of that sample. A regular value is `47 + 8 sin(i/10) + 10r − 5` with `r` the first draw after all earlier samples' draws. |
| DetailSeries.SeriesOf | src/pages/MetricDetail.tsx:97-120 | The series has `n` samples, each value in [0, 100] with baseline 47, and it is flagged exactly at the anomaly indices. |
| DetailSeries.Series | src/pages/MetricDetail.tsx:66-123 | The series for a range has the range's point count. |
| DetailSeries.GenerateSeries | src/pages/MetricDetail.tsx:97-120 | The loop with its running draw counter produces exactly the reference series of `n` samples: sample `i` reads the draw after all earlier samples' draws. |
| DetailSeries.GenerateData | src/pages/MetricDetail.tsx:66-123 | The series for a range has the range's point count and equals the reference series for that count and spacing. |
| DetailSeries.TimestampsIncrease | src/pages/MetricDetail.tsx:97-99 | Timestamps go up by exactly one spacing per sample and are strictly increasing and strictly before `now`. The first is one whole window back and the last is one spacing back. |
| DetailSeries.TimestampDistance | src/pages/MetricDetail.tsx:98-99 | Samples `i < j` are `(j − i)` spacings apart. |
| DetailSeries.AnomalyIndicesSeparate | src/pages/MetricDetail.tsx:106-108 | For each of the six point counts, the three anomaly indices are distinct, increasing, and before the last index. |
| DetailSeries.ExactlyThreeAnomalies | src/pages/MetricDetail.tsx:106-108 | The flagged indices of any series are exactly the three anomaly indices, so exactly three samples are flagged. |
| DetailSeries.DayViewAnomalies | src/pages/MetricDetail.tsx:80-108 | The 24h view has 96 samples, flagged exactly at 28, 57 and 81. |
| DetailSeries.ToAnomaly | src/pages/MetricDetail.tsx:146-152 | The record keeps timestamp, value and baseline. `delta = value − baseline`, and severity is critical iff `delta > 40`. |
| DetailSeries.Anomalies | src/pages/MetricDetail.tsx:144-152 | The list has no more records than there are samples. What each sample contributes is stated by `SkipUnflagged` and `TakeFlagged`. |
| DetailSeries.AnomalyRecords | src/pages/MetricDetail.tsx:144-152 | Every record in the list is the record of some flagged sample. Its delta is value minus baseline, and it is critical iff that delta exceeds 40. |
| DetailSeries.NextFlagged | src/pages/MetricDetail.tsx:144-152 | Scanning from a position, the unflagged samples are skipped and the next flagged one contributes the first record. |
| DetailSeries.ThreeFlagged | src/pages/MetricDetail.tsx:144-152 | If the flagged samples are `x < y < z` with no others between or around them, the list is their three records in that order. |
| DetailSeries.SkipUnflagged | src/pages/MetricDetail.tsx:145 | The filter drops unflagged samples. |
| DetailSeries.TakeFlagged | src/pages/MetricDetail.tsx:145-152 | A flagged sample contributes its record at its position. |
| DetailSeries.AnomaliesOfThree | src/pages/MetricDetail.tsx:144-152 | If exactly `x < y < z` are flagged, the list is their three records in that order. |
| DetailSeries.SeriesAnomalyList | src/pages/MetricDetail.tsx:143-152 | A generated series' anomaly list is the records of the samples at ⌊30%⌋, ⌊60%⌋ and ⌊85%⌋, in time order. |
| DetailSeries.SpikeSeverity | src/pages/MetricDetail.tsx:110-151 | Every anomaly record has delta in [30, 45). It is critical exactly when its spike draw exceeds 2/3. |
| DetailSeries.SpikeOfSample | src/pages/MetricDetail.tsx:110-151 | The same fact for an anomalous sample of any series. |
| DetailSeries.SpikeRecord | src/pages/MetricDetail.tsx:111-151 | A spike `77 + 15r` has delta `30 + 15r`, and it is critical iff `r > 2/3`. |
| DetailSeries.CurrentValue | src/pages/MetricDetail.tsx:154 | The current value is never 0. It is the last value unless the series is empty or that value is 0, in which case it is 45.2. |
| DetailSeries.StatusOf | src/pages/MetricDetail.tsx:155 | The status is normal iff the value is below 60, warning iff it is in [60, 80), and critical iff it is at least 80. |
| DetailSeries.StatusMonotone | src/pages/MetricDetail.tsx:155 | The status never improves as the value grows. |
| DetailSeries.StatusAlwaysNormal | src/pages/MetricDetail.tsx:102-155 | The last sample is never flagged, so the current value is that sample's value, which lies in [34, 60). The page therefore always shows `normal`. |
| Common.Clamp | src/pages/MetricDetail.tsx:116 | `max(lo, min(x, hi))` is at least `lo`, and at most `hi` when the window is non-empty. It is `x` inside the window and the nearer bound outside it. |
| Common.ClampIdempotent | src/pages/MetricDetail.tsx:116 | Clamping twice is the same as clamping once, for any window, including an empty one such as the tour's horizontal window below 352 px. |
| TrendSeries.PointCount | src/components/MetricTrendsSection.tsx:14 | 1h, 6h, 24h and 7d give exactly 12, 18, 24 and 28 points (each iff), and every count exceeds the spike index 8. |
| TrendSeries.MakePoint | src/components/MetricTrendsSection.tsx:17-26 | The label is the sample's time label and the baseline is `base − 10`. The sample is flagged iff 1h and `i = 8`. A spike is exactly `base + 35`, 45 above its baseline. Otherwise the value is `base + sin·variation + 5r − 2.5`, within `|variation| + 2.5` of base. |
| TrendSeries.Generate | src/components/MetricTrendsSection.tsx:13-30 | The series has the range's count. Sample `i` is built from `sin(i/3)` and the i-th draw, because each loop iteration calls `Math.random` once. |
| TrendSeries.SampleShape | src/components/MetricTrendsSection.tsx:15-29 | Sample `i` has its own label and baseline `base − 10`. It is flagged iff it is the 1h spike. A spike is `base + 35`, and otherwise the value is within `|variation| + 2.5` of base. |
| TrendSeries.GenerateShape | src/components/MetricTrendsSection.tsx:13-30 | The same holds for every sample of a generated series. |
| TrendSeries.AnomalyCount | src/components/MetricTrendsSection.tsx:19 | The flagged index set is `{8}` for 1h and empty for every other range. |
| TrendSeries.WaveScale | src/components/MetricTrendsSection.tsx:18 | A sine value scales the variation by at most its magnitude. |
| TrendSeries.TimeLabel | src/components/MetricTrendsSection.tsx:22 | The label is at least three characters long. The hour is printed first, without a leading zero, and is followed by ':'. |
| TrendSeries.TimeLabelRoundTrip | src/components/MetricTrendsSection.tsx:22 | Parsing sample `i`'s label gives back hour `4 + i` and minute `(5i) mod 60`, and that minute is below 60. The parser accepts only unpadded numbers, so neither part of the label is zero-padded. |
| TrendSeries.TimeLabelsDistinct | src/components/MetricTrendsSection.tsx:22 | Two samples have the same time label iff they are the same sample. |
| TrendSeries.TrendsSection | src/components/MetricTrendsSection.tsx:35-37 | The CPU, memory and disk series all have the range's count. |
| TrendSeries.SectionAligned | src/components/MetricTrendsSection.tsx:35-37 | The three series agree on every sample's label and anomaly flag. |
| TrendSeries.GenerateFrom | src/components/MetricTrendsSection.tsx:13-30 | One `generateData` call started at noise position `d` takes exactly one value per sample: sample `i` reads draw `d + i`, and the call hands back position `d + count`. |
| TrendSeries.RenderSection | src/components/MetricTrendsSection.tsx:35-37 | Running the CPU, memory and disk calls in order, with the draw position threaded through, gives exactly `TrendsSection`, so memory reads the block after CPU's and disk the block after that. The three calls take `3 × count` draws. |
| TrendSeries.BlockIsGenerate | src/components/MetricTrendsSection.tsx:13-37 | A series whose sample `i` reads draw `d + i` equals the series generated from the source with `d` values already taken. |
| TrendSeries.CpuHourExample | src/components/MetricTrendsSection.tsx:19-35 | In the default 1h view, the CPU series has 12 points, the spike at sample 8 is exactly 60, and every baseline is 15. |
| TrendSeries.NoClamp | src/components/MetricTrendsSection.tsx:23 | Nothing clamps the overview: base 70 gives a spike of 105. |
| Text.ShowNat | src/components/MetricTrendsSection.tsx:22 | A number prints as a non-empty digit string without padding. A leading '0' appears only for 0, and then it is the whole string. |
| Text.ParseNat | src/components/MetricTrendsSection.tsx:22 | Exactly the shortest spellings are accepted: non-empty digit strings with no leading zero except "0" itself. A zero-padded "05" is refused. |
| Text.ParseShowNat | src/components/MetricTrendsSection.tsx:22 | Parsing a number's decimal text returns the number. |
| Text.ShowNatInjective | src/components/MetricTrendsSection.tsx:22 | Different numbers print differently. |
| Text.FindChar | src/components/MetricTrendsSection.tsx:22 | The search returns the first occurrence of the character, or none exactly when it is absent. |
| Tour.FindStep | src/components/OnboardingTour.tsx:73 | A found step is in the table and has the requested id. Nothing is found iff no entry has that id. |
| Tour.StepLookup | src/components/OnboardingTour.tsx:14-73 | Lookup succeeds exactly for steps 1..5 and returns the entry at that position. |
| Tour.Mount | src/components/OnboardingTour.tsx:68 | A fresh tour is on step 1, which is valid. |
| Tour.Finish | src/components/OnboardingTour.tsx:163-171 | Skip and complete set the completed flag and close, and the step is unchanged. |
| Tour.Next | src/components/OnboardingTour.tsx:155-161 | Below step 5, Next advances by one. At step 5 it finishes. |
| Tour.KeyDown | src/components/OnboardingTour.tsx:138-149 | While closed, nothing changes. While open, Escape finishes and ArrowRight acts as Next. ArrowLeft steps back by one above step 1 and otherwise changes nothing. Every other key changes nothing. Only the arrows change the step. |
| Tour.Step | src/components/OnboardingTour.tsx:138-173 | While closed, no event changes anything. A key always goes to the keyboard handler. A click does nothing unless the tooltip is drawn. A drawn Next click advances below step 5 and finishes on step 5. A drawn skip control finishes on the current step. The close icon and "Skip Tour" (lines 213 and 239) and Next (line 245) are the three clicks. |
| Tour.StepPreservesValid | src/components/OnboardingTour.tsx:138-171 | Each click or key keeps the step in 1..5 and never clears the flag. Nothing happens while closed. |
| Tour.RunPreservesValid | src/components/OnboardingTour.tsx:138-171 | The same holds for any sequence of clicks and keys. |
| Tour.RunAppend | src/components/OnboardingTour.tsx:138-171 | Running two event sequences one after the other is running their concatenation. |
| Tour.NextWalk | src/components/OnboardingTour.tsx:155-157 | `k` Next clicks that stay within the table advance the step by `k` and keep the tour open. |
| Tour.TourCompletesAfterFiveNexts | src/components/OnboardingTour.tsx:155-171 | From a fresh open tour, five Next clicks finish it on step 5 with the flag set. |
| Tour.PrimaryLabel | src/components/OnboardingTour.tsx:176-248 | The caption is "Done" iff on the last step, and "Next" otherwise. |
| Tour.DoneMeansNextFinishes | src/components/OnboardingTour.tsx:155-176 | On a valid step, "Done" shows exactly when Next would finish rather than advance. |
| Tour.TableNumbered | src/components/OnboardingTour.tsx:14-60 | The table has five entries, with ids 1 to 5 in order. |
| Tour.RenderedMeansFound | src/components/OnboardingTour.tsx:73-173 | The tour is drawn iff it is open and the lookup of the current step succeeds. |
| Tour.DotOf | src/components/OnboardingTour.tsx:257-263 | A dot is current iff its id is the current step, done iff its id is lower, and upcoming iff its id is higher. |
| Tour.Dots | src/components/OnboardingTour.tsx:254-264 | There are five dots. Dot `k` is classified by comparing id `k + 1` with the current step. |
| Tour.DotsUpTo | src/components/OnboardingTour.tsx:254-264 | Dot `k` of ids 1..m is classified against id `k + 1`. |
| Tour.DotsUpToCounts | src/components/OnboardingTour.tsx:254-264 | For ids 1..m: one current dot if the step is in range, `step − 1` done dots (at most m), and the rest upcoming. |
| Tour.DotCounts | src/components/OnboardingTour.tsx:254-264 | On a valid step exactly one dot is current, `step − 1` are done and `5 − step` are upcoming. |
| Tour.TooltipHeight | src/components/OnboardingTour.tsx:87 | The height is never 0. A measured non-zero height is used, and 200 otherwise. |
| Tour.AlignedLeft | src/components/OnboardingTour.tsx:93-108 | A centred tooltip shares the target's horizontal centre. A right-aligned one shares its right edge, and a left-aligned one its left edge. |
| Tour.Preferred | src/components/OnboardingTour.tsx:93-118 | Below and above leave a 16 px gap to the target and use the alignment's left edge. Right-of and left-of leave a 16 px gap at the side and share the target's vertical centre. |
| Tour.TooltipPosition | src/components/OnboardingTour.tsx:85-123 | After clamping, left ≥ 16 and top ≥ 16. Left ≤ innerWidth − 336 whenever innerWidth ≥ 352. Top ≤ innerHeight − h − 16 whenever that window is non-empty. |
| Tour.PlacementWhenFits | src/components/OnboardingTour.tsx:93-118 | If no clamping is needed, a centred tooltip shares the target's horizontal centre and a right-aligned one its right edge. Below/above leave a 16 px gap. Right-of shares the vertical centre with a 16 px gap, and left-of leaves a 16 px gap. |
| Progress.Tick | src/components/EmptyStateGatheringData.tsx:9-12 | A tick never exceeds 60 and never lowers a value at or below 60. It reaches 60 iff it starts at 59 or above. |
| Progress.TickIsCappedIncrement | src/components/EmptyStateGatheringData.tsx:9-12 | A tick is `min(p + 1, 60)`, and 60 is a fixed point. |
| Progress.Ticks | src/components/EmptyStateGatheringData.tsx:8-13 | After at least one tick the counter is at most 60. From 60 or above it is exactly 60. |
| Progress.TicksFromStart | src/components/EmptyStateGatheringData.tsx:5-12 | After `k` ticks from the initial 0, the counter is `min(k, 60)`. |
| Progress.TicksStayInRange | src/components/EmptyStateGatheringData.tsx:5-12 | From [0, 60] the counter stays in [0, 60] and never decreases. |
| Progress.WidthPercent | src/components/EmptyStateGatheringData.tsx:34 | On the counter's range [0, 60] the width is between 0 and 100 percent. It is 100 exactly at 60 and 0 exactly at 0. |
| Settings.Mount | src/components/SettingsModal.tsx:22-34 | The dialog starts with the two props as given. |
| Settings.Apply | src/components/SettingsModal.tsx:195-294 | Each form control writes its own field with the chosen value, and every other field stays as it was. The open state and the dark-mode prop are left alone. |
| Settings.EditIdempotent | src/components/SettingsModal.tsx:195-294 | Repeating a form edit changes nothing more. |
| Settings.LaterEditWins | src/components/SettingsModal.tsx:195-294 | Of two edits of the same field, the later one wins. |
| Settings.EditsCommute | src/components/SettingsModal.tsx:195-294 | Edits of different fields give the same state in either order. |
| Settings.ApplyAll | src/components/SettingsModal.tsx:195-294 | Any sequence of edits leaves the open state and the dark-mode prop alone. |
| Settings.Reset | src/components/SettingsModal.tsx:29-90 | Reset's six assignments restore exactly the initial values of the six state hooks. The open state and `darkMode` are unchanged. |
| Settings.ResetForgetsEdits | src/components/SettingsModal.tsx:83-90 | Reset is idempotent and erases any earlier edits. |
| Settings.Snapshot | src/components/SettingsModal.tsx:70-78 | The saved record carries the dark-mode prop. |
| Settings.Save | src/components/SettingsModal.tsx:69-81 | Save closes the open dialog without touching the local state. A record is reported iff open and a handler exists. The record's local half equals the local state and its `darkMode` equals the prop. |
| Settings.SaveAfterReset | src/components/SettingsModal.tsx:69-90 | Reset followed by Save reports exactly the defaults plus the current `darkMode`. |
| Settings.KeyDown | src/components/SettingsModal.tsx:36-45 | Escape closes an open dialog, and nothing else changes. |
| Settings.Dismiss | src/components/SettingsModal.tsx:123-141 | The backdrop and the close button close the dialog and keep the form state. |
| Settings.DensityPadding | src/components/SettingsModal.tsx:111-118 | The padding class is one of p-3, p-4 and p-6. |
| Settings.DensityPaddingDistinguishes | src/components/SettingsModal.tsx:111-118 | p-3 iff compact and p-6 iff spacious. Everything else, including the default comfortable, gets p-4. |
| Settings.Render | src/components/SettingsModal.tsx:67-222 | Nothing renders while closed. Otherwise the preview uses the current density's padding. |

## Left out

- Chart rendering is left out: Chart.js registration and options, the Recharts components, colours, point radii and tooltip label strings. These are presentation handled by foreign libraries.
- Locale time formatting (`formatTimestamp`) is left out. Detail timestamps stay integer milliseconds.
- Browser plumbing is left out: the MutationObserver dark-mode detection, `document.querySelector`, `getBoundingClientRect`, the resize/scroll/keydown listener wiring, and the highlight rectangle. The target rectangle and the window size are parameters.
- Timers are left out: `setInterval`/`clearInterval` become one `Tick` per callback.
- Storage is left out: `localStorage` is the `completed` boolean.
- The Web Audio "Test Sound" handler and the Alpine `_x_dataStack` assignments are left out. They are side effects on the browser with no state of their own.
- The dark-mode toggle is left out: it calls the parent's `onToggleDarkMode`, and `darkMode` is a prop here.
- Floating point is left out: values are exact reals. The anomaly indices use the integer floors ⌊30n/100⌋, ⌊60n/100⌋ and ⌊85n/100⌋. For the six point counts these agree with `Math.floor(n * 0.3)` and the other two, but IEEE rounding in general is not modelled. `NaN`, which `|| 45.2` would also replace, cannot arise from the modelled arithmetic.
- The time-range selector buttons are left out: they only call `setTimeRange`. Each view's series is a function of the range it is given.
- The trend `TimeRange` has exactly the four values of the component's type, so the "otherwise 28" branch is reached by `7d` alone. A string outside the type is not modelled.
- Closing is modelled as `isOpen := false` in both the tour and the settings dialog. In the source, closing calls the parent's `onClose` callback, and the parent then clears the `isOpen` prop. The parent is not part of this model.
- Settings.Apply and Settings.Reset also accept a closed dialog. Settings.Apply also accepts `SetVolume` while sound is off. The page cannot produce these events, because the form and the Reset button render only while open (SettingsModal.tsx:67) and the volume slider only while `soundEnabled` (line 248). The model therefore allows edits the page never makes. Their effect is the same field write.
