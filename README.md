# Human activity recognition: upload, server pipeline and results views

This project is a Dafny model of a small human-activity-recognition
application. The model covers four parts:

- **The upload page** (`UploadPage.jsx`). It gates a dropped file by the
  drop-zone verdict and a 10 MiB ceiling, shows a size label and runs
  the Analyze handler: request, success toast and navigation, or an
  error toast, and finally the loading flag cleared.
- **The server endpoint** `POST /api/predict` (`predict_activity` in
  `api.py`), in five steps:
  - it validates the extension, size, emptiness, parse and column count,
    in that order;
  - it cuts the table into overlapping windows of 128 rows with a step of
    64;
  - it builds one feature row per window and checks the matrix shape;
  - it names the predictions, with fallback names;
  - it takes the majority vote with Python `Counter` semantics and builds
    the preview lists of the response.
- **The offline pipeline** of `har_utils.py`: the case-sensitive loader
  with non-overlapping windows, `HARPredictor.predict` and
  `predict_from_file` with its sentinel result.
- **The results page** (`ResultsPage.jsx`, `CircularProgress.jsx`). It
  builds the time-chart rows, the frequency-chart rows cut at 25 Hz,
  the class-probability bars, the display-label rule, the confidence
  badge, the signal selector, the window-distribution widths and the
  gauge geometry.

Feature values are not computed. The `Features.Feature` datatype names the
statistic behind each entry, so the model is exact about which branch is
taken (constant signal, empty signal, vanishing spectrum) and about how many
entries each part yields. That is what decides whether the server's feature
matrix can be built. The numerical steps stay parameters: filtering, jerk,
magnitudes and the FFT magnitude are the record `Features.Numerics`, and
the scaler and the classifier are the record `HarUtils.Predictor`. The
predicates `ValidNumerics` and `ValidPredictor` state what those library
calls guarantee about lengths. The file parser is a parameter too: the
table it produced (`Windowing.Table`, a width and rows of that width) or
its error.

## Modules

| file | module | what it holds |
|---|---|---|
| wrappers.dfy | Wrappers | `Option`, `Result` |
| text.dfy | Text | ASCII case mapping, Python `str(int)`, `Fixed` standing for `toFixed` |
| payload.dfy | Payload | the JSON response body, with objects as ordered (key, value) lists |
| windowing.dfy | Windowing | the window cutting loop shared by the server (step 64) and the loader (step 128) |
| features.dfy | Features | the shape of `features_from_window` and the per-window loop |
| counter.dfy | Counter | `Counter`, `dict(counter)` and `most_common(1)` |
| har_utils.dfy | HarUtils | loader, predictor record, `predict`, `predict_from_file` |
| api.dfy | Api | the endpoint |
| upload_page.dfy | UploadPage | the size label and the page state as a class |
| results_page.dfy | ResultsPage | the data preparation of the results page |
| circular_progress.dfy | CircularProgress | the gauge |
| pipeline.dfy | Pipeline | properties linking the server's response to the pages |

Where the code and the repository's description of it differ, the model
follows the code:

- The distribution width `count / windows_analyzed * 100` has no guard for
  zero windows. It is modelled with the JavaScript values `Infinity` and
  `NaN` (`ResultsPage.DistributionWidth`).
- A malformed preview is not rejected. Channels shorter than the time axis
  become `undefined` cells in the time chart
  (`ResultsPage.TimeDataShortChannel`).
- The frequency cut applies only when the first bin above 25 Hz is at an
  index above 0 (`maxFreqIndex > 0`). When bin 0 is already above 25 Hz,
  the whole axis is kept (`ResultsPage.FreqDataKeepsAllWhenFirstBinHigh`).
- A constant signal yields 16 time-domain features instead of 15. Windows
  that differ in their number of constant signals therefore give ragged
  feature rows, which numpy refuses. The endpoint then answers with status
  500 (`Api.ConstantSignalFails`).
- The offline loader returns empty window arrays for a file shorter than
  one window. It does not return `(None, None)`, so `predict_from_file`
  fails inside `predict` rather than returning its sentinel
  (`HarUtils.ShortFileFailsInPredict`).

## Model

| member | source | states |
|---|---|---|
| Text.Upper | frontend/src/pages/ResultsPage.jsx:72 | `toUpperCase` keeps the length and maps each character by the ASCII rule |
| Text.Lower | api.py:242 | `.lower()` keeps the length and maps each character by the ASCII rule |
| Text.LowerIdempotent | api.py:242 | lower-casing twice is lower-casing once |
| Text.DecimalRoundTrip | api.py:334 | the decimal text of `str(pred)` reads back to the integer, with a '-' exactly for negatives |
| Text.DecimalInjective | api.py:334 | different integers get different decimal texts |
| Payload.Keys | api.py:378-387 | the keys of a JSON object, in insertion order |
| Payload.CountTotalAppend | api.py:386 | appending an entry adds its count to the total |
| ResultsPage.At | frontend/src/pages/ResultsPage.jsx:40-45 | `array[index]` is defined exactly below the length, and then it is that element |
| ResultsPage.PrepareTimeData | frontend/src/pages/ResultsPage.jsx:33-47 | no preview gives no rows; otherwise one row per time stamp, with the time formatted to 3 digits and each cell the channel's value at that index, or `undefined` |
| ResultsPage.TimeDataDefinedIff | frontend/src/pages/ResultsPage.jsx:38-46 | the chart has no `undefined` cell if and only if every channel is at least as long as `t` |
| ResultsPage.TimeDataShortChannel | frontend/src/pages/ResultsPage.jsx:40-45 | a short channel does not shorten the chart; its cells past its end are `undefined` |
| ResultsPage.TimeDataColumn | frontend/src/pages/ResultsPage.jsx:38-46 | reading a channel back out of the rows gives as many of its first values as `t` has stamps |
| ResultsPage.CurrentSignalKey | frontend/src/pages/ResultsPage.jsx:87-89 | the key built from the two selects is the row field holding that channel, and it is one of the six channel fields |
| ResultsPage.SignalKeySpelling | frontend/src/pages/ResultsPage.jsx:315-332 | the `<option>` values joined by '_' spell the channel field names |
| ResultsPage.CurrentSignalKeyInjective | frontend/src/pages/ResultsPage.jsx:87-89 | different selections give different keys |
| ResultsPage.SelectedLineFollowsChannel | frontend/src/pages/ResultsPage.jsx:337-363 | the plotted line at sample i is the selected channel's value at i |
| ResultsPage.FindIndexAbove | frontend/src/pages/ResultsPage.jsx:56 | `findIndex`: -1 exactly when no element is above the limit, else the first index above it |
| ResultsPage.FreqLimit | frontend/src/pages/ResultsPage.jsx:56-57 | the limit is at most the axis length; below it, it is a positive index of the first bin above 25 Hz; it is the full length exactly when no bin is above 25 Hz or bin 0 is |
| ResultsPage.PrepareFreqData | frontend/src/pages/ResultsPage.jsx:50-65 | no FFT gives no rows; otherwise a prefix of the axis, each bin paired with the magnitudes at its index |
| ResultsPage.FreqDataCutAtFirstHighBin | frontend/src/pages/ResultsPage.jsx:56-59 | when the first bin above 25 Hz has index k > 0, exactly k rows are kept |
| ResultsPage.FreqDataKeepsAllWithoutHighBin | frontend/src/pages/ResultsPage.jsx:56-59 | with no bin above 25 Hz, every bin is kept |
| ResultsPage.FreqDataKeepsAllWhenFirstBinHigh | frontend/src/pages/ResultsPage.jsx:57 | when bin 0 is above 25 Hz, every bin is kept, including that bin |
| ResultsPage.FreqDataBelowCutoff | frontend/src/pages/ResultsPage.jsx:56-59 | unless bin 0 is above 25 Hz, no kept bin is above 25 Hz |
| ResultsPage.ReplaceUnderscores | frontend/src/pages/ResultsPage.jsx:72 | `replace(/_/g, ' ')` keeps the length and turns exactly the underscores into spaces |
| ResultsPage.DisplayLabel | frontend/src/pages/ResultsPage.jsx:72 | the label rule keeps the length, leaves no underscore and maps each character |
| ResultsPage.DisplayLabelIdempotent | frontend/src/pages/ResultsPage.jsx:145 | applying the label rule to a label changes nothing |
| ResultsPage.DisplayLabelMerges | frontend/src/pages/ResultsPage.jsx:232 | "a_b" and "A B" get the same label, so distinct keys can share a label |
| ResultsPage.PrepareProbabilityData | frontend/src/pages/ResultsPage.jsx:68-75 | no probabilities give no bars; otherwise one bar per entry, in order, with the label rule and the probability times 100 to 2 digits |
| ResultsPage.ShowsProbabilityChart | frontend/src/pages/ResultsPage.jsx:257 | the chart card is shown if and only if the payload has at least one probability |
| ResultsPage.ProbabilityBarsFollowKeys | frontend/src/pages/ResultsPage.jsx:71-72 | bar i is the label of key i |
| ResultsPage.ConfidenceBadgeColor | frontend/src/pages/ResultsPage.jsx:81-85 | green if and only if ≥ 0.8, yellow if and only if in [0.6, 0.8), red if and only if < 0.6 |
| ResultsPage.ShowsConfidenceBadge | frontend/src/pages/ResultsPage.jsx:148 | the badge is rendered only for a positive confidence |
| ResultsPage.BadgeMonotone | frontend/src/pages/ResultsPage.jsx:81-85 | more confidence never gives a worse badge |
| ResultsPage.DistributionWidth | frontend/src/pages/ResultsPage.jsx:239 | with windows, the width times the window count is 100 times the count, and it lies in [0, 100] when count ≤ windows; with zero windows it is `Infinity` for a positive count and `NaN` for zero |
| ResultsPage.PrepareDistribution | frontend/src/pages/ResultsPage.jsx:214-245 | no distribution gives no lines; otherwise one line per entry, in order, with label, width and count |
| ResultsPage.TotalWidthScales | frontend/src/pages/ResultsPage.jsx:229-241 | the widths add up to 100 times the total count over the window count |
| ResultsPage.TotalWidthIsWidthSum | frontend/src/pages/ResultsPage.jsx:229-241 | the total of the rows' widths is the sum of each entry's width, in entry order |
| ResultsPage.WidthSumScales | frontend/src/pages/ResultsPage.jsx:239 | with windows, the summed widths scale to 100 times the summed counts |
| ResultsPage.DistributionWidthsSumTo100 | frontend/src/pages/ResultsPage.jsx:229-241 | when the counts add up to the window count, the bars fill exactly 100%, as a sum of reals |
| ResultsPage.DistributionZeroWindows | frontend/src/pages/ResultsPage.jsx:239 | with zero windows no bar gets a finite width |
| CircularProgress.ColorFor | frontend/src/components/CircularProgress.jsx:8-12 | green if and only if ≥ 80, amber if and only if in [60, 80), red if and only if < 60 |
| CircularProgress.Radius | frontend/src/components/CircularProgress.jsx:4 | the radius plus half the stroke is half the size |
| CircularProgress.Offset | frontend/src/components/CircularProgress.jsx:6 | the offset is the undrawn share `(100 - value) / 100` of the circumference |
| CircularProgress.DefaultRadius | frontend/src/components/CircularProgress.jsx:3-4 | the default gauge has radius 94 |
| CircularProgress.OffsetRoundTrip | frontend/src/components/CircularProgress.jsx:6 | the drawn percentage can be read back from the offset |
| CircularProgress.OffsetEnds | frontend/src/components/CircularProgress.jsx:6 | 0% leaves the whole arc undrawn, 100% draws all of it |
| CircularProgress.OffsetBoundsAndMonotone | frontend/src/components/CircularProgress.jsx:6 | within 0..100 the offset stays within the circumference and strictly decreases |
| CircularProgress.GaugeMatchesBadge | frontend/src/components/CircularProgress.jsx:8-12 | the gauge's colour bands are the badge's bands scaled by 100 |
| UploadPage.FormatFileSize | frontend/src/pages/UploadPage.jsx:76-80 | bytes below 1 KiB, KB below 1 MiB, else MB; the shown amount times its unit is the size, to 2 digits, and a KB amount lies in [1, 1024) |
| UploadPage.ErrorMessage | frontend/src/pages/UploadPage.jsx:66-68 | the server's detail when it is non-empty, else the error message when it is non-empty, else the default text; never empty |
| UploadPage.UploadPage.constructor | frontend/src/pages/UploadPage.jsx:12-13 | no file, not loading, no toast, no result |
| UploadPage.UploadPage.AnalyzeEnabled | frontend/src/pages/UploadPage.jsx:168 | the Analyze button is enabled exactly when a file is selected and no request is pending |
| UploadPage.UploadPage.OnDrop | frontend/src/pages/UploadPage.jsx:17-36 | a rejected file raises the type error and keeps the selection; a first accepted file over 10 MiB raises the size error and keeps the selection; otherwise that file is selected with a success toast; no file changes nothing; an enabled button stays enabled, and a selected file enables it when nothing is pending |
| UploadPage.UploadPage.Remove | frontend/src/pages/UploadPage.jsx:150-155 | the selection is cleared, a "File removed" toast raised, and the button disabled |
| UploadPage.UploadPage.StartAnalyze | frontend/src/pages/UploadPage.jsx:48-54 | without a file: an error toast and no request; with one: loading, and that file is sent; either way the button is disabled afterwards |
| UploadPage.UploadPage.FinishAnalyze | frontend/src/pages/UploadPage.jsx:56-73 | loading is cleared in every case, so the button is enabled again exactly when a file is selected; a result is navigated to with a success toast, a failure raises `ErrorMessage` of the error |
| UploadPage.UploadPage.HandleAnalyze | frontend/src/pages/UploadPage.jsx:48-74 | the whole handler: no request without a file, else loading while pending and not afterwards, with the outcome's toast and navigation |
| UploadPage.RefusedDropKeepsSelection | frontend/src/pages/UploadPage.jsx:17-74 | after a small file is selected, an oversized drop and a wrong-type drop leave it selected and the button enabled; it is the file sent, and a failure without a server message shows the default text |
| Windowing.AccWindow | har_utils.py:145-153 | 128 rows, row j being columns 0-2 of table row start + j |
| Windowing.GyroWindow | har_utils.py:146-154 | 128 rows, row j being columns 3-5 of table row start + j |
| Windowing.WindowStarts | api.py:282 | the k-th start `k * step` is in the range exactly when a full window fits from it |
| Windowing.WindowCount | api.py:282-290 | there is no window exactly when the table has fewer than 128 rows, and never more windows than rows past the 127th |
| Windowing.AccWindows | api.py:279-288 | `WindowCount` windows of 128 rows each |
| Windowing.GyroWindows | api.py:279-288 | `WindowCount` gyroscope windows of 128 rows each |
| Windowing.WindowContents | api.py:282-285 | window k holds columns 0-2 and 3-5 of rows k·step to k·step + 127 |
| Windowing.Segment | api.py:279-288 | the loop builds exactly the windows at 0, step, 2·step, … for both sensors |
| Windowing.NonOverlappingCount | har_utils.py:152 | with a step of 128 there are n // 128 windows and fewer than 128 rows are dropped |
| Windowing.OverlappingWindowsShareHalf | api.py:276-282 | consecutive windows with a step of 64 share 64 rows |
| Features.ArCoeffs | har_utils.py:25-33 | `order` entries: zeros when N ≤ order, else the coefficients 1..order |
| Features.ConstantMeansAllEqual | har_utils.py:43 | `np.all(sig == sig[0])` holds exactly when every two samples are equal |
| Features.TimeDomainFeatures | har_utils.py:41-58 | 16 zeros for a constant signal, else 15 entries from mean to kurtosis |
| Features.SpectrumVanishes | har_utils.py:64-68 | an all-zero signal and any two-sample signal have a vanishing spectrum; with 3 or more samples a vanishing spectrum needs sample 1 to be zero |
| Features.FreqDomainFeatures | har_utils.py:60-78 | always 12 entries, zeros for an empty signal or a vanishing spectrum |
| Features.TwoSampleSpectrumVanishes | har_utils.py:64-68 | a two-sample Hann window is all zeros, so the frequency features are zeros |
| Features.ConstantSignalHasSpectrum | har_utils.py:43-44 | a non-zero constant signal of 3 or more samples gets time-domain zeros but real frequency features |
| Features.BlockFeaturesLength | har_utils.py:87-88 | a signal contributes 28 entries when constant, 27 otherwise |
| Features.BlocksLayout | har_utils.py:82-93 | the visiting order: axis `ax` of triaxial signal n at 3n + ax, magnitude m at 15 + m |
| Features.ConcatLength | har_utils.py:80-93 | the vector has 27 entries per signal plus one per constant signal |
| Features.FeatureVector | har_utils.py:80-97 | the feature vector of a window has between 540 and 560 entries |
| Features.FeatureVectorLength | har_utils.py:80-97 | exactly 540 entries plus one per constant signal |
| Features.FeaturesFromWindow | har_utils.py:80-97 | the nested loops accumulate exactly the features of the 20 signals in visiting order |
| Features.ExtractAll | har_utils.py:121-129 | one feature row per window, row i from accelerometer window i and gyroscope window i |
| Features.MatrixWidth | har_utils.py:129 | `np.array` gives a width if and only if all rows have the same length, and then it is that length |
| Features.ConstantSignalsMakeRowsRagged | api.py:302 | two windows that differ in their number of constant signals give rows numpy cannot stack |
| Counter.Count | api.py:340 | a count is positive if and only if the label occurs |
| Counter.Distinct | api.py:340 | the counter's keys: each label once, and exactly the labels that occur |
| Counter.DistinctInFirstOccurrenceOrder | api.py:386 | the keys come out in order of first occurrence |
| Counter.Tally | api.py:386 | one (key, count) pair per given key, in order, each with that key's number of occurrences |
| Counter.Distribution | api.py:386 | `dict(counter)` has those keys, each with its positive count |
| Counter.DistributionTotal | api.py:386 | the counts add up to the number of labels |
| Counter.FirstMaxIndex | api.py:341 | the index of a largest count, with no equal count before it |
| Counter.MostCommon | api.py:341 | the majority label occurs among the labels |
| Counter.MostCommonIsMaximal | api.py:341 | the majority label occurs at least as often as any label |
| Counter.MostCommonTieBreak | api.py:341 | of two labels with the same top count, the one seen first wins |
| HarUtils.LoadableName | har_utils.py:133-138 | a loadable name ends in exactly the four characters ".txt" or ".csv" |
| HarUtils.Load | har_utils.py:131-162 | no windows if and only if the name ends in neither ".txt" nor ".csv", the read fails, or there are fewer than 6 columns |
| HarUtils.LoadAndPreprocess | har_utils.py:131-162 | the loader's loop computes `Load` |
| HarUtils.LoadWindows | har_utils.py:148-158 | a successful load has n // 128 windows of 128 rows on each sensor |
| HarUtils.LoadIsCaseSensitive | har_utils.py:133-138 | the extension test is case-sensitive: a name ending in ".CSV" is refused and nothing is loaded |
| HarUtils.LabelsOf | har_utils.py:182 | every prediction is named through the mapping, or the first unnamed prediction raises |
| HarUtils.Prediction | har_utils.py:177-182 | in order: mismatched window arrays, no windows, ragged rows; a label or a missing label means the width matched and a mapping exists |
| HarUtils.Predict | har_utils.py:177-182 | the per-window loop followed by the scaler, model and mapping computes `Prediction` |
| HarUtils.OneLabelPerWindow | har_utils.py:177-182 | a successful prediction gives one label per window, each a mapping value |
| HarUtils.PredictionFromFile | har_utils.py:171-175 | a failed load gives the sentinel `["Error processing file"]` |
| HarUtils.PredictFromFile | har_utils.py:171-175 | the method computes `PredictionFromFile` |
| HarUtils.ShortFileFailsInPredict | har_utils.py:152-158 | a loadable file shorter than one window fails in `predict` and gets no sentinel |
| HarUtils.FileLabelsPerWindow | har_utils.py:171-182 | a successful file prediction has n // 128 labels |
| Api.AfterLastDot | api.py:242 | `split('.')[-1]` is the longest suffix without '.', preceded by '.' when shorter than the name |
| Api.FileExtension | api.py:242 | "" without a '.'; otherwise '.' followed by the lower-cased text after the last '.' of the name |
| Api.ExtensionAllowed | api.py:241-244 | accepted if and only if the name has a '.' and the text after the last one is "csv", "txt" or "xlsx" once lower-cased |
| Api.AfterLastDotLower | api.py:242 | lower-casing commutes with taking the text after the last dot |
| Api.ExtensionIgnoresCase | api.py:241-244 | names equal up to ASCII case get the same extension and the same verdict |
| Api.TrailingDotRejected | api.py:242-244 | a name ending in '.' has the extension "." and is refused |
| Api.NoDotRejected | api.py:242-244 | a name without '.' is refused |
| Api.UpperCaseExtensionAccepted | api.py:241-244 | "a.CSV" is accepted |
| Api.InnerExtensionIgnored | api.py:241-244 | "data.csv.bak" is refused |
| Api.Status | api.py:245-309 | each failure is a 400 or a 500, and a 500 exactly for a parse error, ragged rows or a feature count mismatch |
| Api.CheckUpload | api.py:241-270 | a table that passes the checks has at least 6 columns |
| Api.CheckUploadOrder | api.py:241-270 | each rejection happens exactly when the checks before it pass and its own fails: extension, size above 10 MiB, empty, parse, fewer than 6 columns |
| Api.ExactLimitPasses | api.py:254 | a file of exactly 10 MiB is neither too large nor empty |
| Api.ActivityName | api.py:333-337 | the mapped name, else `Unknown_<pred>` with a mapping, else `Activity_<pred>` |
| Api.ActivityNames | api.py:333-337 | one name per prediction, in order |
| Api.ClassLabels | api.py:328-329 | one label per class: the mapped name or `Activity_<i>` |
| Api.UnmappedClassNamedTwoWays | api.py:328-335 | an unmapped class has one name among the predictions and another among the probabilities |
| Api.FallbackNamesDistinct | api.py:334-337 | different unmapped predictions get different fallback names |
| Api.Put | api.py:330 | a dict store: a new key goes last, an existing key keeps its place and takes the new value |
| Api.DictFromPairs | api.py:330 | the comprehension's keys are the distinct labels, in order of first occurrence |
| Api.DictFromDistinctKeys | api.py:330 | with distinct labels every (label, probability) pair is kept, in order |
| Api.LastIndexOf | api.py:330 | the position of the last occurrence of a key: it holds the key and no later position does |
| Api.DictFromPairsValues | api.py:330 | every entry of the comprehension holds the value paired with the last occurrence of its key |
| Api.RepeatedKeyKeepsLast | api.py:330 | two pairs with the same key leave one entry, holding the second value |
| Api.DictCollisionKeepsLastValue | api.py:330 | example: two classes both named "Walking" leave one entry, holding the later probability 0.75 |
| Api.MaxOf | api.py:324 | `np.max` is an element and bounds every element |
| Api.ProbabilitiesNonEmpty | api.py:316-330 | a probabilities dictionary, when there is one, has at least one class |
| Api.Probabilities | api.py:316-330 | without `predict_proba` confidence 0 and no probabilities; with it the largest averaged probability; probabilities if and only if both `predict_proba` and a mapping exist |
| Api.PreviewLength | api.py:344 | `min(256, n)` |
| Api.Column | api.py:349-354 | `sensor_data[:n, c]` has n entries, entry i being row i's cell c |
| Api.TimeAxis | api.py:345 | n time stamps, stamp i being i / 50 s |
| Api.SignalsPreviewOf | api.py:343-355 | the seven lists have `min(256, n)` entries, stamp i times 50 is i, and channel c at i is row i's cell c, for the six channels in order |
| Api.PreviewCoversFirstWindow | api.py:343-355 | the preview's first 128 samples are those of the first window |
| Api.FftInput | api.py:226-227 | the first 500 samples at most, as a prefix |
| Api.RfftFreq | api.py:232 | n / 2 + 1 bins, bin k at k · 50 / n Hz |
| Api.RfftFreqRange | api.py:232 | the axis starts at 0 Hz and, in exact arithmetic, stays within [0, 25] Hz |
| Api.FftPreviewOf | api.py:357-367 | the frequency axis of the preview has n / 2 + 1 bins, each within [0, 25] Hz in exact arithmetic |
| Api.FftPreviewShape | api.py:357-367 | the 500-sample cut never applies to the preview, and there is one magnitude per frequency bin for each axis |
| Api.Analyze | api.py:302-309 | success if and only if the feature matrix is rectangular with the scaler's width; every failure here is a 500 |
| Api.ServerFeatureRows | api.py:296-300 | one feature row per overlapping window |
| Api.Respond | api.py:236-309 | success if and only if the upload passes the checks, has 128 rows or more and gives a matrix of the scaler's width |
| Api.RespondOk | api.py:236-387 | a success comes from a table that passed the checks, has 128 rows or more and gives a rectangular matrix of the expected width |
| Api.PredictActivity | api.py:236-394 | the endpoint's loops compute `Respond` |
| Api.RespondErrors | api.py:290-309 | check failures pass through unchanged; "Insufficient data" if and only if fewer than 128 rows; any later failure is a 500 |
| Api.WindowsAnalyzed | api.py:370-376 | the metadata: (n - 128) / 64 + 1 windows, each with one prediction; n samples, 6 channels, 50 Hz and the filename |
| Api.MajorityAndDistribution | api.py:339-341 | the activity is a label with the largest count; the distribution's keys are the distinct labels and its counts add up to the window count |
| Api.DerivedWindow | api.py:296-300 | the derived signals of window k have samples, and feature row k is their feature vector |
| Api.ConstantSignalFails | api.py:302-309 | any two windows i < j whose numbers of constant signals differ make the request fail with ragged rows (a 500) |
| Pipeline.PreviewChannelsCoverTime | api.py:347-355 | every preview channel is as long as the time axis |
| Pipeline.ServerTimeChartComplete | frontend/src/pages/ResultsPage.jsx:33-47 | a successful response is drawn as `min(256, n)` time rows with no `undefined` cell |
| Pipeline.ServerFreqChartUncut | frontend/src/pages/ResultsPage.jsx:50-65 | in exact arithmetic, the chart keeps every bin of the server's axis |
| Pipeline.ServerDistributionFills | frontend/src/pages/ResultsPage.jsx:229-241 | the distribution bars of a successful response fill exactly 100%, as a sum of reals |
| Pipeline.ServerProbabilityChart | frontend/src/pages/ResultsPage.jsx:257 | the probability chart appears if and only if the model has `predict_proba` and the predictor has a mapping |
| Pipeline.ServerConfidenceBadge | frontend/src/pages/ResultsPage.jsx:148 | without `predict_proba` the confidence is 0 and the results page shows no badge |
| Pipeline.SizeLimitsAgree | frontend/src/pages/UploadPage.jsx:27 | the page's ceiling and the server's limit are the same number of bytes |
| Pipeline.SelectedFileNotTooLarge | frontend/src/pages/UploadPage.jsx:27-31 | a file through the page's size gate is never refused as too large |
| Pipeline.EmptyFileReachesServer | frontend/src/pages/UploadPage.jsx:17-54 | an empty file dropped on a fresh page is selected and sent, and the server refuses it with a 400 |
| Pipeline.UpperCaseNameContrast | har_utils.py:133-138 | "a.CSV" is accepted by the server and refused by the offline loader |

## Left out

- Filtering, jerk, magnitudes, the Hann-windowed FFT and the statistics are not computed. They are the `Features.Numerics` record, and the feature vector entries name their statistic. Only lengths and branch choices are modelled.
- The `nan_to_num` and non-finite replacement passes are left out because feature values are abstract. `median_filter` (api.py:52) is left out because it only changes sample values.
- Api.RfftFreqRange, Api.FftPreviewOf, Pipeline.ServerFreqChartUncut: the frequency axis and the page's 25 Hz cut are decided in exact arithmetic. In doubles, `rfftfreq` computes `k * (1.0 / (n * 0.02))`. For a preview of 142, 176, 194, 234, 236 or 248 rows, the last bin comes out just above 25. The page's `f > 25` test then drops that bin, which the model does not capture.
- ResultsPage.DistributionWidthsSumTo100, Pipeline.ServerDistributionFills: the widths add up to 100 as real numbers. In doubles the sum can miss 100 by rounding. For example, counts 1, 1, 1 over 3 windows sum to 99.99999999999999.
- `psd.sum() == 0` (har_utils.py:67) is decided in exact arithmetic (`Features.SpectrumVanishes`). Floating-point underflow of the power spectrum is not modelled.
- `parse_file_content` and `pd.read_*` are not modelled. What they produce is a parameter: a table of uniform width, or an error text.
- Table cells are exact `real`s, so NaN (what pandas reads for an empty CSV cell) and ±inf cannot occur in the model. In the program a NaN makes `np.all(sig == sig[0])` false and is carried into the preview lists. That input class is outside the model.
- The HTTP detail texts of the errors are not modelled. The `Api.Failure` constructors carry the numbers used in those texts.
- The scaler and the classifier (`scaler.transform`, `model.predict`, `predict_proba` averaged over windows) are left out. They are the `HarUtils.Predictor` functions. A missing predictor (`predictor` is None, api.py:37) is not modelled.
- The other FastAPI endpoints (health, activities, root), CORS, model loading, logging and `print` are left out. They carry no logic of the core.
- `toFixed` is not modelled: `Text.Fixed` records the value and the digit count, not the digits.
- Case mapping is ASCII only: `Text.Upper` and `Text.Lower` leave other characters unchanged, and Unicode case changes that alter the length are not modelled.
- `Object.entries` order is modelled as insertion order. JavaScript puts integer-like keys first, which is not modelled.
- The drop zone's own extension test (UploadPage.jsx:38-46) is not modelled. Its verdict is the `accepted` and `rejected` lists given to `OnDrop`.
- Rendering, animation, navigation, the axios client, the other components and pages, and `generate_sample_data.py` are left out. They are outside the core.
- UploadPage.UploadPage.HandleAnalyze: the handler is modelled with nothing else happening while the request is pending. Interleaved events are covered by `StartAnalyze` and `FinishAnalyze` separately.
- Windowing.Segment: the windows are modelled as values. The numpy views that share memory with the table are not modelled.
- CircularProgress: the circumference `radius * 2 * Math.PI` is an arbitrary positive real. The value of π is not modelled.
