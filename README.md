# ORAN dashboard core, modelled in Dafny

This project models the server side of the ORAN telemetry dashboard: the
`Database` singleton that loads the recorded KPI series, the slice/policy
columns and the classifier log once at start-up, and the Bokeh views that
replay them on a timer.

- **Database** (`get_data.py`, module `GetData`). It does the following:
  - parses `HH:MM:SS:MMM` times into milliseconds;
  - formats raw column names (`sum_requested_prbs` → `PRB Requested`,
    `ul_sinr` → `UL SINR`);
  - sorts each column's records by `unix_epoch`, skipping records whose time
    does not parse;
  - builds the timestamp → value dicts, in which the last write wins and a
    key keeps its first position;
  - maps scheduling-policy codes to names;
  - holds the current timestamp that the views publish and read.
- **KPI view** (`views/kpi_graph.py`, `KpiGraph`). A module-level cursor
  starts at 20. Each tick streams the next sample of every column that
  still has one into a 21-sample rolling buffer and rebuilds that plot's
  `FixedTicker` from every fifth buffered x value. It also publishes the
  last streamed time. The JavaScript tick formatter turns milliseconds
  back into `HH:MM:SS:MMM`.
- **Loss/epoch view** (`views/loss_epoch.py`, `LossEpoch`). It shows epochs
  1–5, then adds one epoch per tick up to epoch 100, with rollover 100.
- **Classifier, scheduling-policy and RBs views**
  (`views/classifier_output.py`, `views/scheduling_policy.py`,
  `views/rbs_assigned.py`). Each looks up the published timestamp in its
  dict. The classifier falls back to the nearest key, with Python `min`'s
  first-in-order tie-break. The policy view shows a name, `N/A` or `Error`;
  the slider shows the value or 0. A stored value that is not a number
  fails the slider's validation, and the slider keeps its old value.
- **Image-pair view** (`views/image_pairs.py`, `ImagePairs`). It discovers
  `.npz` archives and `*_x.npy`/`*_y.npy` pairs in sorted name order and
  loads each into a left/right pair of point lists. A `ratio_batch` /
  `demapper_batch` archive is always split into real and imaginary parts,
  even when it is real. A generic archive is split only when both of its
  first two arrays are complex. Everywhere else `tolist()` keeps complex
  entries complex. With nothing found it
  falls back to two synthetic curves, then cycles through the pairs one per
  tick.
- **Ray animation** (`views/rays_animated.py`, `RaysAnimated`). This covers:
  - the demo scene and the polyline geometry (segment lengths, the point at
    a fraction of the length, the prefix path up to a fraction);
  - the per-ray state machine: growing, then four particles, then finished;
  - the staggered activation schedule and the re-activation two seconds
    after a ray finishes.

Python and Bokeh building blocks the core relies on are modelled in their
own modules:

- `PyStr`: `str.split`, `join`, `replace`, `upper` and `int()`;
- `PyDict`: a dict as an insertion-ordered list of entries;
- `Sorting`: `sorted`, as a stable insertion sort;
- `ColumnDataSource`: `stream` with `rollover`;
- `Common`: `Option`, `Result` with the Python exception raised, and the
  dynamically typed `Value` stored in a document.

The `Database`, the views that keep state between ticks and the ray
animation are classes whose methods update their fields. The loops of the
source are methods with loop invariants, each proved equal to a
specification function. The properties are lemmas about those functions.

Some behaviours of the code that the model keeps as they are:

- **No reset or pause.** No view has a reset or pause action.
- **KPI cursor start.** The KPI cursor starts at 20 (`window_size - 1`).
- **Nearest-key tie-break.** An exact tie picks the key that comes first in
  the dict's insertion order.
- **`format_class` unused.** It is defined but never called by the
  classifier's `update`.
- **`update` failures.** The KPI, RBs, loss and image views have no
  exception handler around `update`.
- **A bad `unix_epoch` is fatal.** A csv record without `unix_epoch` makes
  the sort in `load_csv` raise `KeyError`, because the sort sits outside the
  `try`. So `Database()` fails instead of skipping the record.
  `Database.Open` returns `Raised(KeyError)` then.

## Model

| member | source | states |
|---|---|---|
| GetData.TimestampToMillis | get_data.py:9-11 | fails only with `ValueError`; succeeds only on a string with exactly four `:`-separated fields |
| GetData.ClockMillis | get_data.py:9-11 | any zero-padded `HH:MM:SS:MMM` clock text parses to its milliseconds |
| GetData.ClockSplit | get_data.py:10 | splitting a clock text at `:` gives its four padded fields |
| GetData.ExampleTimestamp | get_data.py:9-11 | `01:02:03:004` is 3723004 ms |
| GetData.TimeOf | get_data.py:189 | a record time exists only if the readable timestamp is present and has a second space-separated word |
| GetData.ReadableTime | get_data.py:189 | `<date> HH:MM:SS:MMM` yields the clock's milliseconds |
| GetData.CapitalizeWord | get_data.py:130-134 | raises `IndexError` exactly for the empty word; otherwise keeps the length and changes each character at most by ASCII upper-casing |
| GetData.CapitalizeWords | get_data.py:129-134 | raises `IndexError` exactly when some word is empty; otherwise word j is `CapitalizeWord` of word j |
| GetData.FormattedName | get_data.py:122-139 | the name `format_column_name` builds; its meaning is stated by `FormattedWords`, `FormattedNoUnderscore`, `RateColumn`, `PrbColumn` and `AcronymColumn` |
| GetData.FormattedWords | get_data.py:122-139 | a formatted name splits back into the capitalized words, or into `PRB` and the first word when `Prbs` is among them; no word is empty |
| GetData.FormattedNoUnderscore | get_data.py:123 | a formatted name holds no `_` |
| GetData.RateColumn | get_data.py:122-139 | `<a>_brate <b> [Mbps]` formats to `A Brate B` |
| GetData.PrbColumn | get_data.py:122-139 | `sum_<a>_prbs` formats to `PRB A` |
| GetData.AcronymColumn | get_data.py:122-139 | `<a>_<b>` of two acronyms formats to both upper-cased |
| GetData.RateWords | get_data.py:123-124 | the cleaned words of a rate column are `[a, "brate", b]` |
| GetData.PrbWords | get_data.py:123-124 | the cleaned words of a PRB column are `[a, "prbs"]` |
| GetData.GraphColumnNamesFormatted | get_data.py:203 | each of the six raw graph columns (`rx_brate uplink [Mbps]`, `tx_brate downlink [Mbps]`, `ul_sinr`, `ul_mcs`, `sum_requested_prbs`, `sum_granted_prbs`) formats to the matching graph column name |
| GetData.GraphColumnNamesDistinct | get_data.py:203 | the six formatted graph column names are pairwise distinct |
| GetData.MapSchedulingPolicy | get_data.py:205-210 | `""` gives no policy; an unknown code raises `KeyError` and nothing else raises; any policy returned is one of the three names |
| GetData.PolicyCodes | get_data.py:33-37 | codes 0, 1 and 2, stored as int or float, map to Round Robin, Water Filling and Proportionally Fair |
| GetData.PolicyNamesDistinct | get_data.py:33-37 | two codes give the same name exactly when they are the same code |
| GetData.EpochOrders | get_data.py:184 | ordering by `unix_epoch` (a missing one as 0 for log entries) is a total preorder |
| GetData.SortedSamples | get_data.py:184 | the sort raises `KeyError` exactly when some record has no `unix_epoch` |
| GetData.SortedSamplesOrdered | get_data.py:184 | the sorted records are a permutation of the input, ascending by epoch, and records with equal epochs keep their order |
| GetData.Timed | get_data.py:187-193 | the records kept are records of the input whose time parses |
| GetData.SeriesAligned | get_data.py:185-196 | the x and y lists have equal length; entry i is the time and the value of the i-th record whose time parses |
| GetData.SeriesSkip | get_data.py:191-193 | a record whose time does not parse adds nothing to either list |
| GetData.ColumnSeries | get_data.py:176-196 | one column's x and y lists or the sort's `KeyError`; `Database.LoadColumn` computes it, `EmptyCsv` and `SeriesAligned` state its contents |
| GetData.KeyedUnique | get_data.py:112-118 | the loaded dict has distinct keys |
| GetData.KeyedKeys | get_data.py:112-118 | a time is a key exactly when some record carries it |
| GetData.KeyedLastWrite | get_data.py:112-118 | a key holds the value of the last record that carries it |
| GetData.KeyedKeep | get_data.py:118 | a record with another time, or none, leaves a key's value unchanged |
| GetData.Keyed | get_data.py:112-118 | the dict the timestamp loop builds; `KeyedUnique`, `KeyedKeys`, `KeyedLastWrite` and `KeyedKeep` state its keys and values |
| GetData.SamplePairs | get_data.py:112-118 | one (time, value) pair per record |
| GetData.LogPairs | get_data.py:77-85 | one (time, class) pair per log entry |
| GetData.FindById | get_data.py:60 | finds nothing exactly when no document has the id; a document found has the id |
| GetData.LogRow | get_data.py:59-63 | no row exactly when the collection is empty; the row is the `log_file` document, else the first document |
| GetData.LogDataKeys | get_data.py:59-85 | the log dict has distinct keys, and every key is the parsed time of an entry of the row |
| GetData.LogData | get_data.py:40-85 | the log dict of `load_log_file`; `LogDataKeys` states its keys and `Database.LoadLogFile` computes it |
| GetData.EmptyCsv | get_data.py:175-182 | with no csv documents loading succeeds and every graph column gets empty lists |
| GetData.GraphPrefixStep | get_data.py:175-196 | storing one more column's series under its formatted name extends the loaded prefix |
| GetData.GraphLoadedKeys | get_data.py:165-196 | after the loop the x and y dicts have exactly the six formatted names as keys |
| GetData.OtherColumn | get_data.py:88-120 | the dict of one other csv column; `Database.LoadOtherCsvColumns` computes it, with its missing-document and `KeyError` cases |
| GetData.CsvLoads | get_data.py:142-203 | loading the csv succeeds; `Database.LoadCsv` and `Database.Open` raise exactly when it fails |
| GetData.Database.LoadedValid | get_data.py:165-203 | a database loaded from a store has, for every graph column, x and y lists of equal length |
| GetData.Database.FormatColumnName | get_data.py:122-139 | the loop over the words returns `FormattedName` of the column |
| GetData.Database.BuildSeries | get_data.py:185-193 | the loop builds exactly `SeriesX` and `SeriesY` of the sorted records |
| GetData.Database.BuildDict | get_data.py:112-118 | the loop builds exactly `Keyed` of the pairs |
| GetData.Database.LoadOtherCsvColumns | get_data.py:88-120 | returns the column's dict, `{}` for a missing document, or the sort's `KeyError` |
| GetData.Database.LoadColumn | get_data.py:176-196 | returns the column's x and y lists, empty lists for a missing document, or the sort's `KeyError` |
| GetData.Database.LoadGraphColumns | get_data.py:175-196 | raises `KeyError` exactly when some column's sort raises; otherwise every column is stored under its formatted name |
| GetData.Database.LoadCsv | get_data.py:142-203 | raises exactly when the csv cannot be loaded; otherwise sets the graph columns, the graph dicts and both other columns |
| GetData.Database.FormatGraphColumns | get_data.py:203 | the graph column list is the six formatted names |
| GetData.Database.LoadLogFile | get_data.py:40-85 | sets the log data to `LogData` of the documents |
| GetData.Database.Open | get_data.py:21-37 | construction raises `KeyError` exactly when the csv cannot be loaded; otherwise the timestamp is 0 and the database is loaded from the store and valid |
| GetData.Database.SetCurrentTimestamp | get_data.py:224-225 | sets the current timestamp to the argument |
| KpiGraph.InitialWindow | views/kpi_graph.py:64-70 | the first `min(21, len)` samples are the window at cursor 20, at most 21 long |
| KpiGraph.Window | views/kpi_graph.py:42-53 | the 21-sample buffer of one column at a cursor; `InitialWindow`, `WindowAdvance`, `WindowAfterTicks` and `TickerWindow` state what it holds |
| KpiGraph.ColumnTick | views/kpi_graph.py:48-53 | one column's `stream` at a tick; `WindowAdvance` proves it moves the window by one |
| KpiGraph.WindowAdvance | views/kpi_graph.py:48-53 | a tick of one column's buffer moves its window from cursor i to i+1 |
| KpiGraph.WindowAfterTicks | views/kpi_graph.py:42-53 | after k ticks of a long enough series the buffer is exactly samples k to k+20 |
| KpiGraph.MajorTicks | views/kpi_graph.py:57 | the major ticks are every fifth of the last 21 x values, starting with the oldest |
| KpiGraph.EveryFifth | views/kpi_graph.py:57 | takes elements 0, 5, 10, … and covers the whole list |
| KpiGraph.PublishedIsLast | views/kpi_graph.py:46-50 | the published timestamp is the x value of the last column that still has a sample |
| KpiGraph.PublishedUnchanged | views/kpi_graph.py:46-50 | with no column left to stream, the timestamp stays unchanged |
| KpiGraph.Published | views/kpi_graph.py:46-50 | the timestamp the column loop publishes; `PublishedIsLast` and `PublishedUnchanged` state which one |
| KpiGraph.ClockFields | views/kpi_graph.py:80-83 | the formatter's hours, minutes, seconds and milliseconds recover the clock fields |
| KpiGraph.JsRem | views/kpi_graph.py:81-83 | JavaScript `%`, truncating toward zero; `ClockFields` uses it to recover the clock fields |
| KpiGraph.FormatTick | views/kpi_graph.py:79-88 | the JavaScript tick formatter; `FormatClock`, `ClockRoundTrip` and `TickRoundTrip` prove it inverts the clock parse |
| KpiGraph.FormatClock | views/kpi_graph.py:79-88 | formatting a clock's milliseconds gives back its zero-padded `HH:MM:SS:MMM` text |
| KpiGraph.ClockRoundTrip | views/kpi_graph.py:79-88 | parsing a clock text and formatting the result gives back the text |
| KpiGraph.TickRoundTrip | views/kpi_graph.py:79-88 | parsing a formatted tick gives back the tick |
| KpiGraph.TickMap | views/kpi_graph.py:46-53 | a tick over the columns keeps the set of buffered columns |
| KpiGraph.WindowMap | views/kpi_graph.py:64-70 | there is a buffer for every column |
| KpiGraph.TickerMap | views/kpi_graph.py:55-58 | a plot has a fixed ticker only once its column has streamed a sample |
| KpiGraph.WindowMapAt | views/kpi_graph.py:48-53 | column c's buffer is the window of its series |
| KpiGraph.TickerMapAt | views/kpi_graph.py:55-58 | column c has a ticker exactly when it has streamed a sample; the ticker is its current buffer |
| KpiGraph.TickerWindow | views/kpi_graph.py:55-58 | a column's ticker, once set, holds that column's current window |
| KpiGraph.TickerMapEmpty | views/kpi_graph.py:64-70 | at the start no plot has a fixed ticker |
| KpiGraph.InitialWindowMap | views/kpi_graph.py:64-70 | the initial buffers are the windows at cursor 20 |
| KpiGraph.InitialWindows | views/kpi_graph.py:64-70 | the initial plots are the window plots at cursor 20 |
| KpiGraph.TickWindowMap | views/kpi_graph.py:46-53 | a tick turns the buffers of cursor i into those of cursor i+1 |
| KpiGraph.TickTickerMap | views/kpi_graph.py:55-58 | a tick turns the tickers of cursor i into those of cursor i+1 |
| KpiGraph.TickWindows | views/kpi_graph.py:42-58 | a tick turns the plots of cursor i into the plots of cursor i+1 |
| KpiGraph.TickPrefix | views/kpi_graph.py:46-58 | the loop over the first i columns keeps the set of buffered columns |
| KpiGraph.KpiView.MajorTicksOf | views/kpi_graph.py:57-58 | a plot with a ticker shows five major ticks: the sample times at positions 0, 5, 10, 15 and 20 of its full 21-sample window, from the oldest to the newest |
| KpiGraph.KpiView.constructor | views/kpi_graph.py:32-35 | the cursor is at 20 and the plots are the initial ones, which are the window plots at cursor 20 |
| KpiGraph.KpiView.Update | views/kpi_graph.py:42-58 | the cursor moves on by one, the plots are the window plots at the new cursor, and the timestamp is the last one streamed |
| KpiGraph.KpiView.StreamColumns | views/kpi_graph.py:46-58 | the column loop yields the tick of all the columns and publishes the last streamed x |
| LossEpoch.NextEpoch | views/loss_epoch.py:74-86 | a tick moves the epoch on by at most one, stops exactly once epoch 100 is shown, and never passes 100 |
| LossEpoch.EpochAfterTicks | views/loss_epoch.py:70-86 | after k ticks the epoch is `min(5 + k, 100)` |
| LossEpoch.EpochAfter | views/loss_epoch.py:70-86 | the epoch after k ticks; `EpochAfterTicks` proves it is `min(5 + k, 100)` |
| LossEpoch.StreamNext | views/loss_epoch.py:83 | streaming the next point under rollover 100 extends the shown prefix by one |
| LossEpoch.LossEpochView.constructor | views/loss_epoch.py:45-47 | shows epochs 1–5 and their losses; the epoch counter is 5 |
| LossEpoch.LossEpochView.Update | views/loss_epoch.py:72-86 | below 100 appends the next epoch and its loss; otherwise nothing changes |
| ClassifierOutput.FormatClass | views/classifier_output.py:7-12 | raises only `IndexError`; a result is one word with no space |
| ClassifierOutput.FormatClassFirstWord | views/classifier_output.py:8 | a class text not starting with `unexpected` gives its first word |
| ClassifierOutput.FormatClassNoColon | views/classifier_output.py:10 | `unexpected …` with no `:` raises `IndexError` |
| ClassifierOutput.FormatClassUnexpected | views/classifier_output.py:9-10 | `unexpected <src>: <word> <details>` gives `<word>`, whatever colons the details hold |
| ClassifierOutput.NearestIndex | views/classifier_output.py:31 | the index of a key at the least distance from the time, and the first such key |
| ClassifierOutput.NearestUnique | views/classifier_output.py:31 | the first key at the least distance is the one chosen |
| ClassifierOutput.ShownExact | views/classifier_output.py:27-28 | at a stored time the stored class is shown |
| ClassifierOutput.ShownNearest | views/classifier_output.py:29-32 | at another time the class of the first nearest key is shown |
| ClassifierOutput.ShownClass | views/classifier_output.py:18-36 | the class text shown at a time; `ShownExact` and `ShownNearest` state it |
| ClassifierOutput.ClassifierView.constructor | views/classifier_output.py:14-15 | the view reads the database's log data; the text starts empty |
| ClassifierOutput.ClassifierView.Update | views/classifier_output.py:18-36 | the text becomes the class shown for the current timestamp |
| SchedulingPolicy.PolicyText | views/scheduling_policy.py:13-32 | `N/A` exactly for a missing or empty entry; `Error` exactly for an unknown code; otherwise one of the three policy names |
| SchedulingPolicy.PolicyMissing | views/scheduling_policy.py:17-20 | at a time with no entry the view shows `N/A` |
| SchedulingPolicy.PolicyStored | views/scheduling_policy.py:17-22 | at a time with code k stored the view shows policy k's name |
| SchedulingPolicy.PolicyTextRange | views/scheduling_policy.py:13-32 | the text is one of the three names, `N/A` or `Error` |
| SchedulingPolicy.SchedulingPolicyView.constructor | views/scheduling_policy.py:9-10 | the view reads the database's policy column; the text starts empty |
| SchedulingPolicy.SchedulingPolicyView.Update | views/scheduling_policy.py:13-32 | the text becomes the policy text for the current timestamp |
| RbsAssigned.SliderValue | views/rbs_assigned.py:13 | the stored value at a stored time, 0 otherwise |
| RbsAssigned.SliderStored | views/rbs_assigned.py:13 | at a stored time the slider shows the stored value |
| RbsAssigned.SliderMissing | views/rbs_assigned.py:13 | at a time with no entry the slider shows 0 |
| RbsAssigned.SliderUpdate | views/rbs_assigned.py:13 | the assignment succeeds only with a number, which the slider then holds |
| RbsAssigned.SliderUpdateStored | views/rbs_assigned.py:13 | a stored `int` or `float` is shown; a stored `None` or string raises `ValueError` |
| RbsAssigned.SliderUpdateMissing | views/rbs_assigned.py:13 | at a time with no entry the slider is set to 0 |
| RbsAssigned.RbsView.constructor | views/rbs_assigned.py:16 | the slider starts at 10, a number, and reads the database's RB column |
| RbsAssigned.RbsView.Update | views/rbs_assigned.py:11-13 | the slider takes the value for the current timestamp when it is a number; otherwise `update` raises `ValueError` and the slider keeps its value; the slider always holds a number |
| ImagePairs.RealParts | views/image_pairs.py:40-42 | the real part of every element, in order |
| ImagePairs.ImagParts | views/image_pairs.py:41-43 | the imaginary part of every element, in order |
| ImagePairs.ComplexPair | views/image_pairs.py:31-44 | a pair of complex arrays split into real and imaginary lists, by `RealParts` and `ImagParts` |
| ImagePairs.ToList | views/image_pairs.py:75-76 | `tolist()`: one number per element, in order; complex entries stay complex, real ones are floats |
| ImagePairs.LeftOnly | views/image_pairs.py:47-50 | x and y lists on the left and an empty right side; `ToList` and `NpyRows` state the lists |
| ImagePairs.FlatList | views/image_pairs.py:112-113 | the flattened list of a `.npy` file, by `ToList` |
| ImagePairs.ArchivePair | views/image_pairs.py:26-68 | an archive fails with `ValueError` exactly when it has fewer than two arrays and lacks `x` or `y` |
| ImagePairs.LoadPair | views/image_pairs.py:14-82 | other extensions raise `ValueError`; `.npz` is loaded as an archive; `.npy` loads exactly when it is 2-D with at least two rows, and then has an empty right side |
| ImagePairs.NpyRows | views/image_pairs.py:74-77 | a 2-D `.npy` gives its first two rows, as they are (complex entries stay complex), as the left x and y, with an empty right side |
| ImagePairs.StrLePreorder | views/image_pairs.py:96 | the string order used by `sorted` is a total preorder |
| ImagePairs.Glob | views/image_pairs.py:96 | every name globbed ends with the pattern's suffix |
| ImagePairs.NpzPairs | views/image_pairs.py:97-104 | at most one pair per archive name |
| ImagePairs.NpyPairs | views/image_pairs.py:107-116 | at most one pair per `_x.npy` name, each with an empty right side |
| ImagePairs.DiscoverPairs | views/image_pairs.py:84-125 | the archive pairs then the `.npy` pairs, or the two synthetic curves when none are found; never empty |
| ImagePairs.DiscoverOrder | views/image_pairs.py:96-107 | both name lists are sorted permutations of the globbed names |
| ImagePairs.NpzAllLoad | views/image_pairs.py:97-100 | when every archive loads, pair i is archive i's pair |
| ImagePairs.NpzSkip | views/image_pairs.py:101-104 | an archive that fails to load is skipped |
| ImagePairs.NpySkip | views/image_pairs.py:108-110 | an `_x.npy` without its `_y.npy` partner is skipped |
| ImagePairs.PartnerOf | views/image_pairs.py:109 | the partner of `<base>_x.npy` is `<base>_y.npy` whenever `_x.npy` does not already occur in the base |
| ImagePairs.Shown | views/image_pairs.py:167-176 | a side is shown as is exactly when both lists are non-empty (or it is empty already); otherwise it is cleared |
| ImagePairs.ImagePairsView.constructor | views/image_pairs.py:127-181 | the pairs are the discovered ones and the first pair is shown |
| ImagePairs.ImagePairsView.Update | views/image_pairs.py:158-178 | shows pair `idx mod n` and moves `idx` on by one |
| RaysAnimated.RayPaths | views/rays_animated.py:30-35 | one ray per transmitter–receiver pair |
| RaysAnimated.RayPathsAt | views/rays_animated.py:31-35 | ray `i*|rx| + j` goes from transmitter i to receiver j |
| RaysAnimated.LoadScene | views/rays_animated.py:11-37 | returns the demo transmitters and receivers and their rays |
| RaysAnimated.SegLengths | views/rays_animated.py:40-46 | one length per segment |
| RaysAnimated.PolylineLengths | views/rays_animated.py:40-46 | the loop yields the segment lengths and their sum |
| RaysAnimated.PointAlongPolyline | views/rays_animated.py:48-64 | the loop yields `PointAlong` of the points |
| RaysAnimated.ScanAlong | views/rays_animated.py:55-64 | the segment scan yields the point at the target length |
| RaysAnimated.AlongOnSegment | views/rays_animated.py:56-62 | a target inside the polyline's length lands on a segment, at a fraction in (0, 1] |
| RaysAnimated.PointOnSegment | views/rays_animated.py:48-64 | for 0 < t < 1 on a polyline of positive length the point interpolates one segment |
| RaysAnimated.PointAlong | views/rays_animated.py:48-64 | the point at a fraction of the length; `PointAlongPolyline` computes it, `PointOnSegment` and `AlongOnSegment` place it on a segment |
| RaysAnimated.FullPath | views/rays_animated.py:70 | the x and y lists of all the points |
| RaysAnimated.PartialFromShape | views/rays_animated.py:77-91 | the scan adds at most one point per remaining segment, and every point but the last is a vertex |
| RaysAnimated.PartialFrom | views/rays_animated.py:77-91 | the points of the prefix path from segment i; `PartialFromShape` states their shape, `CutPoint` and `ScanPartial` compute them |
| RaysAnimated.PartialPolyline | views/rays_animated.py:66-92 | frac ≤ 0 gives the first point; frac ≥ 1 gives the full path; the path starts at the first point and all but its last point are vertices |
| RaysAnimated.PartialScaled | views/rays_animated.py:72-92 | at most all the points, starting at the first one, all but the last being vertices |
| RaysAnimated.PartialPolylineLoop | views/rays_animated.py:66-92 | the loop yields `PartialPolyline` of the points |
| RaysAnimated.CutPoint | views/rays_animated.py:80-90 | the last point added where the target is reached |
| RaysAnimated.ScanPartial | views/rays_animated.py:74-92 | the segment loop yields the first point followed by the scan |
| RaysAnimated.AdvanceOk | views/rays_animated.py:183-223 | a tick keeps a ray in a valid state or finishes it, keeps its index, and finishes it only after its fourth particle |
| RaysAnimated.StepRay | views/rays_animated.py:181-223 | a growing or transmitting ray draws a line; a transmitting one draws a particle; one that finishes is scheduled again `now + 2.0` |
| RaysAnimated.Pending | views/rays_animated.py:166-169 | the activations left are all still in the future |
| RaysAnimated.RemoveAfter | views/rays_animated.py:169 | `remove` takes out the first equal entry |
| RaysAnimated.RemoveFirst | views/rays_animated.py:169 | `list.remove`; `RemoveAfter` states which entry goes |
| RaysAnimated.ActivateStep | views/rays_animated.py:166-169 | one turn of the loop over the copy of the schedule |
| RaysAnimated.ActivateDue | views/rays_animated.py:166-169 | the loop leaves the pending entries and appends the due rays in schedule order |
| RaysAnimated.ActivationKeepsRays | views/rays_animated.py:166-169 | every scheduled ray is either started or still pending |
| RaysAnimated.DueRaysOk | views/rays_animated.py:149-156 | the rays started are new growing rays of known indices |
| RaysAnimated.DueRays | views/rays_animated.py:166-169 | the rays started by the activation loop; `ActivateDue`, `DueRaysOk` and `ActivationKeepsRays` state them |
| RaysAnimated.StepKeepsOk | views/rays_animated.py:180-229 | the rays kept are known rays in valid states |
| RaysAnimated.StepKeepsRays | views/rays_animated.py:180-229 | every active ray is either kept or scheduled again |
| RaysAnimated.AddStepIds | views/rays_animated.py:213-229 | one ray's step keeps it or schedules it again |
| RaysAnimated.StepReactivates | views/rays_animated.py:220-223 | every re-activation is of a known ray at `now + 2.0` |
| RaysAnimated.StepDraws | views/rays_animated.py:180-211 | one line per active ray, of width in (1, 3], and one particle per transmitting ray |
| RaysAnimated.AddStepDraws | views/rays_animated.py:189-211 | one ray adds a line, and a particle if it is transmitting |
| RaysAnimated.StepOne | views/rays_animated.py:182-223 | the loop body for one ray computes `StepRay` |
| RaysAnimated.StepActive | views/rays_animated.py:171-229 | the loop over the active rays yields `StepRays` and appends the re-activations to the schedule |
| RaysAnimated.StepRays | views/rays_animated.py:180-229 | one pass over the active rays; `StepActive`, `StepDraws`, `StepKeepsOk`, `StepKeepsRays` and `StepReactivates` state it |
| RaysAnimated.InitialSchedule | views/rays_animated.py:139-142 | every entry is of a known ray |
| RaysAnimated.InitialScheduleAt | views/rays_animated.py:141-142 | ray i is due at `i * 0.2` |
| RaysAnimated.InitialScheduleRays | views/rays_animated.py:139-142 | every ray is scheduled exactly once |
| RaysAnimated.FirstTick | views/rays_animated.py:239 | at the first tick only ray 0 is due |
| RaysAnimated.PendingIn | views/rays_animated.py:166-169 | the pending entries are of known rays |
| RaysAnimated.Activated | views/rays_animated.py:166-169 | the active rays after activation are known rays in valid states |
| RaysAnimated.TickKeepsRays | views/rays_animated.py:161-236 | an update keeps every ray either active or scheduled, exactly once |
| RaysAnimated.SchedulesConcat | views/rays_animated.py:159 | appending known-ray entries keeps a schedule of known rays |
| RaysAnimated.AdvanceNAdd | views/rays_animated.py:183-223 | a+b ticks are a ticks then b ticks |
| RaysAnimated.Growth | views/rays_animated.py:183-188 | a ray grows by 0.03 per tick and starts transmitting at its 34th tick |
| RaysAnimated.Transmission | views/rays_animated.py:203-223 | a particle moves by 0.02 per tick and completes at the 50th tick; the fourth completion finishes the ray |
| RaysAnimated.FinishedStays | views/rays_animated.py:224-229 | a finished ray stays finished |
| RaysAnimated.AfterTransmissions | views/rays_animated.py:183-223 | after 34 + 50c ticks a ray has sent c particles |
| RaysAnimated.RayLifetime | views/rays_animated.py:183-223 | a new ray is finished after k ticks exactly when k ≥ 234 |
| RaysAnimated.Advance | views/rays_animated.py:183-223 | one tick of a ray's state machine; `AdvanceOk`, `Growth`, `Transmission` and `RayLifetime` state its behaviour |
| RaysAnimated.SendingAt | views/rays_animated.py:195-218 | part-way through a particle the ray is transmitting |
| RaysAnimated.FinishedAt | views/rays_animated.py:219-223 | from tick 234 on the ray is finished |
| RaysAnimated.SceneMeta | views/rays_animated.py:100-104 | one entry per ray path, holding that path |
| RaysAnimated.BuildMeta | views/rays_animated.py:100-104 | the loop builds `SceneMeta` |
| RaysAnimated.BuildSchedule | views/rays_animated.py:139-142 | the loop builds the initial schedule |
| RaysAnimated.FirstStep | views/rays_animated.py:239 | in the first update ray 0 grows to 0.03, its line has width 1.06, and there are no particles and no re-activations |
| RaysAnimated.FirstUpdate | views/rays_animated.py:239 | the first update activates ray 0 only, and leaves rays 1 and on scheduled |
| RaysAnimated.UpdateStep | views/rays_animated.py:165-229 | activation then the ray loop keep every ray active or scheduled exactly once, in valid states |
| RaysAnimated.RaysView.constructor | views/rays_animated.py:95-147 | with no rays nothing happens; otherwise after the first update ray 0 is growing, time is 0.05, and rays 1 and on are scheduled |
| RaysAnimated.RaysView.Update | views/rays_animated.py:161-236 | time moves on by 0.05; the active rays, lines, particles and schedule are those of one update; the invariant holds |
| PyStr.Split | get_data.py:10 | `str.split(sep)` gives at least one piece, none containing the separator |
| PyStr.JoinSplit | get_data.py:139 | joining the pieces of a split gives back the string |
| PyStr.Join | get_data.py:139 | `str.join`; `JoinSplit` and `SplitJoin` prove it inverts `split` |
| PyStr.SplitJoin | get_data.py:124 | splitting a join of separator-free pieces gives back the pieces |
| PyStr.SplitHead | views/classifier_output.py:10 | a separator-free prefix starts the first piece of a split |
| PyStr.SplitCons | get_data.py:124 | a separator-free head splits off as the first piece |
| PyStr.ReplaceAbsent | get_data.py:123 | replacing a pattern that cannot occur leaves the string unchanged |
| PyStr.ReplaceHere | get_data.py:123 | a leading occurrence is replaced and the scan goes on after it |
| PyStr.ReplaceRemoves | get_data.py:123 | replacing every `_` leaves no `_` |
| PyStr.Replace | get_data.py:123 | `str.replace`; `ReplaceAbsent`, `ReplaceHere`, `ReplaceRemoves` and `ReplaceNoMatch` state it |
| PyStr.ReplaceNoMatch | get_data.py:123 | a prefix in which the pattern never starts is copied unchanged |
| PyStr.ParseInt | get_data.py:10 | `int()` succeeds only on text holding a digit |
| PyStr.ParsePadded | get_data.py:10 | `int()` of a zero-padded decimal gives the number |
| PyStr.Strip | get_data.py:10 | the whitespace `int()` ignores around a number; `ParseUnicodeSpace` shows it includes Unicode spaces |
| PyStr.ParseUnicodeSpace | get_data.py:10 | `int()` ignores a no-break space and an ideographic space around the digits, but not U+001C |
| PyStr.Upper | get_data.py:131-132 | `str.upper`, ASCII only; `GetData.CapitalizeWord` states its effect on a word |
| PyStr.DecimalValue | views/kpi_graph.py:84-87 | the decimal digits of n have value n |
| PyDict.Get | views/rbs_assigned.py:13 | `d.get(k)` is missing exactly when k is not a key |
| PyDict.Put | get_data.py:118 | after `d[k] = v`, `d.get(k)` is v |
| PyDict.PutKeys | get_data.py:118 | an existing key keeps its position; a new key goes to the end |
| PyDict.PutUnique | get_data.py:118 | assignment keeps the keys distinct |
| PyDict.PutOther | get_data.py:118 | assignment leaves every other key's value alone |
| PyDict.GetAt | views/rbs_assigned.py:13 | with distinct keys, `d.get` of a stored key is its value |
| Sorting.Sort | get_data.py:184 | `sorted` returns a permutation of its input |
| Sorting.SortSorted | get_data.py:184 | the result of `sorted` is ordered |
| Sorting.SortStable | get_data.py:184 | elements with equal keys keep their relative order |
| ColumnDataSource.StreamKeepsLast | views/kpi_graph.py:53 | `stream` with rollover r keeps the last `min(len, r)` items of the data plus the new items |
| ColumnDataSource.StreamFits | views/loss_epoch.py:83 | below the rollover, `stream` appends |
| ColumnDataSource.Stream | views/kpi_graph.py:53 | `stream` with rollover; `StreamKeepsLast`, `StreamFits` and `LossEpoch.StreamNext` state it |

## Left out

- The MongoDB client, `.env` loading, the singleton `__new__` and the
  collection fallbacks in `load_csv`, `load_other_csv_columns` and
  `load_log_file`: the collections are inputs (`Store`). The `collection is
  None` branch of `load_csv` is not modelled, because the model always has a
  collection.
- `get_graph_values`, `get_graph_columns` and `get_rbs_assigned` are plain
  field reads; the views read the fields directly.
- Bokeh figures, styling, colours, layouts, `doc.add_root` and
  `add_periodic_callback`: the timer is modelled as calls to `Update`; tick
  intervals and the concurrency of several sessions and timers are not
  modelled.
- Logging (`print`, `traceback`) in the views' exception handlers.
- Floating point: times, fractions, coordinates and losses are exact reals;
  `math.hypot` is an input (`Hypot`). The loss values come from numpy
  random noise and are a constructor parameter; `np.linspace`, `sin` and
  `cos` of the synthetic image pairs are parameters (`sine`, `cosine`).
- numpy file loading (`np.load`, `ravel`, `tolist`): a file is given as its
  already-loaded content (`Content`), its array as shape plus flattened
  elements.
- The background image, the transmitter and receiver markers of the ray
  view, and `BACKGROUND_URL`.
- `ClassifierOutput.ClassifierView.Update`: the `Error` text of the handler
  is not modelled. With the typed dict of the model, `min`, `get` and `str`
  cannot raise.
- `KpiGraph.KpiView.constructor`: requires distinct column names. The
  database's six names are distinct (`GraphColumnNamesDistinct`). The line
  colour lookup `graph_line_colors[i]`, which would raise `IndexError`
  beyond six columns, is left out.
- `KpiGraph.KpiView.Update`: the first ticker assignment
  (`plot.xaxis.ticker = data['x']`), which the next line overwrites at once,
  is not modelled separately.
- `RaysAnimated.RaysView.constructor`: requires every ray path to hold at
  least one point; `point_along_polyline` and `partial_polyline` would raise
  `IndexError` on an empty path. The scene is a parameter; `LoadScene`
  models the demo loader that supplies it.
- `RaysAnimated.PartialPolyline`: requires a non-empty point list, except
  for `frac >= 1`, as above.
- `RaysAnimated.PointAlongPolyline`: requires a non-empty point list for
  every `t`, as above.
- The per-ray dicts of `active_rays` that `update` mutates in place are
  modelled as immutable `ActiveRay` values rebuilt by each tick; aliasing
  between `active_rays` and `still_active` is not modelled.
- `LossEpoch.LossEpochView.constructor`: the `try`/`except` around the
  setup, which only prints, is not modelled.
- `GetData.CapitalizeWord`: upper-cases ASCII letters only; Python's
  `str.upper()` also maps other letters and can lengthen a word
  (`'ß'.upper() == 'SS'`). The column names formatted are all ASCII.
- `PyStr.Upper`: ASCII-only upper-casing, for the same reason.
- `PyStr.ParseInt`: only ASCII digits are accepted; Python's `int()` also
  accepts other Unicode decimal digits. The surrounding whitespace it
  ignores is Python's, Unicode spaces included.
- `ClassifierOutput.Str`: class values are strings or missing; other
  stored types are not modelled.
- `GetData.LogData`: record fields are typed (`unix_epoch` an optional
  `int`, `readable_timestamp` an optional string). So the `except` fallback
  of the log sort, which keeps the entries unsorted when the epochs cannot
  be compared (get_data.py:70-74), is not modelled. Neither is the skip of
  an entry whose `readable_timestamp` is not a string.
- `GetData.Database.LoadCsv`: for the same reason, the `TypeError` of
  `sorted(..., key=lambda x: x['unix_epoch'])` on a `None` or mixed-type
  epoch (get_data.py:109, get_data.py:184) is not modelled. Neither is the
  skip of a record whose `readable_timestamp` is not a string.
