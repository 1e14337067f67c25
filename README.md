# GCodeProfiler core, modelled in Dafny

GCodeProfiler reads a sliced G-code file and reports how fast the printer moves and how much
plastic it pushes per second, layer by layer, next to the limits found in the slicer's
`config.ini`. This project models the computational core of that tool and proves what it
promises:

- `gcode.dfy`, `gcode_laws.dfy`: the `parse_gcode` state machine. Each line is classified in
  the parser's first-match-wins order (feature type, layer tag, Z comment, M82/M83, fan,
  temperatures, G0/G1). One step function and one imperative loop carry position, extruder,
  feed rate, extrusion mode, layer, feature type and setpoints, and append one move record per
  G0/G1 line. The laws: where the parser raises, one move per motion line, a continuous path
  from the origin, the physics of every record (time, speed, flow), last-setting-wins for every
  setting, and layer inference from `;Z:` comments.
- `stats.dfy`, `sorting.dfy`: `weighted_quantile`, `make_bins` and `bin_counts`, each as a
  method with loops, proved against a specification function whose properties are proved
  separately.
- `layers.dfy`, `layer_laws.dfy`, `summary.dfy`: `_aggregate_layers_for_export`, which groups
  the moves by layer and computes one Layers row per layer, and `build_json_summary`, which
  totals those rows. Every total of the summary is proved equal to the same sum over all
  moves. Every reported maximum is proved to be the value of a qualifying move.
- `compare.dfy`: the compare helpers of `write_xlsx`: the Z-sorted per-layer series, linear
  interpolation over Z, the common Z axis, the per-run dict of layer statistics, the summary
  rows with their deltas, and the spike-suppression rule.
- `config.dfy`: `_ini_value_to_float`, `parse_config_ini` and `config_get_float`.
- `gcode_sample.dfy`: lines as they are written. A `G0`/`G1` line with its axis words, a `;Z:`
  comment and a `;TYPE:` comment classify as the parser's regexes read them. The sample file
  of the parser's test, from its nine lines of text, parses into the moves and the layer map
  that the test checks.
- `text.dfy`, `wrappers.dfy`: the string helpers the core relies on (`str.strip`,
  `str.lower`, `float()` on the decimal grammar) and `Option`/`Result`.

The square root of the distance and the filament cross-section `pi * (d/2)^2` are parameters:
`dist` is any function, and the physical laws assume it is Euclidean (`IsEuclidean`). `area` is
a real, and the laws assume it is positive. Reals stand in for Python floats.

Where the code and its documentation differ, the model follows the code. A config line
`  = 5` is accepted with the empty key, because the pattern `^([^=]+?)\s*=` matches a run of
blanks before the `=`. A percentile can be None while the peak of the same layer is present
(every qualifying move takes zero time). `LayerLaws.ParsedSeriesPresence` shows this cannot
happen for moves the parser produces.

## Model

| member | source | states |
|---|---|---|
| GcodeParser.FilamentAreaSign | gcode_profiler/gcode_parser.py:4-6 | the filament cross-section is never negative and is positive exactly for a non-zero diameter |
| GcodeParser.Search | gcode_profiler/gcode_parser.py:98 | `re.search` returns the match at the first position where the pattern matches; None exactly when it matches nowhere |
| GcodeParser.FindParams | gcode_profiler/gcode_parser.py:89 | every axis word findall returns has one of the letters XYZEFS and a non-empty numeric token |
| GcodeParser.RunExtend | gcode_profiler/gcode_parser.py:92-242 | processing one more line is the run so far followed by that line's step; a line that raises ends the run with its 1-based number |
| GcodeParser.RunStopsAtFailure | gcode_profiler/gcode_parser.py:180 | once a line raises, the lines after it change nothing |
| GcodeParser.ExtruderStep | gcode_profiler/gcode_parser.py:190-200 | relative mode gives de = E and adds it; absolute mode gives de = E - e and jumps to E; no E gives de = 0; always ne = e + de |
| GcodeParser.MotionStep | gcode_profiler/gcode_parser.py:178-242 | the G0/G1 body gives exactly the step function's new state: target position, kept feed rate, extruder, and the appended record with length, time, speed, flow, fan percentage and setpoints |
| GcodeParser.ApplyCommand | gcode_profiler/gcode_parser.py:97-242 | the loop body for one classified line gives exactly the step function's state, or None where it raises |
| GcodeParser.ParseGcode | gcode_profiler/gcode_parser.py:54-244 | the parser loop returns the moves and layer map of running every line, or the number of the first line that raises |
| GcodeLaws.StepOutcome | gcode_profiler/gcode_parser.py:97-242 | a line raises exactly when it is G0/G1 with an axis value float() rejects; a G0/G1 line appends exactly one move and any other line none, earlier moves kept |
| GcodeLaws.RunOutcome | gcode_profiler/gcode_parser.py:92-244 | the parse fails exactly when some line raises, and then at the first such line; otherwise there is one move per G0/G1 line |
| GcodeLaws.TimeAndFlow | gcode_profiler/gcode_parser.py:207-214 | time is length over speed when the speed is known and the move has length, otherwise 0; flow is non-negative, positive exactly when the move takes time and extrudes, and then flow times time is de times area |
| GcodeLaws.RecordSound | gcode_profiler/gcode_parser.py:188-214 | a record whose speed, time and flow are computed as the parser computes them obeys all the physical laws of a move |
| GcodeLaws.NextMoveSound | gcode_profiler/gcode_parser.py:182-240 | every record a G0/G1 line appends obeys those laws |
| GcodeLaws.MotionShape | gcode_profiler/gcode_parser.py:218-242 | a G0/G1 line appends a move that starts at the current position in the current layer, and the position becomes its end |
| GcodeLaws.ZCommentPreserves | gcode_profiler/gcode_parser.py:111-126 | before any `;LAYER:` tag, a `;Z:` comment gives layer 0 the first time and advances the layer only on a rise above 1e-6; it records its Z under the current layer, and the layer never decreases; after a tag it only records its Z under the tagged layer; a token float() rejects leaves the state unchanged; nothing else changes |
| GcodeLaws.BookkeepingStep | gcode_profiler/gcode_parser.py:97-176 | every line other than G0/G1 and `;Z:` leaves moves and position alone, and keeps the layer unless it is a `;LAYER:` tag |
| GcodeLaws.StepPreserves | gcode_profiler/gcode_parser.py:97-242 | each line that does not raise keeps the run's invariant |
| GcodeLaws.RunInvariant | gcode_profiler/gcode_parser.py:63-244 | after any parsed prefix the moves form one path from (0,0,0) to the current position, every record obeys the physical laws, and without `;LAYER:` tags layers never decrease and never exceed the current one |
| GcodeLaws.SettledStep | gcode_profiler/gcode_parser.py:97-242 | one more line that does not raise keeps every setting equal to the last value set for it |
| GcodeLaws.RunSettled | gcode_profiler/gcode_parser.py:63-242 | after a parse, each axis is the last value given for it (0 before any), the feed rate the last F word, the mode the last M82/M83 (relative before any), the type the last `;TYPE:` (UNKNOWN before any), fan and temperatures the last value set; once a `;LAYER:` tag has been seen the layer is the last tag's number |
| GcodeLines.ResolveAxesFails | gcode_profiler/gcode_parser.py:180 | resolving a move's words fails exactly when one of their tokens does not parse |
| GcodeLines.ResolveAxesLastWins | gcode_profiler/gcode_parser.py:180-187 | each of X, Y, Z, E, F takes the value of the last word with that letter; an absent letter keeps the value it had |
| GcodeLines.NoTagWithoutSemicolon | gcode_profiler/gcode_parser.py:84-86 | none of the comment tags matches in a line without `;` |
| GcodeLines.ClassifyUncommented | gcode_profiler/gcode_parser.py:130-176 | without comments, M82, M83 and M107 lines and `G0 `/`G1 ` lines are classified by their prefix; an empty line is nothing |
| GcodeSample.ParamTextRead | gcode_profiler/gcode_parser.py:89 | axis words written out one after another with single spaces are found again by the parameter regex, all of them and in order |
| GcodeSample.MotionLine | gcode_profiler/gcode_parser.py:172-187 | a line `G0 `/`G1 ` followed by such words is a motion of that command whose axes are the words' float values, the last word per letter winning |
| GcodeSample.ZLine | gcode_profiler/gcode_parser.py:111-116 | `;Z:` followed by a numeric token is a Z comment carrying float() of that token |
| GcodeSample.TypeLine | gcode_profiler/gcode_parser.py:98-101 | `;TYPE:` followed by a name sets the feature type to the name with surrounding whitespace stripped |
| GcodeSample.ParseDecimal | gcode_profiler/gcode_parser.py:114 | float() of digits, a point and digits is the integer part plus the fraction over the matching power of ten |
| GcodeSample.FlowingMove | gcode_profiler/gcode_parser.py:180-215 | in relative mode, a G1 to a new point at a positive feed rate with a positive E appends a move with positive flow on the current layer and feature and ends at that point |
| GcodeSample.Advance | gcode_profiler/gcode_parser.py:92-242 | a line that does not raise continues the run with that line's step |
| GcodeSample.SampleClassifies | tests/test_gcode_parser.py:7-17 | the nine lines of the sample file classify to relative extrusion, the Z comments 0.2 and 0.4, the feature types Perimeter and Infill, and the four moves with their axis values |
| GcodeSample.SampleParses | tests/test_gcode_parser.py:4-29 | parse_gcode on the sample file returns four moves on layers 0, 0, 1, 1 (Perimeter, Perimeter, Infill, Infill), both extruding moves with positive flow, and the layer map {0: 0.2, 1: 0.4} |
| Stats.Clamp01 | gcode_profiler/stats.py:15 | q is clamped into [0, 1] and unchanged inside it |
| Stats.Participating | gcode_profiler/stats.py:17 | only pairs with positive weight take part |
| Stats.ParticipatingIncludes | gcode_profiler/stats.py:17 | every pair with positive weight takes part |
| Stats.ParticipatingSource | gcode_profiler/stats.py:17 | every participating pair is a (value, weight) of the input |
| Stats.SortedPairs | gcode_profiler/stats.py:20 | the participating pairs, sorted by value, are a permutation of them |
| Stats.Cutoff | gcode_profiler/stats.py:24 | the cutoff lies between 0 and the total weight, and is the total for q = 1 |
| Stats.WeightedQuantile | gcode_profiler/stats.py:3-30 | the method returns exactly the quantile specification: None, an error, or the value found by the scan |
| Stats.ScanToCutoff | gcode_profiler/stats.py:25-30 | the accumulating loop returns the first value whose running weight reaches the cutoff, else the last |
| Stats.FirstReachingScan | gcode_profiler/stats.py:25-30 | the value returned is at a position whose running sum reaches the cutoff (or the last), and every earlier running sum falls short |
| Stats.QuantileErrors | gcode_profiler/stats.py:9-14 | empty values give None before any length test; a length mismatch is the only error |
| Stats.QuantileDefaultWeights | gcode_profiler/stats.py:11-12 | no weights means all weights 1.0 |
| Stats.NoneParticipate | gcode_profiler/stats.py:17-19 | no pair takes part exactly when no weight is positive |
| Stats.QuantileNoneIffNoPositiveWeight | gcode_profiler/stats.py:17-23 | the result is None exactly when no weight is positive |
| Stats.QuantileIsParticipatingValue | gcode_profiler/stats.py:17-30 | a result is a value whose weight is positive |
| Stats.QuantileIsFirstToReachCutoff | gcode_profiler/stats.py:20-30 | the result is the first value in ascending order whose running weight is at least q times the total |
| Stats.QuantileAtZeroIsMinimum | gcode_profiler/stats.py:15-30 | q at or below 0 gives the smallest value of positive weight |
| Stats.QuantileAtOneIsMaximum | gcode_profiler/stats.py:15-30 | q at or above 1 gives the largest value of positive weight |
| Stats.QuantileWeightedTowardsLow | tests/test_stats.py:14-18 | with weights 9 and 1 on 0 and 100, the median is 0 |
| Stats.EqualWidthBins | gcode_profiler/stats.py:40-47 | `bins` intervals from min to max |
| Stats.EqualWidths | gcode_profiler/stats.py:40-44 | every interval has width (max - min) / bins |
| Stats.BinsInside | gcode_profiler/stats.py:40-47 | for min < max every interval is non-empty and inside [min, max] |
| Stats.AtLeastOne | gcode_profiler/stats.py:34-35 | a bin count below 1 counts as 1 |
| Stats.MakeBins | gcode_profiler/stats.py:33-47 | the loop builds exactly the specified intervals |
| Stats.MakeBinsShape | gcode_profiler/stats.py:33-47 | swapped bounds are reordered; equal bounds give the single (min, max); otherwise `bins` contiguous intervals from min to max |
| Stats.FirstBinFrom | gcode_profiler/stats.py:59-69 | the scan finds the first bin holding v (half-open, the last closed), or reports that none does |
| Stats.BinOf | gcode_profiler/stats.py:59-74 | every value lands in some bin |
| Stats.BinCounts | gcode_profiler/stats.py:50-75 | one count per bin, each the number of non-None values placed in that bin |
| Stats.CountsSumToNonNone | gcode_profiler/stats.py:55-75 | the counts add up to the number of non-None values |
| Stats.ContiguousBinOf | gcode_profiler/stats.py:59-74 | for contiguous bins a value inside the range lands in a bin holding it, below it in bin 0, above it in the last bin |
| Sorting.SortBy | gcode_profiler/stats.py:20 | the result is sorted by the key and is a permutation of the input |
| Sorting.SortByStable | gcode_profiler/stats.py:20 | the sort is stable: for every key, the elements with that key appear in the result in their input order |
| Sorting.SortedDistinct | gcode_profiler/excel_writer.py:1187 | `sorted(set(...))`: strictly increasing, with exactly the input's elements |
| LayerExport.MaxOf | gcode_profiler/excel_writer.py:1471 | `max` is an element at least as large as every element |
| LayerExport.GroupByLayer | gcode_profiler/excel_writer.py:1449-1451 | the grouping loop maps each layer to its moves in file order |
| LayerExport.CountShortFast | gcode_profiler/excel_writer.py:1500-1504 | the counter loop counts the extruding moves shorter than 0.6 mm and faster than 50 mm/s |
| LayerExport.BuildRows | gcode_profiler/excel_writer.py:1453-1534 | the row loop, threading the previous Z, produces the row of every key in order |
| LayerExport.AggregateLayersForExport | gcode_profiler/excel_writer.py:1442-1536 | the method returns exactly the specified Layers table |
| LayerLaws.SortedLayersLaws | gcode_profiler/excel_writer.py:1449-1455 | the rows' layers are strictly ascending, each is the layer of some move, and every move's layer is among them |
| LayerLaws.KeysLaws | gcode_profiler/excel_writer.py:1455-1460 | row i is over layer i's moves; its Z is the layer map's entry or the last move's z; the height is None on the first row and the Z step from the previous row after it |
| LayerLaws.TableKeysAt | gcode_profiler/excel_writer.py:1449-1457 | row i of the table is over the non-empty group of the i-th smallest layer |
| LayerLaws.RowOfShape | gcode_profiler/excel_writer.py:1462-1532 | a row's time, travel time, extrusion time, retraction count and length, and short-fast count are the corresponding sums and counts over its moves |
| LayerLaws.RowSums | gcode_profiler/excel_writer.py:1462-1498 | extrusion and retracted length are never negative; retracted length is positive exactly when there is a retraction, and the count is 0 exactly when no de is negative; travel and extrusion times are disjoint parts of the layer time |
| LayerLaws.RowAverages | gcode_profiler/excel_writer.py:1478-1507 | averages are present exactly when the layer takes time, and average speed times time is the distance; headroom is present exactly when limit and p99 are, and is limit minus p99 |
| LayerLaws.ValuesSource | gcode_profiler/excel_writer.py:1466-1469 | every entry of a selected series comes from a selected move, the same move for every quantity |
| LayerLaws.ValuesHas | gcode_profiler/excel_writer.py:1466-1469 | every selected move has its entry in the series |
| LayerLaws.PctLaws | gcode_profiler/excel_writer.py:1472-1476 | a percentile is None exactly when no weight is positive, otherwise a value of positive weight |
| LayerLaws.PeakLaws | gcode_profiler/excel_writer.py:1471-1474 | a peak is None exactly when no move qualifies, otherwise the largest qualifying value |
| LayerLaws.SeriesLaws | gcode_profiler/excel_writer.py:1466-1476 | a percentile is None exactly when no qualifying move takes time, otherwise such a move's value, never above the peak |
| LayerLaws.RetractSum | gcode_profiler/excel_writer.py:1496-1498 | the sum of negative deltas is never positive, and negative exactly when some move retracts |
| LayerLaws.TimeSplit | gcode_profiler/excel_writer.py:1493-1495 | travel time plus extrusion time never exceeds the layer time |
| LayerLaws.AverageLaws | gcode_profiler/excel_writer.py:1506-1507 | an average is present exactly when the time is positive, and times the time gives back the total |
| LayerLaws.ParsedSeriesPresence | gcode_profiler/excel_writer.py:1466-1476 | for parsed moves, a percentile is present exactly when the peak is |
| LayerLaws.InLayerMembers | gcode_profiler/excel_writer.py:1449-1451 | a layer's group holds exactly the moves of that layer |
| LayerLaws.InLayerLast | gcode_profiler/excel_writer.py:1457 | the last move of a group is the last move of the file in that layer |
| JsonSummary.MaxPresent | gcode_profiler/excel_writer.py:1548-1550 | `_max_of` is None exactly when every value is None, otherwise a present value no smaller than any other |
| JsonSummary.Partition | gcode_profiler/excel_writer.py:1542-1546 | summing a column per layer over distinct layers covering the moves gives the sum over all moves |
| JsonSummary.CountPartition | gcode_profiler/excel_writer.py:1545 | the same for counts |
| JsonSummary.TableColumns | gcode_profiler/excel_writer.py:1462-1498 | row i's columns are the sums over the i-th smallest layer's moves |
| JsonSummary.TableStats | gcode_profiler/excel_writer.py:1466-1476 | row i's statistics are those of the i-th smallest layer's moves |
| JsonSummary.ColumnTotal | gcode_profiler/excel_writer.py:1542-1546 | a column's total over the rows is the sum over all moves |
| JsonSummary.RetractTotal | gcode_profiler/excel_writer.py:1545 | the rows' retraction counts add up to the number of retracting moves |
| JsonSummary.SummaryTotal | gcode_profiler/excel_writer.py:1539-1558 | total time, travel time, extrusion time and retracted length equal the same sums over all moves |
| JsonSummary.SummaryRetractCount | gcode_profiler/excel_writer.py:1545-1557 | the summary counts every retracting move once |
| JsonSummary.SummaryShape | gcode_profiler/excel_writer.py:1553-1568 | the summary has one layer per distinct layer number and echoes both limits |
| JsonSummary.MaxOfPeaks | gcode_profiler/excel_writer.py:1548-1550 | the maximum of per-layer peaks is None exactly when no move qualifies, otherwise the largest qualifying value |
| JsonSummary.SummaryPeak | gcode_profiler/excel_writer.py:1559-1562 | a reported peak maximum is None exactly when no move qualifies, otherwise the value of a qualifying move, at least every qualifying value |
| JsonSummary.SummaryPercentile | gcode_profiler/excel_writer.py:1560-1564 | a reported percentile maximum is None exactly when no qualifying move takes time, otherwise the value of such a move |
| JsonSummary.PercentileBelowPeak | gcode_profiler/excel_writer.py:1559-1564 | a reported percentile maximum never exceeds the reported peak maximum of the same series |
| Compare.GroupInOrder | gcode_profiler/excel_writer.py:1079-1081 | the grouping loop gives each layer its moves and records the layers in first-seen order |
| Compare.FirstSeenLaws | gcode_profiler/excel_writer.py:1079-1084 | the dict's key order lists every layer of the moves exactly once |
| Compare.LayerStatsSeries | gcode_profiler/excel_writer.py:1074-1117 | the method returns exactly the specified series: one entry per layer in first-seen order, stably sorted by Z |
| Compare.LongSource | gcode_profiler/excel_writer.py:1098-1099 | every filtered value comes from a selected move lasting at least the minimum time |
| Compare.FilteredPeakCovers | gcode_profiler/excel_writer.py:1098-1103 | the filtered peak is at least every selected move lasting the minimum time |
| Compare.FilteredPeakLaws | gcode_profiler/excel_writer.py:1098-1103 | the filtered peak is None exactly when nothing is selected, otherwise a selected value never above the plain peak |
| Compare.FilteredPeakFallsBack | gcode_profiler/excel_writer.py:1101-1103 | when no selected move lasts long enough, the filtered peak is the plain peak |
| Compare.LayerSeriesMembers | gcode_profiler/excel_writer.py:1083-1116 | the series is sorted by Z, each entry is the entry of its own layer's moves, and every layer has one |
| Compare.LayerSeriesDistinct | gcode_profiler/excel_writer.py:1084-1116 | no layer has two entries |
| Compare.FirstAt | gcode_profiler/excel_writer.py:1132-1134 | the exact-match scan finds the first entry at that Z, or none |
| Compare.BisectLeft | gcode_profiler/excel_writer.py:1140 | `bisect_left`: every Z before the index is below the query, the one at it is not |
| Compare.InterpDefined | gcode_profiler/excel_writer.py:1125-1130 | interpolation is defined exactly inside the closed Z range of the series |
| Compare.InterpExact | gcode_profiler/excel_writer.py:1132-1134 | at an entry's Z the first entry at that Z comes back unchanged |
| Compare.InterpBetween | gcode_profiler/excel_writer.py:1140-1161 | between entries the result is interpolated from the two bracketing neighbours |
| Compare.InterpolateLaws | gcode_profiler/excel_writer.py:1149-1158 | an interpolated metric is None exactly when either end is None, and otherwise lies between the two ends |
| Compare.InterpolateLayer | gcode_profiler/excel_writer.py:1160 | the layer is that of the nearer neighbour, the lower one on a tie |
| Compare.CommonZLaws | gcode_profiler/excel_writer.py:1185-1187 | the compare axis is strictly increasing and holds exactly the Zs of either run |
| Compare.LayerStatsFromMoves | gcode_profiler/excel_writer.py:1237-1267 | the method returns exactly the specified dict: one entry per layer in first-seen order |
| Compare.RunGroupsLaws | gcode_profiler/excel_writer.py:1247-1252 | the dict has one entry per first-seen layer, each over that layer's moves |
| Compare.StatsEntry | gcode_profiler/excel_writer.py:1252-1266 | the n-th entry holds the time and statistics of the n-th layer's moves |
| Compare.SumOrNone | gcode_profiler/excel_writer.py:1223-1225 | `_sum_or_none` is None exactly when no entry has the value |
| Compare.TotalTimeOfRun | gcode_profiler/excel_writer.py:1270-1273 | the total time of a run is the time of all its moves, None for a run without moves |
| Compare.MaxKey | gcode_profiler/excel_writer.py:1276-1279 | `_max_key` is None exactly for an empty dict, otherwise the largest value, a missing one read as 0 |
| Compare.MetricOfMovesLaws | gcode_profiler/excel_writer.py:1254-1266 | a layer's peak or p95 is None when nothing qualifies, otherwise a qualifying move's value; a peak is at least every qualifying value |
| Compare.MaxOfRunBounds | gcode_profiler/excel_writer.py:1276-1284 | a run's peak maximum is at least every qualifying move's value |
| Compare.MaxOfRunSource | gcode_profiler/excel_writer.py:1276-1284 | a run's maximum is 0 or the value of a qualifying move |
| Compare.MaxOfRunZero | gcode_profiler/excel_writer.py:1276-1279 | a run with moves but no qualifying move reports 0 |
| Compare.MaxOfRun | gcode_profiler/excel_writer.py:1237-1284 | a run's maximum is None exactly when it has no moves; otherwise 0 or a qualifying value, 0 when nothing qualifies, and a peak bounds every qualifying value |
| Compare.Delta | gcode_profiler/excel_writer.py:1231-1234 | the delta is present exactly when both values are, and the reference plus the delta is the compared value |
| Compare.MetricRow | gcode_profiler/excel_writer.py:1227-1235 | the row is the label, the reference, then per compared run its value and its delta |
| Compare.SuppressSpikeLaws | gcode_profiler/excel_writer.py:552-563 | suppression keeps a peak present exactly when it was, never raises it, bounds it by 1.5 times p99, and is idempotent |
| Compare.SuppressedPeakLaws | gcode_profiler/excel_writer.py:544-563 | the capped peak is None exactly when nothing qualifies, otherwise a qualifying value between p99 and the raw peak |
| Text.Strip | gcode_profiler/config_ini.py:16 | `str.strip`: no blank at either end, empty exactly for an all-blank string |
| Text.ToLower | gcode_profiler/config_ini.py:19 | `str.lower`, letter by letter |
| Text.ParseFloat | gcode_profiler/config_ini.py:28-31 | `float()` accepts only text with a digit, and reads a digit string as its number |
| Text.ParseFloatNatToString | gcode_profiler/config_ini.py:28-31 | a numeral reads back as its number |
| Text.ParseFloatNegative | gcode_profiler/gcode_parser.py:89 | a leading minus negates the value and fails exactly when the rest fails |
| ConfigIni.IniValueToFloat | gcode_profiler/config_ini.py:3-31 | a number comes only from a present value that is not blank and not nil/none after trimming |
| ConfigIni.NilHasNoDigit | gcode_profiler/config_ini.py:19-20 | nil and none in any case carry no digit, no `%` and no quotes, so they give None |
| ConfigIni.IniPadded | gcode_profiler/config_ini.py:16 | surrounding blanks do not change the result |
| ConfigIni.IniQuoted | gcode_profiler/config_ini.py:21-22 | one pair of matching single or double quotes is removed |
| ConfigIni.IniPercent | gcode_profiler/config_ini.py:23-27 | a trailing `%` is dropped and the trimmed rest parsed |
| ConfigIni.IniNumeral | gcode_profiler/config_ini.py:28-31 | a numeral, with or without `%`, reads as its number |
| ConfigIni.FileLinesJoin | gcode_profiler/config_ini.py:40-41 | the file's lines put back together give the text |
| ConfigIni.FileLinesOneLine | gcode_profiler/config_ini.py:40-41 | each line the file yields holds a newline only as its last character |
| ConfigIni.ParseLine | gcode_profiler/config_ini.py:42-50 | a line gives an entry only when it is not blank or a comment and has a `=`; the key has no `=`, and key and value are trimmed |
| ConfigIni.ParseLineOfEntry | gcode_profiler/config_ini.py:45-50 | `key = value` reads back as that key and value |
| ConfigIni.ParseConfigIni | gcode_profiler/config_ini.py:34-51 | the loop builds exactly the dict of the file's lines, later lines overwriting earlier ones |
| ConfigIni.ConfigHas | gcode_profiler/config_ini.py:45-50 | a key is in the dict exactly when some line parses to it |
| ConfigIni.ConfigLastWins | gcode_profiler/config_ini.py:50 | the value of a key is that of the last line with that key |
| ConfigIni.ConfigSkips | gcode_profiler/config_ini.py:43-44 | a blank or comment line changes nothing |
| ConfigIni.ConfigGetFloat | gcode_profiler/config_ini.py:54-55 | a missing key gives None; a number comes only from a non-blank value that is not nil/none |
| ConfigIni.ReadBack | tests/test_config_ini.py:17-20 | a file with `key = n` gives n for that key |

## Left out

- File opening, decoding and line iteration in `parse_gcode` and `parse_config_ini`: the parser takes its lines without their newline, and the config parser takes the text. A lone `\r` as a line separator (universal newlines) is not modelled.
- Writing the sample file in tests/test_gcode_parser.py:5-19 is I/O: GcodeSample.SampleLines holds its nine lines as `parse_gcode` reads them.
- The progress callback of `parse_gcode` (gcode_profiler/gcode_parser.py:93-94), which is I/O.
- `math.sqrt` and `math.pi`: the distance is a function parameter and the cross-section a real parameter, as described above.
- Floating point: reals stand in for floats, so rounding, inf and nan are not modelled. `float()` is modelled on the decimal grammar (sign, digits, point, exponent) rather than left abstract; `inf`, `nan` and underscores in numerals are not accepted.
- `\d`, `\b` and `str.lower` are modelled on ASCII only. `str.isspace` (Text.IsSpace) is modelled on the full set of characters Python treats as whitespace.
- Text.ParseFloat accepts ASCII digits only, whereas `float()` also accepts other Unicode decimal digits (a fullwidth "２００" reads as 200.0); Text.ParseFloat returns None for them.
- Stats.Quantile takes values and weights as reals, so the filter of `weighted_quantile` that drops a pair whose value or weight is None (gcode_profiler/stats.py:17) is not modelled; every caller in the core passes lists without None.
- `math.isclose` in `make_bins` is modelled as equality.
- `make_bins` and `bin_counts` in gcode_profiler/gcode_parser.py:9-51 repeat those of gcode_profiler/stats.py and are modelled once.
- The layer Z of a row and of a series entry is always present, because every move carries a z. So the `z is None` branches of gcode_profiler/excel_writer.py:1116, 1125 and 1458-1460 are not modelled.
- Compare.InterpByZ requires its rows sorted by Z, as `bisect` does. Its fallback branches for an index at either end and for equal neighbouring Zs (gcode_profiler/excel_writer.py:1141-1148) cannot be reached under that order and are not modelled.
- The config limits enter the Layers table as optional reals; the `float()` conversion guarded by `try` at gcode_profiler/excel_writer.py:1482-1491 is not modelled.
- The inline per-layer loop of `write_xlsx` (gcode_profiler/excel_writer.py:165-284) is not modelled. It differs from `_aggregate_layers_for_export`: it sums net extrusion including retractions, adds a time-weighted fan average and carries temperature setpoints forward.
- The per-feature time per flow bin (gcode_profiler/excel_writer.py:645-653) is not modelled.
- The rest of `write_xlsx` is workbook rendering: sheets, charts, widths, formats and the dashboard, including the undefined `MIDDLE` reference swallowed at gcode_profiler/excel_writer.py:1424-1436. `write_csv_exports`, `_nice_major_unit` and gcode_profiler/cli.py are not part of this model.
