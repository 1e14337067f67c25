/**
  build_json_summary in gcode_profiler/excel_writer.py: the Layers table reduced to its
  number of rows, five column totals, the maxima of the six optional statistics and the
  two configured limits.

  The laws below tie the summary back to the moves: because the table has exactly one row
  per layer and a layer's row sums that layer's moves, every total of the summary is the
  same sum taken over all moves, and the maximum of the per-layer peaks is the peak over
  all moves.
*/
module JsonSummary {
  import opened Wrappers
  import opened GcodeParser
  import opened LayerExport
  import opened LayerLaws

  datatype Summary = Summary(
    layers: nat,
    totalTime: real, totalTravelTime: real, totalExtrudeTime: real,
    totalRetractCount: nat, totalRetractMm: real,
    maxPeakSpeed: Option<real>, maxP95Speed: Option<real>, maxP99Speed: Option<real>,
    maxPeakFlow: Option<real>, maxP95Flow: Option<real>, maxP99Flow: Option<real>,
    maxPrintSpeed: Option<real>, maxVolumetricSpeed: Option<real>)

  // ---------------------------------------------------------------------------
  // Totals and maxima over the rows
  // ---------------------------------------------------------------------------

  /** The real-valued columns the summary adds up. */
  datatype Column = TimeColumn | TravelTimeColumn | ExtrudeTimeColumn | RetractMmColumn

  function Field(c: Column, r: LayerRow): real {
    match c
    case TimeColumn => r.time
    case TravelTimeColumn => r.travelTime
    case ExtrudeTimeColumn => r.extrudeTime
    case RetractMmColumn => r.retractMm
  }

  /** `sum(r[c] for r in layers)`. */
  function Total(rows: seq<LayerRow>, c: Column): real {
    if |rows| == 0 then 0.0 else Total(rows[..|rows| - 1], c) + Field(c, rows[|rows| - 1])
  }

  /** `sum(r["retract_count"] for r in layers)`. */
  function TotalRetracts(rows: seq<LayerRow>): nat {
    if |rows| == 0 then 0 else TotalRetracts(rows[..|rows| - 1]) + rows[|rows| - 1].retractCount
  }

  /** The optional statistics whose maximum the summary reports. */
  datatype Stat = PeakSpeed | P95Speed | P99Speed | PeakFlow | P95Flow | P99Flow

  function StatOf(st: Stat, r: LayerRow): Option<real> {
    match st
    case PeakSpeed => r.peakSpeed
    case P95Speed => r.p95Speed
    case P99Speed => r.p99Speed
    case PeakFlow => r.peakFlow
    case P95Flow => r.p95Flow
    case P99Flow => r.p99Flow
  }

  function StatColumn(rows: seq<LayerRow>, st: Stat): seq<Option<real>> {
    seq(|rows|, i requires 0 <= i < |rows| => StatOf(st, rows[i]))
  }

  /** `_max_of`: the largest of the present values, None when every value is None. */
  function MaxPresent(vs: seq<Option<real>>): (r: Option<real>)
    ensures r.None? <==> forall i :: 0 <= i < |vs| ==> vs[i].None?
    ensures r.Some? ==> exists i :: 0 <= i < |vs| && vs[i] == r
    ensures r.Some? ==> forall i :: 0 <= i < |vs| && vs[i].Some? ==> vs[i].value <= r.value
  {
    if |vs| == 0 then None
    else
      var prev, last := MaxPresent(vs[..|vs| - 1]), vs[|vs| - 1];
      assert forall i :: 0 <= i < |vs| - 1 ==> vs[..|vs| - 1][i] == vs[i];
      if last.None? then prev
      else if prev.None? || last.value > prev.value then last
      else prev
  }

  /** The summary of a Layers table, with the limits echoed back. */
  function Summarize(rows: seq<LayerRow>, limits: Limits): Summary {
    Summary(
      |rows|,
      Total(rows, TimeColumn), Total(rows, TravelTimeColumn), Total(rows, ExtrudeTimeColumn),
      TotalRetracts(rows), Total(rows, RetractMmColumn),
      MaxPresent(StatColumn(rows, PeakSpeed)), MaxPresent(StatColumn(rows, P95Speed)),
      MaxPresent(StatColumn(rows, P99Speed)),
      MaxPresent(StatColumn(rows, PeakFlow)), MaxPresent(StatColumn(rows, P95Flow)),
      MaxPresent(StatColumn(rows, P99Flow)),
      limits.maxPrintSpeed, limits.maxVolumetricSpeed)
  }

  /** build_json_summary(moves, layer_z_map, config_info). */
  function BuildJsonSummary(moves: seq<Move>, layerZ: map<nat, real>, limits: Limits): Summary {
    Summarize(LayerRows(moves, layerZ, limits), limits)
  }

  // ---------------------------------------------------------------------------
  // What one layer contributes
  // ---------------------------------------------------------------------------

  /** The sum a column holds for a layer with moves ms. */
  function LayerSum(ms: seq<Move>, c: Column): real {
    match c
    case TimeColumn => Sum(ms, TimeOf, AllMoves)
    case TravelTimeColumn => Sum(ms, TimeOf, Travel)
    case ExtrudeTimeColumn => Sum(ms, TimeOf, TimedExtrude)
    case RetractMmColumn => -Sum(ms, DeOf, Retract)
  }

  /** What one move adds to a column's sum. */
  function Contribution(m: Move, c: Column): real {
    match c
    case TimeColumn => m.time
    case TravelTimeColumn => if Keeps(Travel, m) then m.time else 0.0
    case ExtrudeTimeColumn => if Keeps(TimedExtrude, m) then m.time else 0.0
    case RetractMmColumn => if Keeps(Retract, m) then -m.de else 0.0
  }

  lemma LayerSumSnoc(ms: seq<Move>, m: Move, c: Column)
    ensures LayerSum(ms + [m], c) == LayerSum(ms, c) + Contribution(m, c)
  {
    assert (ms + [m])[..|ms|] == ms;
  }

  lemma CountSnoc(ms: seq<Move>, m: Move, s: Selection)
    ensures Count(ms + [m], s) == Count(ms, s) + (if Keeps(s, m) then 1 else 0)
  {
    assert (ms + [m])[..|ms|] == ms;
  }

  /** The statistic a row holds for a layer with moves ms. */
  function LayerStat(ms: seq<Move>, st: Stat): Option<real> {
    match st
    case PeakSpeed => Peak(Values(ms, SpeedOf, HasSpeed))
    case P95Speed => Pct(Values(ms, SpeedOf, HasSpeed), Values(ms, TimeOf, HasSpeed), 0.95)
    case P99Speed => Pct(Values(ms, SpeedOf, HasSpeed), Values(ms, TimeOf, HasSpeed), 0.99)
    case PeakFlow => Peak(Values(ms, FlowOf, Flowing))
    case P95Flow => Pct(Values(ms, FlowOf, Flowing), Values(ms, TimeOf, Flowing), 0.95)
    case P99Flow => Pct(Values(ms, FlowOf, Flowing), Values(ms, TimeOf, Flowing), 0.99)
  }

  /** Every statistic is the peak or a percentile of one selected series. */
  lemma LayerStatSeries(ms: seq<Move>, st: Stat)
    ensures var q, s := ValueOf(st), SelectionOf(st);
      LayerStat(ms, st) == if IsPeak(st) then Peak(Values(ms, q, s)) else Pct(Values(ms, q, s), Values(ms, TimeOf, s), Level(st))
  {
  }

  function ValueOf(st: Stat): Quantity {
    if st == PeakSpeed || st == P95Speed || st == P99Speed then SpeedOf else FlowOf
  }

  function SelectionOf(st: Stat): Selection {
    if st == PeakSpeed || st == P95Speed || st == P99Speed then HasSpeed else Flowing
  }

  predicate IsPeak(st: Stat) {
    st == PeakSpeed || st == PeakFlow
  }

  function Level(st: Stat): real {
    if st == P95Speed || st == P95Flow then 0.95 else 0.99
  }

  // ---------------------------------------------------------------------------
  // The layers partition the moves
  // ---------------------------------------------------------------------------

  predicate Distinct(ls: seq<nat>) {
    forall i, j :: 0 <= i < j < |ls| ==> ls[i] != ls[j]
  }

  /** The per-layer sums of a column, added up over the layers ls. */
  function OverLayers(ls: seq<nat>, moves: seq<Move>, c: Column): real {
    if |ls| == 0 then 0.0
    else OverLayers(ls[..|ls| - 1], moves, c) + LayerSum(InLayer(moves, ls[|ls| - 1]), c)
  }

  /** The per-layer counts of a selection, added up over the layers ls. */
  function CountOverLayers(ls: seq<nat>, moves: seq<Move>, s: Selection): nat {
    if |ls| == 0 then 0
    else CountOverLayers(ls[..|ls| - 1], moves, s) + Count(InLayer(moves, ls[|ls| - 1]), s)
  }

  lemma DistinctPrefix(ls: seq<nat>)
    requires Distinct(ls) && |ls| > 0
    ensures Distinct(ls[..|ls| - 1])
    ensures ls[|ls| - 1] !in ls[..|ls| - 1]
    ensures ls == ls[..|ls| - 1] + [ls[|ls| - 1]]
  {
    var n := |ls| - 1;
    assert forall i :: 0 <= i < n ==> ls[..n][i] == ls[i];
  }

  lemma {:induction false} OverNoMoves(ls: seq<nat>, c: Column)
    ensures OverLayers(ls, [], c) == 0.0
  {
    if |ls| > 0 {
      OverNoMoves(ls[..|ls| - 1], c);
    }
  }

  lemma {:induction false} CountOverNoMoves(ls: seq<nat>, s: Selection)
    ensures CountOverLayers(ls, [], s) == 0
  {
    if |ls| > 0 {
      CountOverNoMoves(ls[..|ls| - 1], s);
    }
  }

  /** One more move adds its contribution once when its layer is among ls, and nothing otherwise. */
  lemma {:induction false} OverStep(ls: seq<nat>, ms: seq<Move>, m: Move, c: Column)
    requires Distinct(ls)
    ensures OverLayers(ls, ms + [m], c) == OverLayers(ls, ms, c) + (if m.layer in ls then Contribution(m, c) else 0.0)
  {
    if |ls| > 0 {
      var n := |ls| - 1;
      DistinctPrefix(ls);
      OverStep(ls[..n], ms, m, c);
      InLayerStep(ms, m, ls[n]);
      if m.layer == ls[n] {
        LayerSumSnoc(InLayer(ms, ls[n]), m, c);
      } else {
        assert InLayer(ms + [m], ls[n]) == InLayer(ms, ls[n]);
        assert m.layer in ls <==> m.layer in ls[..n];
      }
    }
  }

  lemma {:induction false} CountOverStep(ls: seq<nat>, ms: seq<Move>, m: Move, s: Selection)
    requires Distinct(ls)
    ensures CountOverLayers(ls, ms + [m], s) == CountOverLayers(ls, ms, s) + (if m.layer in ls && Keeps(s, m) then 1 else 0)
  {
    if |ls| > 0 {
      var n := |ls| - 1;
      DistinctPrefix(ls);
      CountOverStep(ls[..n], ms, m, s);
      InLayerStep(ms, m, ls[n]);
      if m.layer == ls[n] {
        CountSnoc(InLayer(ms, ls[n]), m, s);
      } else {
        assert InLayer(ms + [m], ls[n]) == InLayer(ms, ls[n]);
        assert m.layer in ls <==> m.layer in ls[..n];
      }
    }
  }

  /**
    When ls holds distinct layer numbers and every move's layer is among them, adding up
    the layers' sums gives the sum over all moves.
  */
  lemma {:induction false} Partition(ls: seq<nat>, ms: seq<Move>, c: Column)
    requires Distinct(ls) && forall k :: 0 <= k < |ms| ==> ms[k].layer in ls
    ensures OverLayers(ls, ms, c) == LayerSum(ms, c)
  {
    if |ms| == 0 {
      OverNoMoves(ls, c);
    } else {
      var n := |ms| - 1;
      assert ms == ms[..n] + [ms[n]];
      Partition(ls, ms[..n], c);
      OverStep(ls, ms[..n], ms[n], c);
      LayerSumSnoc(ms[..n], ms[n], c);
    }
  }

  lemma {:induction false} CountPartition(ls: seq<nat>, ms: seq<Move>, s: Selection)
    requires Distinct(ls) && forall k :: 0 <= k < |ms| ==> ms[k].layer in ls
    ensures CountOverLayers(ls, ms, s) == Count(ms, s)
  {
    if |ms| == 0 {
      CountOverNoMoves(ls, s);
    } else {
      var n := |ms| - 1;
      assert ms == ms[..n] + [ms[n]];
      CountPartition(ls, ms[..n], s);
      CountOverStep(ls, ms[..n], ms[n], s);
      CountSnoc(ms[..n], ms[n], s);
    }
  }

  // ---------------------------------------------------------------------------
  // From rows to layers
  // ---------------------------------------------------------------------------

  /** The totalled columns of a row are the sums of its layer's moves. */
  lemma RowColumns(key: LayerKey)
    ensures forall c :: Field(c, RowOf(key)) == LayerSum(key.ms, c)
    ensures RowOf(key).retractCount == Count(key.ms, Retract)
  {
    RowOfShape(key);
  }

  /** The six statistics of a row with moves ms, as the Layers table computes them. */
  predicate StatsOf(r: LayerRow, ms: seq<Move>) {
    var speeds, speedWeights := Values(ms, SpeedOf, HasSpeed), Values(ms, TimeOf, HasSpeed);
    var flows, flowWeights := Values(ms, FlowOf, Flowing), Values(ms, TimeOf, Flowing);
    (r.peakSpeed, r.p95Speed, r.p99Speed, r.peakFlow, r.p95Flow, r.p99Flow)
    == (Peak(speeds), Pct(speeds, speedWeights, 0.95), Pct(speeds, speedWeights, 0.99),
        Peak(flows), Pct(flows, flowWeights, 0.95), Pct(flows, flowWeights, 0.99))
  }

  lemma RowStatistics(key: LayerKey)
    ensures StatsOf(RowOf(key), key.ms)
  {
  }

  lemma StatOfRow(r: LayerRow, ms: seq<Move>, st: Stat)
    requires StatsOf(r, ms)
    ensures StatOf(st, r) == LayerStat(ms, st)
  {
    match st
    case PeakSpeed =>
    case P95Speed =>
    case P99Speed =>
    case PeakFlow =>
    case P95Flow =>
    case P99Flow =>
  }

  /** Row i of the table is the row of the i-th smallest layer's moves. */
  lemma TableRows(moves: seq<Move>, layerZ: map<nat, real>, limits: Limits)
    ensures |LayerRows(moves, layerZ, limits)| == |SortedLayers(moves)|
    ensures forall i :: 0 <= i < |SortedLayers(moves)| ==>
      var key := TableKeys(moves, layerZ, limits)[i];
      LayerRows(moves, layerZ, limits)[i] == RowOf(key) && key.ms == InLayer(moves, SortedLayers(moves)[i])
  {
    TableKeysAt(moves, layerZ, limits);
  }

  /** Row i of the table holds the column sums of the i-th smallest layer's moves. */
  lemma TableColumns(moves: seq<Move>, layerZ: map<nat, real>, limits: Limits)
    ensures |LayerRows(moves, layerZ, limits)| == |SortedLayers(moves)|
    ensures forall i, c :: 0 <= i < |SortedLayers(moves)| ==>
      Field(c, LayerRows(moves, layerZ, limits)[i]) == LayerSum(InLayer(moves, SortedLayers(moves)[i]), c)
    ensures forall i :: 0 <= i < |SortedLayers(moves)| ==>
      LayerRows(moves, layerZ, limits)[i].retractCount == Count(InLayer(moves, SortedLayers(moves)[i]), Retract)
  {
    TableRows(moves, layerZ, limits);
    forall key | key in TableKeys(moves, layerZ, limits) {
      RowColumns(key);
    }
  }

  /** Row i of the table holds the statistics of the i-th smallest layer's moves. */
  lemma TableStats(moves: seq<Move>, layerZ: map<nat, real>, limits: Limits, st: Stat)
    ensures |LayerRows(moves, layerZ, limits)| == |SortedLayers(moves)|
    ensures forall i :: 0 <= i < |SortedLayers(moves)| ==>
      StatOf(st, LayerRows(moves, layerZ, limits)[i]) == LayerStat(InLayer(moves, SortedLayers(moves)[i]), st)
  {
    TableRows(moves, layerZ, limits);
    var keys := TableKeys(moves, layerZ, limits);
    forall i | 0 <= i < |SortedLayers(moves)|
      ensures StatOf(st, LayerRows(moves, layerZ, limits)[i]) == LayerStat(InLayer(moves, SortedLayers(moves)[i]), st)
    {
      RowStatistics(keys[i]);
      StatOfRow(RowOf(keys[i]), keys[i].ms, st);
    }
  }

  /** A column's total is the sum of its per-layer sums, when row i holds layer ls[i]'s sum. */
  lemma {:induction false} TotalOverLayers(rows: seq<LayerRow>, ls: seq<nat>, moves: seq<Move>, c: Column)
    requires |rows| == |ls|
    requires forall i :: 0 <= i < |rows| ==> Field(c, rows[i]) == LayerSum(InLayer(moves, ls[i]), c)
    ensures Total(rows, c) == OverLayers(ls, moves, c)
  {
    if |rows| > 0 {
      var n := |rows| - 1;
      TotalOverLayers(rows[..n], ls[..n], moves, c);
    }
  }

  lemma {:induction false} RetractsOverLayers(rows: seq<LayerRow>, ls: seq<nat>, moves: seq<Move>)
    requires |rows| == |ls|
    requires forall i :: 0 <= i < |rows| ==> rows[i].retractCount == Count(InLayer(moves, ls[i]), Retract)
    ensures TotalRetracts(rows) == CountOverLayers(ls, moves, Retract)
  {
    if |rows| > 0 {
      var n := |rows| - 1;
      RetractsOverLayers(rows[..n], ls[..n], moves);
    }
  }

  lemma LayersCover(moves: seq<Move>)
    ensures Distinct(SortedLayers(moves))
    ensures forall k :: 0 <= k < |moves| ==> moves[k].layer in SortedLayers(moves)
  {
    SortedLayersLaws(moves);
  }

  /** A column total of the summary equals the same sum over all moves. */
  lemma ColumnTotal(moves: seq<Move>, layerZ: map<nat, real>, limits: Limits, c: Column)
    ensures Total(LayerRows(moves, layerZ, limits), c) == LayerSum(moves, c)
  {
    TableColumns(moves, layerZ, limits);
    LayersCover(moves);
    TotalOverLayers(LayerRows(moves, layerZ, limits), SortedLayers(moves), moves, c);
    Partition(SortedLayers(moves), moves, c);
  }

  /** The summary's retraction count is the number of retracting moves. */
  lemma RetractTotal(moves: seq<Move>, layerZ: map<nat, real>, limits: Limits)
    ensures TotalRetracts(LayerRows(moves, layerZ, limits)) == Count(moves, Retract)
  {
    TableColumns(moves, layerZ, limits);
    LayersCover(moves);
    RetractsOverLayers(LayerRows(moves, layerZ, limits), SortedLayers(moves), moves);
    CountPartition(SortedLayers(moves), moves, Retract);
  }

  /** The summary entry that reports a column's total. */
  function ReportedTotal(sm: Summary, c: Column): real {
    match c
    case TimeColumn => sm.totalTime
    case TravelTimeColumn => sm.totalTravelTime
    case ExtrudeTimeColumn => sm.totalExtrudeTime
    case RetractMmColumn => sm.totalRetractMm
  }

  /**
    Each total of the summary is the same sum over all moves: total time, travel time (no
    extrusion, positive length), extrusion time (positive de and time) and the retracted
    length (minus the sum of the negative extruder deltas).
  */
  lemma SummaryTotal(moves: seq<Move>, layerZ: map<nat, real>, limits: Limits, c: Column)
    ensures ReportedTotal(BuildJsonSummary(moves, layerZ, limits), c) == LayerSum(moves, c)
  {
    ColumnTotal(moves, layerZ, limits, c);
  }

  /** The summary counts every retracting move once. */
  lemma SummaryRetractCount(moves: seq<Move>, layerZ: map<nat, real>, limits: Limits)
    ensures BuildJsonSummary(moves, layerZ, limits).totalRetractCount == Count(moves, Retract)
  {
    RetractTotal(moves, layerZ, limits);
  }

  /** The summary has one layer per distinct layer number and echoes the two limits. */
  lemma SummaryShape(moves: seq<Move>, layerZ: map<nat, real>, limits: Limits)
    ensures var sm := BuildJsonSummary(moves, layerZ, limits);
      (sm.layers, sm.maxPrintSpeed, sm.maxVolumetricSpeed)
      == (|SortedLayers(moves)|, limits.maxPrintSpeed, limits.maxVolumetricSpeed)
  {
    TableKeysAt(moves, layerZ, limits);
  }

  // ---------------------------------------------------------------------------
  // The maxima
  // ---------------------------------------------------------------------------

  /** Where move k sits in its layer's group. */
  lemma InLayerPosition(moves: seq<Move>, k: nat) returns (j: nat)
    requires k < |moves|
    ensures j < |InLayer(moves, moves[k].layer)| && InLayer(moves, moves[k].layer)[j] == moves[k]
  {
    InLayerMembers(moves, moves[k].layer);
    assert moves[k] in moves;
    j :| 0 <= j < |InLayer(moves, moves[k].layer)| && InLayer(moves, moves[k].layer)[j] == moves[k];
  }

  /** Every member of a group is one of the moves. */
  lemma InLayerSource(moves: seq<Move>, l: nat, j: nat) returns (k: nat)
    requires j < |InLayer(moves, l)|
    ensures k < |moves| && moves[k] == InLayer(moves, l)[j]
  {
    InLayerMembers(moves, l);
    assert InLayer(moves, l)[j] in InLayer(moves, l);
    k :| 0 <= k < |moves| && moves[k] == InLayer(moves, l)[j];
  }

  /**
    The largest of the per-layer peaks is the peak over all moves: None exactly when no move
    is selected, otherwise the value of a selected move and at least that of every one.
  */
  lemma MaxOfPeaks(col: seq<Option<real>>, ls: seq<nat>, moves: seq<Move>, q: Quantity, s: Selection)
    requires |col| == |ls|
    requires forall i :: 0 <= i < |ls| ==> col[i] == Peak(Values(InLayer(moves, ls[i]), q, s))
    requires forall k :: 0 <= k < |moves| ==> moves[k].layer in ls
    ensures MaxPresent(col).None? <==> forall k :: 0 <= k < |moves| ==> !Keeps(s, moves[k])
    ensures MaxPresent(col).Some? ==>
      exists k :: 0 <= k < |moves| && Keeps(s, moves[k]) && Get(q, moves[k]) == MaxPresent(col).value
    ensures MaxPresent(col).Some? ==>
      forall k :: 0 <= k < |moves| && Keeps(s, moves[k]) ==> Get(q, moves[k]) <= MaxPresent(col).value
  {
    var r := MaxPresent(col);
    forall k | 0 <= k < |moves| && Keeps(s, moves[k])
      ensures r.Some? && Get(q, moves[k]) <= r.value
    {
      var i :| 0 <= i < |ls| && ls[i] == moves[k].layer;
      var j := InLayerPosition(moves, k);
      SeriesLaws(InLayer(moves, ls[i]), q, s, 0.0);
      assert col[i].Some?;
    }
    if r.Some? {
      var i :| 0 <= i < |col| && col[i] == r;
      var ms := InLayer(moves, ls[i]);
      SeriesLaws(ms, q, s, 0.0);
      var j :| 0 <= j < |ms| && Keeps(s, ms[j]) && Get(q, ms[j]) == r.value;
      var k := InLayerSource(moves, ls[i], j);
    }
  }

  /**
    The largest of the per-layer percentiles is None exactly when no selected move takes
    time, and is otherwise the value of a selected move that does.
  */
  lemma MaxOfPercentiles(col: seq<Option<real>>, ls: seq<nat>, moves: seq<Move>, q: Quantity, s: Selection, p: real)
    requires |col| == |ls|
    requires forall i :: 0 <= i < |ls| ==>
      col[i] == Pct(Values(InLayer(moves, ls[i]), q, s), Values(InLayer(moves, ls[i]), TimeOf, s), p)
    requires forall k :: 0 <= k < |moves| ==> moves[k].layer in ls
    ensures MaxPresent(col).None? <==>
      forall k :: 0 <= k < |moves| && Keeps(s, moves[k]) ==> moves[k].time <= 0.0
    ensures MaxPresent(col).Some? ==>
      exists k :: (0 <= k < |moves| && Keeps(s, moves[k]) && moves[k].time > 0.0
        && Get(q, moves[k]) == MaxPresent(col).value)
  {
    var r := MaxPresent(col);
    forall k | 0 <= k < |moves| && Keeps(s, moves[k]) && moves[k].time > 0.0
      ensures r.Some?
    {
      var i :| 0 <= i < |ls| && ls[i] == moves[k].layer;
      var j := InLayerPosition(moves, k);
      SeriesLaws(InLayer(moves, ls[i]), q, s, p);
      assert col[i].Some?;
    }
    if r.Some? {
      var i :| 0 <= i < |col| && col[i] == r;
      var ms := InLayer(moves, ls[i]);
      SeriesLaws(ms, q, s, p);
      var j :| 0 <= j < |ms| && Keeps(s, ms[j]) && ms[j].time > 0.0 && Get(q, ms[j]) == r.value;
      var k := InLayerSource(moves, ls[i], j);
    }
  }

  /** The summary entry that reports a statistic's maximum. */
  function ReportedMax(sm: Summary, st: Stat): Option<real> {
    match st
    case PeakSpeed => sm.maxPeakSpeed
    case P95Speed => sm.maxP95Speed
    case P99Speed => sm.maxP99Speed
    case PeakFlow => sm.maxPeakFlow
    case P95Flow => sm.maxP95Flow
    case P99Flow => sm.maxP99Flow
  }

  lemma ReportedColumn(moves: seq<Move>, layerZ: map<nat, real>, limits: Limits, st: Stat)
    ensures ReportedMax(BuildJsonSummary(moves, layerZ, limits), st)
      == MaxPresent(StatColumn(LayerRows(moves, layerZ, limits), st))
  {
  }

  /**
    max_peak_speed_mm_s and max_peak_flow_mm3_s are the peaks over all moves: None exactly
    when no move qualifies (a known speed and positive length; positive flow), otherwise
    the speed or flow of a qualifying move and at least that of every other one.
  */
  lemma SummaryPeak(moves: seq<Move>, layerZ: map<nat, real>, limits: Limits, st: Stat)
    requires IsPeak(st)
    ensures var r, q, s := ReportedMax(BuildJsonSummary(moves, layerZ, limits), st), ValueOf(st), SelectionOf(st);
      && (r.None? <==> forall k :: 0 <= k < |moves| ==> !Keeps(s, moves[k]))
      && (r.Some? ==> exists k :: 0 <= k < |moves| && Keeps(s, moves[k]) && Get(q, moves[k]) == r.value)
      && (r.Some? ==> forall k :: 0 <= k < |moves| && Keeps(s, moves[k]) ==> Get(q, moves[k]) <= r.value)
  {
    var rows, ls := LayerRows(moves, layerZ, limits), SortedLayers(moves);
    var col, q, s := StatColumn(rows, st), ValueOf(st), SelectionOf(st);
    TableStats(moves, layerZ, limits, st);
    LayersCover(moves);
    ReportedColumn(moves, layerZ, limits, st);
    forall i | 0 <= i < |ls|
      ensures col[i] == Peak(Values(InLayer(moves, ls[i]), q, s))
    {
      LayerStatSeries(InLayer(moves, ls[i]), st);
    }
    MaxOfPeaks(col, ls, moves, q, s);
  }

  /**
    The maxima of the per-layer p95 and p99 are None exactly when no qualifying move takes
    time, and are otherwise the speed or flow of a qualifying move that does.
  */
  lemma SummaryPercentile(moves: seq<Move>, layerZ: map<nat, real>, limits: Limits, st: Stat)
    requires !IsPeak(st)
    ensures var r, q, s := ReportedMax(BuildJsonSummary(moves, layerZ, limits), st), ValueOf(st), SelectionOf(st);
      && (r.None? <==> forall k :: 0 <= k < |moves| && Keeps(s, moves[k]) ==> moves[k].time <= 0.0)
      && (r.Some? ==> exists k :: (0 <= k < |moves| && Keeps(s, moves[k]) && moves[k].time > 0.0
                                  && Get(q, moves[k]) == r.value))
  {
    var rows, ls := LayerRows(moves, layerZ, limits), SortedLayers(moves);
    var col, q, s, p := StatColumn(rows, st), ValueOf(st), SelectionOf(st), Level(st);
    TableStats(moves, layerZ, limits, st);
    LayersCover(moves);
    ReportedColumn(moves, layerZ, limits, st);
    forall i | 0 <= i < |ls|
      ensures col[i] == Pct(Values(InLayer(moves, ls[i]), q, s), Values(InLayer(moves, ls[i]), TimeOf, s), p)
    {
      LayerStatSeries(InLayer(moves, ls[i]), st);
    }
    MaxOfPercentiles(col, ls, moves, q, s, p);
  }

  /** The peak of the series a percentile is taken over. */
  function PeakOf(st: Stat): Stat {
    if SelectionOf(st) == HasSpeed then PeakSpeed else PeakFlow
  }

  /** Each reported percentile maximum is at most the reported peak of the same series. */
  lemma PercentileBelowPeak(moves: seq<Move>, layerZ: map<nat, real>, limits: Limits, st: Stat)
    requires !IsPeak(st)
    ensures var sm := BuildJsonSummary(moves, layerZ, limits);
      ReportedMax(sm, st).Some? ==>
        ReportedMax(sm, PeakOf(st)).Some? && ReportedMax(sm, st).value <= ReportedMax(sm, PeakOf(st)).value
  {
    assert (ValueOf(PeakOf(st)), SelectionOf(PeakOf(st))) == (ValueOf(st), SelectionOf(st));
    SummaryPeak(moves, layerZ, limits, PeakOf(st));
    SummaryPercentile(moves, layerZ, limits, st);
  }
}
