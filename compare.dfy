/**
  Comparing runs: the per-layer series that two prints are aligned on, linear
  interpolation of that series over Z, the common Z axis of two runs, and the
  summary rows that set the totals and maxima of several runs side by side.

  Both per-layer helpers group the moves into a dict; a Python dict keeps the order in
  which its keys were first inserted, so the model keeps the layers in first-seen order
  and represents a dict keyed by layer as a sequence of (layer, entry) pairs with
  distinct layers.
*/
module Compare {
  import opened Wrappers
  import opened Sorting
  import opened GcodeParser
  import opened LayerExport
  import opened LayerLaws
  import JsonSummary

  // ---------------------------------------------------------------------------
  // Grouping in first-seen order
  // ---------------------------------------------------------------------------

  /** The layers of ms in the order they first occur: the key order of `by` after the grouping loop. */
  function FirstSeen(ms: seq<Move>): seq<nat> {
    if |ms| == 0 then []
    else
      var ls := FirstSeen(ms[..|ms| - 1]);
      if ms[|ms| - 1].layer in ls then ls else ls + [ms[|ms| - 1].layer]
  }

  /** Every layer of the moves occurs once in the first-seen order, and nothing else does. */
  lemma {:induction false} FirstSeenLaws(ms: seq<Move>)
    ensures JsonSummary.Distinct(FirstSeen(ms))
    ensures forall l :: l in FirstSeen(ms) <==> l in LayerSet(ms)
  {
    if |ms| > 0 {
      var n := |ms| - 1;
      FirstSeenLaws(ms[..n]);
      LayerSetStep(ms[..n], ms[n]);
      assert ms == ms[..n] + [ms[n]];
    }
  }

  lemma FirstSeenStep(ms: seq<Move>, m: Move)
    ensures FirstSeen(ms + [m]) == if m.layer in Groups(ms) then FirstSeen(ms) else FirstSeen(ms) + [m.layer]
  {
    assert (ms + [m])[..|ms|] == ms;
    FirstSeenLaws(ms);
  }

  lemma FirstSeenCover(ms: seq<Move>)
    ensures GroupsCover(FirstSeen(ms), Groups(ms))
  {
    FirstSeenLaws(ms);
    GroupsNonEmpty(ms);
    forall i | 0 <= i < |FirstSeen(ms)|
      ensures FirstSeen(ms)[i] in Groups(ms)
    {
      assert FirstSeen(ms)[i] in FirstSeen(ms);
    }
  }

  /** The key order after one more move is grouped: its layer is added when it is new. */
  method NoteLayer(order: seq<nat>, byLayer: map<nat, seq<Move>>, ghost done: seq<Move>, m: Move)
    returns (order': seq<nat>)
    requires byLayer == Groups(done) && order == FirstSeen(done)
    ensures order' == FirstSeen(done + [m])
  {
    FirstSeenStep(done, m);
    order' := if m.layer in byLayer then order else order + [m.layer];
  }

  /** The grouping loop of both helpers; `order` is the key order of the dict it fills. */
  method GroupInOrder(moves: seq<Move>) returns (byLayer: map<nat, seq<Move>>, order: seq<nat>)
    ensures byLayer == Groups(moves) && order == FirstSeen(moves)
  {
    byLayer, order := map[], [];
    var i := 0;
    while i < |moves|
      invariant 0 <= i <= |moves|
      invariant byLayer == Groups(moves[..i]) && order == FirstSeen(moves[..i])
    {
      order := NoteLayer(order, byLayer, moves[..i], moves[i]);
      byLayer := AddToGroup(byLayer, moves[..i], moves[i]);
      assert moves[..i + 1] == moves[..i] + [moves[i]];
      i := i + 1;
    }
    assert moves[..i] == moves;
  }

  // ---------------------------------------------------------------------------
  // _layer_stats_series
  // ---------------------------------------------------------------------------

  /** One entry of the series: a layer's statistics placed at its Z. */
  datatype SeriesRow = SeriesRow(
    z: real, layer: nat, time: real,
    peakFlow: Option<real>, p95Flow: Option<real>, peakSpeed: Option<real>, p95Speed: Option<real>)

  /** The selected values of the moves that last at least minTime (the filtered comprehensions). */
  function LongValues(ms: seq<Move>, q: Quantity, s: Selection, minTime: real): seq<real> {
    if |ms| == 0 then []
    else
      var m := ms[|ms| - 1];
      LongValues(ms[..|ms| - 1], q, s, minTime) + (if Keeps(s, m) && m.time >= minTime then [Get(q, m)] else [])
  }

  /** The peak over the selected moves lasting at least minTime, or over all selected moves when none does. */
  function FilteredPeak(ms: seq<Move>, q: Quantity, s: Selection, minTime: real): Option<real> {
    var long := LongValues(ms, q, s, minTime);
    if |long| > 0 then Some(MaxOf(long)) else Peak(Values(ms, q, s))
  }

  /** Everything one entry is computed from: the layer, its moves, its Z and the peak filter. */
  datatype SeriesKey = SeriesKey(layer: nat, ms: seq<Move>, z: real, minTime: real)

  /** The series entry of a key. */
  function RowFor(key: SeriesKey): SeriesRow {
    var ms := key.ms;
    SeriesRow(key.z, key.layer, Sum(ms, TimeOf, AllMoves),
      FilteredPeak(ms, FlowOf, Flowing, key.minTime), Pct(Values(ms, FlowOf, Flowing), Values(ms, TimeOf, Flowing), 0.95),
      FilteredPeak(ms, SpeedOf, HasSpeed, key.minTime), Pct(Values(ms, SpeedOf, HasSpeed), Values(ms, TimeOf, HasSpeed), 0.95))
  }

  /** The key of layer l whose moves are ms: its Z is the recorded one, or the Z of its last move. */
  function KeyFor(l: nat, ms: seq<Move>, layerZ: map<nat, real>, minTime: real): SeriesKey
    requires |ms| > 0
  {
    SeriesKey(l, ms, LayerZ(l, ms, layerZ), minTime)
  }

  /** The keys of the layers of order, in that order. */
  function SeriesKeys(order: seq<nat>, groups: map<nat, seq<Move>>, layerZ: map<nat, real>, minTime: real): seq<SeriesKey>
    requires GroupsCover(order, groups)
  {
    seq(|order|, i requires 0 <= i < |order| => KeyFor(order[i], groups[order[i]], layerZ, minTime))
  }

  function ZOf(r: SeriesRow): real {
    r.z
  }

  /** The keys of the series of a run, one per layer in first-seen order. */
  function RunKeys(moves: seq<Move>, layerZ: map<nat, real>, minTime: real): seq<SeriesKey> {
    FirstSeenCover(moves);
    SeriesKeys(FirstSeen(moves), Groups(moves), layerZ, minTime)
  }

  /** What _layer_stats_series returns: the entries in first-seen order, stably sorted by Z. */
  function LayerSeries(moves: seq<Move>, layerZ: map<nat, real>, minTime: real): seq<SeriesRow> {
    SortBy(MapSeq(RunKeys(moves, layerZ, minTime), RowFor), ZOf)
  }

  /**
    _layer_stats_series: groups the moves by layer, builds one entry per layer in the
    dict's key order, then sorts the entries by Z.
  */
  method LayerStatsSeries(moves: seq<Move>, layerZ: map<nat, real>, minTime: real) returns (rows: seq<SeriesRow>)
    ensures rows == LayerSeries(moves, layerZ, minTime)
  {
    var byLayer, order := GroupInOrder(moves);
    FirstSeenCover(moves);
    ghost var keys := SeriesKeys(order, byLayer, layerZ, minTime);
    rows := [];
    var i := 0;
    while i < |order|
      invariant 0 <= i <= |order|
      invariant rows == MapSeq(keys[..i], RowFor)
    {
      var l := order[i];
      var ms := byLayer[l];
      var z := if l in layerZ then layerZ[l] else ms[|ms| - 1].z;
      MapSeqSnoc(keys, i, RowFor);
      rows := rows + [RowFor(SeriesKey(l, ms, z, minTime))];
      i := i + 1;
    }
    assert keys[..i] == keys;
    rows := SortBy(rows, ZOf);
  }

  // ---------------------------------------------------------------------------
  // What the series promises
  // ---------------------------------------------------------------------------

  /** Every filtered value comes from a selected move lasting at least minTime. */
  lemma {:induction false} LongSource(ms: seq<Move>, q: Quantity, s: Selection, minTime: real, i: nat) returns (k: nat)
    requires i < |LongValues(ms, q, s, minTime)|
    ensures k < |ms| && Keeps(s, ms[k]) && ms[k].time >= minTime
    ensures Get(q, ms[k]) == LongValues(ms, q, s, minTime)[i]
  {
    var n := |ms| - 1;
    if i < |LongValues(ms[..n], q, s, minTime)| {
      k := LongSource(ms[..n], q, s, minTime, i);
      assert ms[..n][k] == ms[k];
    } else {
      k := n;
    }
  }

  /** Every selected move lasting at least minTime has its value among the filtered ones. */
  lemma {:induction false} LongHas(ms: seq<Move>, q: Quantity, s: Selection, minTime: real, k: nat) returns (i: nat)
    requires k < |ms| && Keeps(s, ms[k]) && ms[k].time >= minTime
    ensures i < |LongValues(ms, q, s, minTime)| && LongValues(ms, q, s, minTime)[i] == Get(q, ms[k])
  {
    var n := |ms| - 1;
    if k < n {
      assert ms[..n][k] == ms[k];
      i := LongHas(ms[..n], q, s, minTime, k);
    } else {
      i := |LongValues(ms[..n], q, s, minTime)|;
    }
  }

  /** The filtered peak is at least the value of every selected move lasting minTime or more. */
  lemma FilteredPeakCovers(ms: seq<Move>, q: Quantity, s: Selection, minTime: real, k: nat)
    requires k < |ms| && Keeps(s, ms[k]) && ms[k].time >= minTime
    ensures FilteredPeak(ms, q, s, minTime).Some? && Get(q, ms[k]) <= FilteredPeak(ms, q, s, minTime).value
  {
    var i := LongHas(ms, q, s, minTime, k);
  }

  /**
    The filtered peak is None exactly when no move is selected; otherwise it is the value of
    a selected move and at most the unfiltered peak.
  */
  lemma FilteredPeakLaws(ms: seq<Move>, q: Quantity, s: Selection, minTime: real)
    ensures var p := FilteredPeak(ms, q, s, minTime);
      && (p.None? <==> forall k :: 0 <= k < |ms| ==> !Keeps(s, ms[k]))
      && (p.Some? ==> exists k :: 0 <= k < |ms| && Keeps(s, ms[k]) && Get(q, ms[k]) == p.value)
      && (p.Some? ==> Peak(Values(ms, q, s)).Some? && p.value <= Peak(Values(ms, q, s)).value)
  {
    var long := LongValues(ms, q, s, minTime);
    PeakLaws(ms, q, s);
    if |long| > 0 {
      var i :| 0 <= i < |long| && long[i] == MaxOf(long);
      var k := LongSource(ms, q, s, minTime, i);
    }
  }

  /** When every selected move is shorter than minTime, the filtered peak is the plain peak. */
  lemma FilteredPeakFallsBack(ms: seq<Move>, q: Quantity, s: Selection, minTime: real)
    requires forall k :: 0 <= k < |ms| && Keeps(s, ms[k]) ==> ms[k].time < minTime
    ensures FilteredPeak(ms, q, s, minTime) == Peak(Values(ms, q, s))
  {
    if |LongValues(ms, q, s, minTime)| > 0 {
      var k := LongSource(ms, q, s, minTime, 0);
      assert false;
    }
  }

  /** The keys of a run: one per layer in first-seen order, each over that layer's moves. */
  lemma RunKeysLaws(moves: seq<Move>, layerZ: map<nat, real>, minTime: real)
    ensures |RunKeys(moves, layerZ, minTime)| == |FirstSeen(moves)|
    ensures var keys := RunKeys(moves, layerZ, minTime);
      forall k :: 0 <= k < |keys| ==>
        keys[k].layer == FirstSeen(moves)[k] && keys[k].ms == InLayer(moves, keys[k].layer) && |keys[k].ms| > 0
        && keys[k] == KeyFor(keys[k].layer, keys[k].ms, layerZ, minTime)
  {
    FirstSeenCover(moves);
  }

  lemma RowForShape(key: SeriesKey)
    ensures RowFor(key).layer == key.layer && RowFor(key).z == key.z
  {
  }

  /** Where an element of a permutation came from. */
  lemma PermutedFrom<T>(a: seq<T>, b: seq<T>, i: nat) returns (k: nat)
    requires multiset(a) == multiset(b) && i < |a|
    ensures k < |b| && b[k] == a[i]
  {
    assert a[i] in multiset(b);
    k :| 0 <= k < |b| && b[k] == a[i];
  }

  /** Each entry of the series is the entry of its own layer's moves. */
  lemma LayerSeriesEntry(moves: seq<Move>, layerZ: map<nat, real>, minTime: real, i: nat)
    requires i < |LayerSeries(moves, layerZ, minTime)|
    ensures var r := LayerSeries(moves, layerZ, minTime)[i];
      r.layer in LayerSet(moves) && |InLayer(moves, r.layer)| > 0
      && r == RowFor(KeyFor(r.layer, InLayer(moves, r.layer), layerZ, minTime))
  {
    var rows := LayerSeries(moves, layerZ, minTime);
    FirstSeenLaws(moves);
    var keys := RunKeys(moves, layerZ, minTime);
    RunKeysLaws(moves, layerZ, minTime);
    var u := MapSeq(keys, RowFor);
    var k := PermutedFrom(rows, u, i);
    RowForShape(keys[k]);
    assert FirstSeen(moves)[k] in FirstSeen(moves);
  }

  /** Every layer of the moves has an entry in the series. */
  lemma LayerSeriesHas(moves: seq<Move>, layerZ: map<nat, real>, minTime: real, l: nat)
    requires l in LayerSet(moves)
    ensures exists i :: 0 <= i < |LayerSeries(moves, layerZ, minTime)| && LayerSeries(moves, layerZ, minTime)[i].layer == l
  {
    var rows := LayerSeries(moves, layerZ, minTime);
    FirstSeenLaws(moves);
    var keys := RunKeys(moves, layerZ, minTime);
    RunKeysLaws(moves, layerZ, minTime);
    var u := MapSeq(keys, RowFor);
    var k :| 0 <= k < |FirstSeen(moves)| && FirstSeen(moves)[k] == l;
    RowForShape(keys[k]);
    var i := PermutedFrom(u, rows, k);
  }

  /**
    The series is sorted by Z, and its entries are exactly the entries of the layers of
    the moves: each one is the entry of its own layer's moves, and every layer has one.
  */
  lemma LayerSeriesMembers(moves: seq<Move>, layerZ: map<nat, real>, minTime: real)
    ensures SortedBy(LayerSeries(moves, layerZ, minTime), ZOf)
    ensures var rows := LayerSeries(moves, layerZ, minTime);
      forall i :: 0 <= i < |rows| ==>
        rows[i].layer in LayerSet(moves) && |InLayer(moves, rows[i].layer)| > 0
        && rows[i] == RowFor(KeyFor(rows[i].layer, InLayer(moves, rows[i].layer), layerZ, minTime))
    ensures var rows := LayerSeries(moves, layerZ, minTime);
      forall l :: l in LayerSet(moves) ==> exists i :: 0 <= i < |rows| && rows[i].layer == l
  {
    forall i | 0 <= i < |LayerSeries(moves, layerZ, minTime)| {
      LayerSeriesEntry(moves, layerZ, minTime, i);
    }
    forall l | l in LayerSet(moves) {
      LayerSeriesHas(moves, layerZ, minTime, l);
    }
  }

  lemma {:induction false} NoRepeatsCount<T>(s: seq<T>, x: T)
    requires forall i, j :: 0 <= i < j < |s| ==> s[i] != s[j]
    ensures multiset(s)[x] <= 1
  {
    if |s| > 0 {
      var n := |s| - 1;
      assert s == s[..n] + [s[n]];
      NoRepeatsCount(s[..n], x);
      if s[n] == x {
        assert x !in s[..n];
      }
    }
  }

  lemma RepeatCount<T>(s: seq<T>, i: nat, j: nat)
    requires i < j < |s| && s[i] == s[j]
    ensures multiset(s)[s[i]] >= 2
  {
    assert s == s[..j] + [s[j]] + s[j + 1..];
    assert s[..j][i] == s[i];
  }

  /** A permutation of a sequence without repeats has none either. */
  lemma NoRepeatsPermuted<T>(a: seq<T>, b: seq<T>)
    requires multiset(a) == multiset(b)
    requires forall i, j :: 0 <= i < j < |b| ==> b[i] != b[j]
    ensures forall i, j :: 0 <= i < j < |a| ==> a[i] != a[j]
  {
    forall i, j | 0 <= i < j < |a|
      ensures a[i] != a[j]
    {
      if a[i] == a[j] {
        RepeatCount(a, i, j);
        NoRepeatsCount(b, a[i]);
        assert false;
      }
    }
  }

  /** No layer has two entries in the series. */
  lemma LayerSeriesDistinct(moves: seq<Move>, layerZ: map<nat, real>, minTime: real)
    ensures var rows := LayerSeries(moves, layerZ, minTime);
      forall i, j :: 0 <= i < j < |rows| ==> rows[i].layer != rows[j].layer
  {
    var rows := LayerSeries(moves, layerZ, minTime);
    FirstSeenCover(moves);
    FirstSeenLaws(moves);
    var keys := RunKeys(moves, layerZ, minTime);
    RunKeysLaws(moves, layerZ, minTime);
    var u := MapSeq(keys, RowFor);
    forall i, j | 0 <= i < j < |u|
      ensures u[i] != u[j]
    {
      RowForShape(keys[i]);
      RowForShape(keys[j]);
    }
    NoRepeatsPermuted(rows, u);
    forall i, j | 0 <= i < j < |rows|
      ensures rows[i].layer != rows[j].layer
    {
      LayerSeriesEntry(moves, layerZ, minTime, i);
      LayerSeriesEntry(moves, layerZ, minTime, j);
    }
  }

  // ---------------------------------------------------------------------------
  // _interp_by_z
  // ---------------------------------------------------------------------------

  /** The first entry at Z exactly zq (the exact-match scan), if any. */
  function FirstAt(rows: seq<SeriesRow>, zq: real): (r: Option<nat>)
    ensures r.Some? ==> r.value < |rows| && rows[r.value].z == zq
    ensures r.Some? ==> forall j :: 0 <= j < r.value ==> rows[j].z != zq
    ensures r.None? <==> forall j :: 0 <= j < |rows| ==> rows[j].z != zq
  {
    if |rows| == 0 then None
    else if rows[0].z == zq then Some(0)
    else match FirstAt(rows[1..], zq)
      case None => None
      case Some(i) => Some(i + 1)
  }

  /** `bisect.bisect_left` over the Zs: the first position whose Z is not below x. */
  function BisectLeft(rows: seq<SeriesRow>, x: real): (idx: nat)
    ensures idx <= |rows|
    ensures forall j :: 0 <= j < idx ==> rows[j].z < x
    ensures idx < |rows| ==> rows[idx].z >= x
  {
    if |rows| == 0 || rows[0].z >= x then 0 else 1 + BisectLeft(rows[1..], x)
  }

  /** `(1 - t) * v0 + t * v1`. */
  function Lerp(v0: real, v1: real, t: real): real {
    (1.0 - t) * v0 + t * v1
  }

  /** An interpolated metric: None when either end is missing. */
  function LerpOption(v0: Option<real>, v1: Option<real>, t: real): Option<real> {
    if v0.None? || v1.None? then None else Some(Lerp(v0.value, v1.value, t))
  }

  /** The fraction of the way from r0's Z to r1's Z at which zq lies. */
  function Fraction(r0: SeriesRow, r1: SeriesRow, zq: real): real
    requires r0.z < r1.z
  {
    (zq - r0.z) / (r1.z - r0.z)
  }

  /** The entry made up between two neighbours: every metric interpolated, the layer of the nearer one. */
  function Interpolate(r0: SeriesRow, r1: SeriesRow, zq: real): SeriesRow
    requires r0.z < r1.z
  {
    var t := Fraction(r0, r1, zq);
    SeriesRow(zq, if zq - r0.z <= r1.z - zq then r0.layer else r1.layer,
      Lerp(r0.time, r1.time, t),
      LerpOption(r0.peakFlow, r1.peakFlow, t), LerpOption(r0.p95Flow, r1.p95Flow, t),
      LerpOption(r0.peakSpeed, r1.peakSpeed, t), LerpOption(r0.p95Speed, r1.p95Speed, t))
  }

  /**
    _interp_by_z over a series sorted by Z: None outside the Z range, the first entry at
    zq when there is one, otherwise the interpolation between the neighbours of zq.
  */
  function InterpByZ(rows: seq<SeriesRow>, zq: real): Option<SeriesRow>
    requires SortedBy(rows, ZOf)
  {
    if |rows| == 0 || zq < rows[0].z || zq > rows[|rows| - 1].z then None
    else match FirstAt(rows, zq)
      case Some(i) => Some(rows[i])
      case None =>
        var idx := BisectLeft(rows, zq);
        Some(Interpolate(rows[idx - 1], rows[idx], zq))
  }

  // ---------------------------------------------------------------------------
  // What interpolation promises
  // ---------------------------------------------------------------------------

  lemma ProductNonNegative(a: real, b: real)
    requires a >= 0.0 && b >= 0.0
    ensures a * b >= 0.0
  {
  }

  lemma FractionBetween(r0: SeriesRow, r1: SeriesRow, zq: real)
    requires r0.z < zq < r1.z
    ensures 0.0 < Fraction(r0, r1, zq) < 1.0
  {
    var t, a, b := Fraction(r0, r1, zq), zq - r0.z, r1.z - r0.z;
    assert t * b == a;
    if t <= 0.0 {
      ProductNonNegative(-t, b);
    } else if t >= 1.0 {
      ProductNonNegative(t - 1.0, b);
    }
  }

  /** A value interpolated strictly inside lies between the two ends. */
  lemma LerpBetween(v0: real, v1: real, t: real)
    requires 0.0 < t < 1.0
    ensures v0 <= v1 ==> v0 <= Lerp(v0, v1, t) <= v1
    ensures v1 <= v0 ==> v1 <= Lerp(v0, v1, t) <= v0
  {
    var d := v1 - v0;
    assert Lerp(v0, v1, t) == v0 + t * d;
    if v0 <= v1 {
      ProductNonNegative(t, d);
      ProductNonNegative(1.0 - t, d);
    } else {
      ProductNonNegative(t, -d);
      ProductNonNegative(1.0 - t, -d);
    }
  }

  /** The series is defined exactly on the closed Z range of its entries. */
  lemma InterpDefined(rows: seq<SeriesRow>, zq: real)
    requires SortedBy(rows, ZOf)
    ensures InterpByZ(rows, zq).Some? <==>
      exists i, j :: 0 <= i < |rows| && 0 <= j < |rows| && rows[i].z <= zq <= rows[j].z
  {
    if exists i, j :: 0 <= i < |rows| && 0 <= j < |rows| && rows[i].z <= zq <= rows[j].z {
      var i, j :| 0 <= i < |rows| && 0 <= j < |rows| && rows[i].z <= zq <= rows[j].z;
      assert ZOf(rows[0]) <= ZOf(rows[i]) && ZOf(rows[j]) <= ZOf(rows[|rows| - 1]);
    }
  }

  /** At the Z of an entry the series gives back the first entry at that Z, unchanged. */
  lemma InterpExact(rows: seq<SeriesRow>, k: nat)
    requires SortedBy(rows, ZOf) && k < |rows|
    ensures var r := InterpByZ(rows, rows[k].z);
      r.Some? && r.value.z == rows[k].z
      && exists i :: 0 <= i <= k && r.value == rows[i] && forall j :: 0 <= j < i ==> rows[j].z != rows[k].z
  {
    assert ZOf(rows[0]) <= ZOf(rows[k]) <= ZOf(rows[|rows| - 1]);
    assert FirstAt(rows, rows[k].z).Some?;
  }

  /**
    Between two entries the series is made up from the two neighbours of zq: the entries
    just below and just above it.
  */
  lemma InterpBetween(rows: seq<SeriesRow>, zq: real) returns (idx: nat)
    requires SortedBy(rows, ZOf) && |rows| > 0 && rows[0].z <= zq <= rows[|rows| - 1].z
    requires forall j :: 0 <= j < |rows| ==> rows[j].z != zq
    ensures 0 < idx < |rows| && rows[idx - 1].z < zq < rows[idx].z
    ensures InterpByZ(rows, zq) == Some(Interpolate(rows[idx - 1], rows[idx], zq))
  {
    idx := BisectLeft(rows, zq);
  }

  /** The metrics a series entry carries; the time is always present. */
  datatype Metric = TimeMetric | PeakFlowMetric | P95FlowMetric | PeakSpeedMetric | P95SpeedMetric

  function MetricOf(r: SeriesRow, k: Metric): Option<real> {
    match k
    case TimeMetric => Some(r.time)
    case PeakFlowMetric => r.peakFlow
    case P95FlowMetric => r.p95Flow
    case PeakSpeedMetric => r.peakSpeed
    case P95SpeedMetric => r.p95Speed
  }

  /**
    An interpolated entry sits at zq; each metric is missing exactly when it is missing at
    either neighbour and otherwise lies between the neighbours' values; its layer is the
    nearer neighbour's, the lower one on a tie.
  */
  lemma InterpolateLaws(r0: SeriesRow, r1: SeriesRow, zq: real, k: Metric)
    requires r0.z < zq < r1.z
    ensures var r := Interpolate(r0, r1, zq);
      && r.z == zq
      && (MetricOf(r, k).None? <==> MetricOf(r0, k).None? || MetricOf(r1, k).None?)
      && (MetricOf(r, k).Some? && MetricOf(r0, k).value <= MetricOf(r1, k).value ==>
            MetricOf(r0, k).value <= MetricOf(r, k).value <= MetricOf(r1, k).value)
      && (MetricOf(r, k).Some? && MetricOf(r1, k).value <= MetricOf(r0, k).value ==>
            MetricOf(r1, k).value <= MetricOf(r, k).value <= MetricOf(r0, k).value)
  {
    var t := Fraction(r0, r1, zq);
    FractionBetween(r0, r1, zq);
    if MetricOf(r0, k).Some? && MetricOf(r1, k).Some? {
      LerpBetween(MetricOf(r0, k).value, MetricOf(r1, k).value, t);
    }
  }

  lemma InterpolateLayer(r0: SeriesRow, r1: SeriesRow, zq: real)
    requires r0.z < zq < r1.z
    ensures Interpolate(r0, r1, zq).layer == r0.layer || Interpolate(r0, r1, zq).layer == r1.layer
    ensures zq - r0.z < r1.z - zq ==> Interpolate(r0, r1, zq).layer == r0.layer
    ensures r1.z - zq < zq - r0.z ==> Interpolate(r0, r1, zq).layer == r1.layer
    ensures zq - r0.z == r1.z - zq ==> Interpolate(r0, r1, zq).layer == r0.layer
  {
  }

  // ---------------------------------------------------------------------------
  // The common Z axis of two runs
  // ---------------------------------------------------------------------------

  /** `sorted(set(zA) | set(zB))`: every Z of either series, once each, ascending. */
  function CommonZ(aRows: seq<SeriesRow>, bRows: seq<SeriesRow>): seq<real> {
    SortedDistinct(MapSeq(aRows, ZOf) + MapSeq(bRows, ZOf))
  }

  /**
    The axis is strictly increasing and holds exactly the Zs of the two series.
  */
  lemma CommonZLaws(aRows: seq<SeriesRow>, bRows: seq<SeriesRow>)
    ensures StrictlyIncreasing(CommonZ(aRows, bRows))
    ensures forall z :: z in CommonZ(aRows, bRows) <==>
      (exists i :: 0 <= i < |aRows| && aRows[i].z == z) || (exists j :: 0 <= j < |bRows| && bRows[j].z == z)
  {
    var zs := MapSeq(aRows, ZOf) + MapSeq(bRows, ZOf);
    forall z | z in zs
      ensures (exists i :: 0 <= i < |aRows| && aRows[i].z == z) || (exists j :: 0 <= j < |bRows| && bRows[j].z == z)
    {
      var k :| 0 <= k < |zs| && zs[k] == z;
      if k < |aRows| {
        assert zs[k] == MapSeq(aRows, ZOf)[k] == ZOf(aRows[k]);
      } else {
        assert zs[k] == MapSeq(bRows, ZOf)[k - |aRows|] == ZOf(bRows[k - |aRows|]);
      }
    }
    forall z | (exists i :: 0 <= i < |aRows| && aRows[i].z == z) || (exists j :: 0 <= j < |bRows| && bRows[j].z == z)
      ensures z in zs
    {
      if i :| 0 <= i < |aRows| && aRows[i].z == z {
        assert zs[i] == MapSeq(aRows, ZOf)[i] == ZOf(aRows[i]);
      } else {
        var j :| 0 <= j < |bRows| && bRows[j].z == z;
        assert zs[|aRows| + j] == MapSeq(bRows, ZOf)[j] == ZOf(bRows[j]);
      }
    }
  }

  // ---------------------------------------------------------------------------
  // _layer_stats_from_moves
  // ---------------------------------------------------------------------------

  /** The statistics of one layer, keyed by the layer in the dict that holds it. */
  datatype LayerEntry = LayerEntry(
    z: real, time: real,
    peakFlow: Option<real>, p95Flow: Option<real>, peakSpeed: Option<real>, p95Speed: Option<real>)

  /** A layer, its moves and its Z: everything its dict entry is computed from. */
  datatype LayerGroup = LayerGroup(layer: nat, ms: seq<Move>, z: real)

  /** The dict item of a group (unfiltered peaks). */
  function EntryFor(g: LayerGroup): (nat, LayerEntry) {
    var ms := g.ms;
    (g.layer, LayerEntry(g.z, Sum(ms, TimeOf, AllMoves),
      Peak(Values(ms, FlowOf, Flowing)), Pct(Values(ms, FlowOf, Flowing), Values(ms, TimeOf, Flowing), 0.95),
      Peak(Values(ms, SpeedOf, HasSpeed)), Pct(Values(ms, SpeedOf, HasSpeed), Values(ms, TimeOf, HasSpeed), 0.95)))
  }

  /** The groups of a run, one per layer in first-seen order. */
  function RunGroups(moves: seq<Move>, layerZ: map<nat, real>): seq<LayerGroup> {
    FirstSeenCover(moves);
    var order, groups := FirstSeen(moves), Groups(moves);
    seq(|order|, i requires 0 <= i < |order| => LayerGroup(order[i], groups[order[i]], LayerZ(order[i], groups[order[i]], layerZ)))
  }

  /** The dict of a run: (layer, entry) pairs in first-seen order. */
  function StatsFromMoves(moves: seq<Move>, layerZ: map<nat, real>): seq<(nat, LayerEntry)> {
    MapSeq(RunGroups(moves, layerZ), EntryFor)
  }

  /** _layer_stats_from_moves: groups the moves by layer, then fills the dict in its key order. */
  method LayerStatsFromMoves(moves: seq<Move>, layerZ: map<nat, real>) returns (out: seq<(nat, LayerEntry)>)
    ensures out == StatsFromMoves(moves, layerZ)
  {
    var byLayer, order := GroupInOrder(moves);
    FirstSeenCover(moves);
    ghost var groups := RunGroups(moves, layerZ);
    out := [];
    var i := 0;
    while i < |order|
      invariant 0 <= i <= |order|
      invariant out == MapSeq(groups[..i], EntryFor)
    {
      var l := order[i];
      var ms := byLayer[l];
      var z := if l in layerZ then layerZ[l] else ms[|ms| - 1].z;
      MapSeqSnoc(groups, i, EntryFor);
      out := out + [EntryFor(LayerGroup(l, ms, z))];
      i := i + 1;
    }
    assert groups[..i] == groups;
  }

  // ---------------------------------------------------------------------------
  // The Compare_Summary rows
  // ---------------------------------------------------------------------------

  /** A metric of a dict entry; the time is always present. */
  function EntryMetric(e: LayerEntry, k: Metric): Option<real> {
    match k
    case TimeMetric => Some(e.time)
    case PeakFlowMetric => e.peakFlow
    case P95FlowMetric => e.p95Flow
    case PeakSpeedMetric => e.peakSpeed
    case P95SpeedMetric => e.p95Speed
  }

  /** The present values of a metric over the dict, in its order. */
  function PresentValues(d: seq<(nat, LayerEntry)>, k: Metric): seq<real> {
    if |d| == 0 then []
    else
      var v := EntryMetric(d[|d| - 1].1, k);
      PresentValues(d[..|d| - 1], k) + (if v.Some? then [v.value] else [])
  }

  function Total(vs: seq<real>): real {
    if |vs| == 0 then 0.0 else Total(vs[..|vs| - 1]) + vs[|vs| - 1]
  }

  /** _sum_or_none: the sum of the present values of a metric, None when there are none. */
  function SumOrNone(d: seq<(nat, LayerEntry)>, k: Metric): (r: Option<real>)
    ensures r.None? <==> forall i :: 0 <= i < |d| ==> EntryMetric(d[i].1, k).None?
  {
    PresentEmpty(d, k);
    var vs := PresentValues(d, k);
    if |vs| > 0 then Some(Total(vs)) else None
  }

  lemma {:induction false} PresentEmpty(d: seq<(nat, LayerEntry)>, k: Metric)
    ensures |PresentValues(d, k)| == 0 <==> forall i :: 0 <= i < |d| ==> EntryMetric(d[i].1, k).None?
  {
    if |d| > 0 {
      var n := |d| - 1;
      PresentEmpty(d[..n], k);
      assert forall i :: 0 <= i < n ==> d[..n][i] == d[i];
    }
  }

  /** _max_key: the largest value of a metric over the dict, a missing value counting as 0; None for an empty dict. */
  function MaxKey(d: seq<(nat, LayerEntry)>, k: Metric): (r: Option<real>)
    ensures r.None? <==> |d| == 0
    ensures r.Some? ==> forall i :: 0 <= i < |d| ==> EntryMetric(d[i].1, k).GetOr(0.0) <= r.value
    ensures r.Some? ==> exists i :: 0 <= i < |d| && EntryMetric(d[i].1, k).GetOr(0.0) == r.value
  {
    if |d| == 0 then None
    else
      var n := |d| - 1;
      var v := EntryMetric(d[n].1, k).GetOr(0.0);
      var p := MaxKey(d[..n], k);
      assert forall i :: 0 <= i < n ==> d[..n][i] == d[i];
      if p.None? || v > p.value then Some(v) else p
  }

  /** The difference a compare run shows against the reference: present only when both values are. */
  function Delta(aval: Option<real>, bv: Option<real>): (d: Option<real>)
    ensures d.Some? <==> aval.Some? && bv.Some?
    ensures d.Some? ==> aval.value + d.value == bv.value
  {
    if aval.Some? && bv.Some? then Some(bv.value - aval.value) else None
  }

  /** A cell of a summary row. */
  datatype Cell = Label(text: string) | Number(value: Option<real>)

  /**
    _metric_row: the label and the reference value, then for each compare run its value
    followed by its difference from the reference.
  */
  method MetricRow(name: string, aval: Option<real>, bvals: seq<Option<real>>) returns (row: seq<Cell>)
    ensures |row| == 2 + 2 * |bvals|
    ensures row[0] == Label(name) && row[1] == Number(aval)
    ensures forall i :: 0 <= i < |bvals| ==>
      row[2 + 2 * i] == Number(bvals[i]) && row[3 + 2 * i] == Number(Delta(aval, bvals[i]))
  {
    row := [Label(name), Number(aval)];
    var i := 0;
    while i < |bvals|
      invariant 0 <= i <= |bvals|
      invariant |row| == 2 + 2 * i
      invariant row[0] == Label(name) && row[1] == Number(aval)
      invariant forall j :: 0 <= j < i ==>
        row[2 + 2 * j] == Number(bvals[j]) && row[3 + 2 * j] == Number(Delta(aval, bvals[j]))
    {
      var bv := bvals[i];
      row := row + [Number(bv)];
      if aval.Some? && bv.Some? {
        row := row + [Number(Some(bv.value - aval.value))];
      } else {
        row := row + [Number(None)];
      }
      i := i + 1;
    }
  }

  /**
    The spike-suppression rule applied per feature type in the FeatureType_Flow sheet: a
    peak more than 1.5 times the p99 is replaced by the p99.
  */
  function SuppressSpike(raw: Option<real>, p99: Option<real>): Option<real> {
    if raw.Some? && p99.Some? && raw.value > 1.5 * p99.value then p99 else raw
  }

  /**
    Suppression keeps a peak present exactly when it was; against a non-negative p99 it
    never raises the peak and leaves it within 1.5 times the p99; a second application
    changes nothing.
  */
  lemma SuppressSpikeLaws(raw: Option<real>, p99: Option<real>)
    ensures SuppressSpike(raw, p99).Some? <==> raw.Some?
    ensures raw.Some? && (p99.None? || p99.value >= 0.0) ==> SuppressSpike(raw, p99).value <= raw.value
    ensures raw.Some? && p99.Some? && p99.value >= 0.0 ==> SuppressSpike(raw, p99).value <= 1.5 * p99.value
    ensures p99.None? || p99.value >= 0.0 ==> SuppressSpike(SuppressSpike(raw, p99), p99) == SuppressSpike(raw, p99)
  {
  }

  /**
    On the moves a selection keeps (one feature type's moves) the suppressed peak is None exactly when no move is selected,
    and otherwise the value of a selected move between the p99 (when present) and the raw peak.
  */
  lemma SuppressedPeakLaws(ms: seq<Move>, q: Quantity, s: Selection)
    ensures var capped := SuppressSpike(Peak(Values(ms, q, s)), Pct(Values(ms, q, s), Values(ms, TimeOf, s), 0.99));
      && (capped.None? <==> forall k :: 0 <= k < |ms| ==> !Keeps(s, ms[k]))
      && (capped.Some? ==> exists k :: 0 <= k < |ms| && Keeps(s, ms[k]) && Get(q, ms[k]) == capped.value)
      && (capped.Some? ==> capped.value <= Peak(Values(ms, q, s)).value)
    ensures var p99 := Pct(Values(ms, q, s), Values(ms, TimeOf, s), 0.99);
      p99.Some? ==> p99.value <= SuppressSpike(Peak(Values(ms, q, s)), p99).value
  {
    SeriesLaws(ms, q, s, 0.99);
    var peak := Peak(Values(ms, q, s));
    var p99 := Pct(Values(ms, q, s), Values(ms, TimeOf, s), 0.99);
    if peak.Some? && p99.Some? && peak.value > 1.5 * p99.value {
      assert SuppressSpike(peak, p99) == p99;
    } else {
      assert SuppressSpike(peak, p99) == peak;
    }
  }

  // ---------------------------------------------------------------------------
  // Totals and maxima of a run
  // ---------------------------------------------------------------------------

  /** The groups of a run: one per layer in first-seen order, each holding that layer's moves. */
  lemma RunGroupsLaws(moves: seq<Move>, layerZ: map<nat, real>)
    ensures |RunGroups(moves, layerZ)| == |FirstSeen(moves)|
    ensures var gs := RunGroups(moves, layerZ);
      forall i :: 0 <= i < |gs| ==>
        gs[i].layer == FirstSeen(moves)[i] && gs[i].ms == InLayer(moves, gs[i].layer) && |gs[i].ms| > 0
  {
    FirstSeenCover(moves);
  }

  /** The quantity and selection behind a metric. */
  function MetricQuantity(k: Metric): Quantity {
    match k
    case TimeMetric => TimeOf
    case PeakFlowMetric => FlowOf
    case P95FlowMetric => FlowOf
    case PeakSpeedMetric => SpeedOf
    case P95SpeedMetric => SpeedOf
  }

  function MetricSelection(k: Metric): Selection {
    match k
    case TimeMetric => AllMoves
    case PeakFlowMetric => Flowing
    case P95FlowMetric => Flowing
    case PeakSpeedMetric => HasSpeed
    case P95SpeedMetric => HasSpeed
  }

  predicate IsPeakMetric(k: Metric) {
    k == PeakFlowMetric || k == PeakSpeedMetric
  }

  /** What a dict entry holds for a metric, in terms of its layer's moves. */
  function MetricOfMoves(ms: seq<Move>, k: Metric): Option<real> {
    var q, s := MetricQuantity(k), MetricSelection(k);
    match k
    case TimeMetric => Some(Sum(ms, TimeOf, AllMoves))
    case PeakFlowMetric => Peak(Values(ms, q, s))
    case PeakSpeedMetric => Peak(Values(ms, q, s))
    case P95FlowMetric => Pct(Values(ms, q, s), Values(ms, TimeOf, s), 0.95)
    case P95SpeedMetric => Pct(Values(ms, q, s), Values(ms, TimeOf, s), 0.95)
  }

  lemma EntryForMetric(g: LayerGroup, k: Metric)
    ensures EntryMetric(EntryFor(g).1, k) == MetricOfMoves(g.ms, k)
  {
    match k
    case TimeMetric =>
    case PeakFlowMetric =>
    case PeakSpeedMetric =>
    case P95FlowMetric =>
    case P95SpeedMetric =>
  }

  /** The n-th entry of a run's dict holds the metrics of the n-th first-seen layer's moves. */
  lemma StatsEntry(moves: seq<Move>, layerZ: map<nat, real>, n: nat, k: Metric)
    requires n < |FirstSeen(moves)|
    ensures |StatsFromMoves(moves, layerZ)| == |FirstSeen(moves)|
    ensures EntryMetric(StatsFromMoves(moves, layerZ)[n].1, k) == MetricOfMoves(InLayer(moves, FirstSeen(moves)[n]), k)
  {
    RunGroupsLaws(moves, layerZ);
    EntryForMetric(RunGroups(moves, layerZ)[n], k);
  }

  lemma RunHasLayers(moves: seq<Move>)
    ensures |FirstSeen(moves)| == 0 <==> |moves| == 0
  {
    FirstSeenLaws(moves);
    if |moves| > 0 {
      assert moves[0].layer in LayerSet(moves);
    }
  }

  lemma TimeSnoc(d: seq<(nat, LayerEntry)>, n: nat)
    requires n < |d|
    ensures Total(PresentValues(d[..n + 1], TimeMetric)) == Total(PresentValues(d[..n], TimeMetric)) + d[n].1.time
  {
    assert d[..n + 1][..n] == d[..n];
  }

  lemma OverLayersSnoc(ls: seq<nat>, moves: seq<Move>, n: nat)
    requires n < |ls|
    ensures JsonSummary.OverLayers(ls[..n + 1], moves, JsonSummary.TimeColumn)
         == JsonSummary.OverLayers(ls[..n], moves, JsonSummary.TimeColumn) + Sum(InLayer(moves, ls[n]), TimeOf, AllMoves)
  {
    assert ls[..n + 1][..n] == ls[..n];
  }

  lemma {:induction false} TimesOverLayers(d: seq<(nat, LayerEntry)>, ls: seq<nat>, moves: seq<Move>, n: nat)
    requires |d| == |ls| && n <= |ls|
    requires forall i :: 0 <= i < |d| ==> d[i].1.time == Sum(InLayer(moves, ls[i]), TimeOf, AllMoves)
    ensures Total(PresentValues(d[..n], TimeMetric)) == JsonSummary.OverLayers(ls[..n], moves, JsonSummary.TimeColumn)
  {
    if n > 0 {
      TimesOverLayers(d, ls, moves, n - 1);
      TimeSnoc(d, n - 1);
      OverLayersSnoc(ls, moves, n - 1);
    }
  }

  /** A dict whose entries hold the times of distinct layers covering the moves sums to the time of all moves. */
  lemma SumOfLayerTimes(d: seq<(nat, LayerEntry)>, ls: seq<nat>, moves: seq<Move>)
    requires |d| == |ls| && (|ls| == 0 <==> |moves| == 0)
    requires forall i :: 0 <= i < |d| ==> d[i].1.time == Sum(InLayer(moves, ls[i]), TimeOf, AllMoves)
    requires JsonSummary.Distinct(ls) && forall k :: 0 <= k < |moves| ==> moves[k].layer in ls
    ensures SumOrNone(d, TimeMetric) == if |moves| == 0 then None else Some(Sum(moves, TimeOf, AllMoves))
  {
    TimesOverLayers(d, ls, moves, |ls|);
    assert d[..|d|] == d && ls[..|ls|] == ls;
    JsonSummary.Partition(ls, moves, JsonSummary.TimeColumn);
    PresentEmpty(d, TimeMetric);
  }

  lemma RunTimes(moves: seq<Move>, layerZ: map<nat, real>)
    ensures |StatsFromMoves(moves, layerZ)| == |FirstSeen(moves)|
    ensures forall i :: 0 <= i < |FirstSeen(moves)| ==>
      StatsFromMoves(moves, layerZ)[i].1.time == Sum(InLayer(moves, FirstSeen(moves)[i]), TimeOf, AllMoves)
  {
    RunGroupsLaws(moves, layerZ);
    forall i | 0 <= i < |FirstSeen(moves)|
      ensures StatsFromMoves(moves, layerZ)[i].1.time == Sum(InLayer(moves, FirstSeen(moves)[i]), TimeOf, AllMoves)
    {
      StatsEntry(moves, layerZ, i, TimeMetric);
    }
  }

  /** The total time of a run's summary row is the time of all its moves; None for a run without moves. */
  lemma TotalTimeOfRun(moves: seq<Move>, layerZ: map<nat, real>)
    ensures SumOrNone(StatsFromMoves(moves, layerZ), TimeMetric)
         == if |moves| == 0 then None else Some(Sum(moves, TimeOf, AllMoves))
  {
    RunHasLayers(moves);
    RunTimes(moves, layerZ);
    FirstSeenLaws(moves);
    SumOfLayerTimes(StatsFromMoves(moves, layerZ), FirstSeen(moves), moves);
  }

  /** A layer's peak or percentile is None when it has no selected move, else a selected move's value. */
  lemma MetricOfMovesLaws(ms: seq<Move>, k: Metric)
    requires k != TimeMetric
    ensures var q, s := MetricQuantity(k), MetricSelection(k);
      MetricOfMoves(ms, k).Some? ==>
        (exists j :: 0 <= j < |ms| && Keeps(s, ms[j]) && Get(q, ms[j]) == MetricOfMoves(ms, k).value
           && (IsPeakMetric(k) || ms[j].time > 0.0))
    ensures var q, s := MetricQuantity(k), MetricSelection(k);
      IsPeakMetric(k) ==> forall j :: 0 <= j < |ms| && Keeps(s, ms[j]) ==>
        MetricOfMoves(ms, k).Some? && Get(q, ms[j]) <= MetricOfMoves(ms, k).value
    ensures var s := MetricSelection(k);
      (forall j :: 0 <= j < |ms| ==> !Keeps(s, ms[j])) ==> MetricOfMoves(ms, k).None?
  {
    SeriesLaws(ms, MetricQuantity(k), MetricSelection(k), 0.95);
  }

  /** A peak metric's maximum over a run is at least every selected move's value. */
  lemma MaxOfRunBounds(moves: seq<Move>, layerZ: map<nat, real>, k: Metric)
    requires IsPeakMetric(k)
    ensures var q, s, r := MetricQuantity(k), MetricSelection(k), MaxKey(StatsFromMoves(moves, layerZ), k);
      forall j :: 0 <= j < |moves| && Keeps(s, moves[j]) ==> r.Some? && Get(q, moves[j]) <= r.value
  {
    var q, s := MetricQuantity(k), MetricSelection(k);
    var d, ls := StatsFromMoves(moves, layerZ), FirstSeen(moves);
    FirstSeenLaws(moves);
    forall j | 0 <= j < |moves| && Keeps(s, moves[j])
      ensures MaxKey(d, k).Some? && Get(q, moves[j]) <= MaxKey(d, k).value
    {
      assert moves[j].layer in LayerSet(moves);
      var i :| 0 <= i < |ls| && ls[i] == moves[j].layer;
      StatsEntry(moves, layerZ, i, k);
      var p := JsonSummary.InLayerPosition(moves, j);
      MetricOfMovesLaws(InLayer(moves, ls[i]), k);
      assert EntryMetric(d[i].1, k).GetOr(0.0) <= MaxKey(d, k).value;
    }
  }

  /** A run's maximum is 0 or the value of a selected move (one taking time, for a percentile). */
  lemma MaxOfRunSource(moves: seq<Move>, layerZ: map<nat, real>, k: Metric)
    requires k != TimeMetric
    ensures var q, s, r := MetricQuantity(k), MetricSelection(k), MaxKey(StatsFromMoves(moves, layerZ), k);
      r.Some? ==> (r.value == 0.0
        || exists j :: 0 <= j < |moves| && Keeps(s, moves[j]) && Get(q, moves[j]) == r.value
             && (IsPeakMetric(k) || moves[j].time > 0.0))
  {
    var q, s := MetricQuantity(k), MetricSelection(k);
    var d, ls := StatsFromMoves(moves, layerZ), FirstSeen(moves);
    var r := MaxKey(d, k);
    if r.Some? {
      var i :| 0 <= i < |d| && EntryMetric(d[i].1, k).GetOr(0.0) == r.value;
      RunGroupsLaws(moves, layerZ);
      StatsEntry(moves, layerZ, i, k);
      var ms := InLayer(moves, ls[i]);
      MetricOfMovesLaws(ms, k);
      if MetricOfMoves(ms, k).Some? {
        var p :| 0 <= p < |ms| && Keeps(s, ms[p]) && Get(q, ms[p]) == r.value && (IsPeakMetric(k) || ms[p].time > 0.0);
        var j := JsonSummary.InLayerSource(moves, ls[i], p);
        assert moves[j] == ms[p];
      }
    }
  }

  /** With moves but none selected, every entry is None and the maximum shows 0. */
  lemma MaxOfRunZero(moves: seq<Move>, layerZ: map<nat, real>, k: Metric)
    requires k != TimeMetric && |moves| > 0
    requires forall j :: 0 <= j < |moves| ==> !Keeps(MetricSelection(k), moves[j])
    ensures MaxKey(StatsFromMoves(moves, layerZ), k) == Some(0.0)
  {
    var d, ls := StatsFromMoves(moves, layerZ), FirstSeen(moves);
    RunHasLayers(moves);
    RunGroupsLaws(moves, layerZ);
    forall i | 0 <= i < |d|
      ensures EntryMetric(d[i].1, k).None?
    {
      StatsEntry(moves, layerZ, i, k);
      InLayerMembersKept(moves, ls[i], MetricSelection(k));
      MetricOfMovesLaws(InLayer(moves, ls[i]), k);
    }
    var i :| 0 <= i < |d| && EntryMetric(d[i].1, k).GetOr(0.0) == MaxKey(d, k).value;
  }

  lemma InLayerMembersKept(moves: seq<Move>, l: nat, s: Selection)
    requires forall j :: 0 <= j < |moves| ==> !Keeps(s, moves[j])
    ensures forall p :: 0 <= p < |InLayer(moves, l)| ==> !Keeps(s, InLayer(moves, l)[p])
  {
    forall p | 0 <= p < |InLayer(moves, l)|
      ensures !Keeps(s, InLayer(moves, l)[p])
    {
      var j := JsonSummary.InLayerSource(moves, l, p);
    }
  }

  /**
    The maximum a run's summary row shows for a peak or percentile metric: None only for a
    run without moves; otherwise 0 or the value of a selected move (one taking time, for a
    percentile), exactly 0 when no move is selected, and for a peak at least every selected
    move's value.
  */
  lemma MaxOfRun(moves: seq<Move>, layerZ: map<nat, real>, k: Metric)
    requires k != TimeMetric
    ensures var r := MaxKey(StatsFromMoves(moves, layerZ), k);
      r.None? <==> |moves| == 0
    ensures var q, s, r := MetricQuantity(k), MetricSelection(k), MaxKey(StatsFromMoves(moves, layerZ), k);
      r.Some? ==> (r.value == 0.0
        || exists j :: 0 <= j < |moves| && Keeps(s, moves[j]) && Get(q, moves[j]) == r.value
             && (IsPeakMetric(k) || moves[j].time > 0.0))
    ensures var s := MetricSelection(k);
      (forall j :: 0 <= j < |moves| ==> !Keeps(s, moves[j])) && |moves| > 0 ==>
        MaxKey(StatsFromMoves(moves, layerZ), k) == Some(0.0)
    ensures var q, s, r := MetricQuantity(k), MetricSelection(k), MaxKey(StatsFromMoves(moves, layerZ), k);
      IsPeakMetric(k) ==> forall j :: 0 <= j < |moves| && Keeps(s, moves[j]) ==> r.Some? && Get(q, moves[j]) <= r.value
  {
    RunHasLayers(moves);
    RunGroupsLaws(moves, layerZ);
    MaxOfRunSource(moves, layerZ, k);
    if (forall j :: 0 <= j < |moves| ==> !Keeps(MetricSelection(k), moves[j])) && |moves| > 0 {
      MaxOfRunZero(moves, layerZ, k);
    }
    if IsPeakMetric(k) {
      MaxOfRunBounds(moves, layerZ, k);
    }
  }
}
