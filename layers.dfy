/**
  The per-layer table of the exports (_aggregate_layers_for_export in
  gcode_profiler/excel_writer.py) and the JSON summary built from it (build_json_summary).

  Moves are grouped by layer number in file order; the layers are visited in ascending
  order, threading the previous row's Z; each row holds sums over the layer's moves,
  time-weighted percentiles of speed and flow, headroom against the configured limits,
  the travel / extrude / retract split and the short-fast-move counter.
*/
module LayerExport {
  import opened Wrappers
  import opened Stats
  import opened GcodeParser

  /** The two limits read from the slicer config, when present. */
  datatype Limits = Limits(maxVolumetricSpeed: Option<real>, maxPrintSpeed: Option<real>)

  /** One row of the Layers table. */
  datatype LayerRow = LayerRow(
    layer: nat, z: real, layerHeight: Option<real>,
    time: real, dist: real, extrusion: real,
    avgSpeed: Option<real>, avgFlow: Option<real>,
    peakSpeed: Option<real>, p95Speed: Option<real>, p99Speed: Option<real>,
    peakFlow: Option<real>, p95Flow: Option<real>, p99Flow: Option<real>,
    flowHeadroom: Option<real>, speedHeadroom: Option<real>,
    travelTime: real, travelDist: real, extrudeTime: real,
    retractCount: nat, retractMm: real, dynamicsScore: nat)

  // ---------------------------------------------------------------------------
  // Selections and sums over a layer's moves
  // ---------------------------------------------------------------------------

  /** The filters of the comprehensions. */
  datatype Selection =
    | AllMoves      // every move
    | HasSpeed      // a speed is known and the move has length (speed statistics)
    | Flowing       // positive flow (flow statistics)
    | Extruding     // positive de (extrusion total)
    | Travel        // no extrusion and positive length
    | TimedExtrude  // positive de and positive time
    | Retract       // negative de
    | ShortFast     // extruding, shorter than 0.6 mm, faster than 50 mm/s

  predicate Keeps(s: Selection, m: Move) {
    match s
    case AllMoves => true
    case HasSpeed => m.speed.Some? && m.dist > 0.0
    case Flowing => m.flow > 0.0
    case Extruding => m.de > 0.0
    case Travel => m.de == 0.0 && m.dist > 0.0
    case TimedExtrude => m.de > 0.0 && m.time > 0.0
    case Retract => m.de < 0.0
    case ShortFast => m.de > 0.0 && m.dist > 0.0 && m.dist < 0.6 && m.speed.GetOr(0.0) > 50.0
  }

  /** The quantities summed; a missing speed reads as 0.0, as `m.get(...) or 0.0` does. */
  datatype Quantity = TimeOf | DistOf | DeOf | SpeedOf | FlowOf | FlowTimeOf

  function Get(q: Quantity, m: Move): real {
    match q
    case TimeOf => m.time
    case DistOf => m.dist
    case DeOf => m.de
    case SpeedOf => m.speed.GetOr(0.0)
    case FlowOf => m.flow
    case FlowTimeOf => m.flow * m.time
  }

  /** `sum(q(m) for m in ms if s(m))`. */
  function Sum(ms: seq<Move>, q: Quantity, s: Selection): real {
    if |ms| == 0 then 0.0
    else Sum(ms[..|ms| - 1], q, s) + (if Keeps(s, ms[|ms| - 1]) then Get(q, ms[|ms| - 1]) else 0.0)
  }

  /** `len([m for m in ms if s(m)])`. */
  function Count(ms: seq<Move>, s: Selection): nat {
    if |ms| == 0 then 0
    else Count(ms[..|ms| - 1], s) + (if Keeps(s, ms[|ms| - 1]) then 1 else 0)
  }

  /** `[q(m) for m in ms if s(m)]`. */
  function Values(ms: seq<Move>, q: Quantity, s: Selection): (vs: seq<real>)
    ensures |vs| == Count(ms, s)
  {
    if |ms| == 0 then []
    else Values(ms[..|ms| - 1], q, s) + (if Keeps(s, ms[|ms| - 1]) then [Get(q, ms[|ms| - 1])] else [])
  }

  /** max(vs). */
  function MaxOf(vs: seq<real>): (r: real)
    requires |vs| > 0
    ensures r in vs && forall k :: 0 <= k < |vs| ==> vs[k] <= r
  {
    if |vs| == 1 then vs[0]
    else
      var r := MaxOf(vs[..|vs| - 1]);
      assert forall k :: 0 <= k < |vs| - 1 ==> vs[..|vs| - 1][k] == vs[k];
      if vs[|vs| - 1] > r then vs[|vs| - 1] else r
  }

  /** `max(vs) if vs else None`. */
  function Peak(vs: seq<real>): Option<real> {
    if |vs| == 0 then None else Some(MaxOf(vs))
  }

  /** `weighted_quantile(vs, ws, q) if vs else None`; the lengths always agree here. */
  function Pct(vs: seq<real>, ws: seq<real>, q: real): Option<real> {
    if |vs| == 0 then None
    else
      match Quantile(vs, Some(ws), q)
      case Success(v) => v
      case Failure(_) => None
  }

  /** `limit - p99` when both are present. */
  function Headroom(limit: Option<real>, p99: Option<real>): Option<real> {
    if limit.Some? && p99.Some? then Some(limit.value - p99.value) else None
  }

  /** `(total / t) if t > 0 else None`. */
  function Average(total: real, t: real): Option<real> {
    if t > 0.0 then Some(total / t) else None
  }

  // ---------------------------------------------------------------------------
  // One row
  // ---------------------------------------------------------------------------

  /** `layer_z_map.get(L, ms[-1]["z"])`. */
  function LayerZ(layer: nat, ms: seq<Move>, layerZ: map<nat, real>): real
    requires |ms| > 0
  {
    if layer in layerZ then layerZ[layer] else ms[|ms| - 1].z
  }

  /** The row of one layer, given its Z, its height and its short-fast count. */
  function Row(layer: nat, ms: seq<Move>, z: real, height: Option<real>, shortFast: nat, limits: Limits): LayerRow {
    var speeds, speedWeights := Values(ms, SpeedOf, HasSpeed), Values(ms, TimeOf, HasSpeed);
    var flows, flowWeights := Values(ms, FlowOf, Flowing), Values(ms, TimeOf, Flowing);
    var t, d := Sum(ms, TimeOf, AllMoves), Sum(ms, DistOf, AllMoves);
    var p99Speed, p99Flow := Pct(speeds, speedWeights, 0.99), Pct(flows, flowWeights, 0.99);
    LayerRow(
      layer, z, height, t, d, Sum(ms, DeOf, Extruding),
      Average(d, t), Average(Sum(ms, FlowTimeOf, AllMoves), t),
      Peak(speeds), Pct(speeds, speedWeights, 0.95), p99Speed,
      Peak(flows), Pct(flows, flowWeights, 0.95), p99Flow,
      Headroom(limits.maxVolumetricSpeed, p99Flow), Headroom(limits.maxPrintSpeed, p99Speed),
      Sum(ms, TimeOf, Travel), Sum(ms, DistOf, Travel), Sum(ms, TimeOf, TimedExtrude),
      Count(ms, Retract), -Sum(ms, DeOf, Retract), shortFast)
  }

  // ---------------------------------------------------------------------------
  // Grouping by layer
  // ---------------------------------------------------------------------------

  /** The moves of one layer, in file order. */
  function InLayer(ms: seq<Move>, layer: nat): seq<Move> {
    if |ms| == 0 then []
    else InLayer(ms[..|ms| - 1], layer) + (if ms[|ms| - 1].layer == layer then [ms[|ms| - 1]] else [])
  }

  function LayerSet(ms: seq<Move>): set<nat> {
    set k | 0 <= k < |ms| :: ms[k].layer
  }

  /** by_layer after the grouping loop. */
  function Groups(ms: seq<Move>): map<nat, seq<Move>> {
    map l | l in LayerSet(ms) :: InLayer(ms, l)
  }

  function MaxLayer(ms: seq<Move>): (r: nat)
    ensures forall k :: 0 <= k < |ms| ==> ms[k].layer <= r
  {
    if |ms| == 0 then 0
    else
      var r := MaxLayer(ms[..|ms| - 1]);
      assert forall k :: 0 <= k < |ms| - 1 ==> ms[..|ms| - 1][k] == ms[k];
      if ms[|ms| - 1].layer > r then ms[|ms| - 1].layer else r
  }

  /** The members of keys below n, in ascending order. */
  function Ascending(keys: set<nat>, n: nat): (ls: seq<nat>)
    ensures forall i, j :: 0 <= i < j < |ls| ==> ls[i] < ls[j]
    ensures forall i :: 0 <= i < |ls| ==> ls[i] < n
    ensures forall l :: l in ls <==> l in keys && l < n
  {
    if n == 0 then []
    else Ascending(keys, n - 1) + (if n - 1 in keys then [n - 1] else [])
  }

  /** `sorted(by_layer.keys())`. */
  function SortedLayers(ms: seq<Move>): seq<nat> {
    Ascending(LayerSet(ms), MaxLayer(ms) + 1)
  }

  lemma {:induction false} InLayerHas(ms: seq<Move>, k: nat)
    requires k < |ms|
    ensures |InLayer(ms, ms[k].layer)| > 0
  {
    var n := |ms| - 1;
    if k < n {
      assert ms[..n][k] == ms[k];
      InLayerHas(ms[..n], k);
    }
  }

  lemma GroupsNonEmpty(ms: seq<Move>)
    ensures forall l :: l in Groups(ms) ==> |Groups(ms)[l]| > 0
  {
    forall l | l in Groups(ms)
      ensures |Groups(ms)[l]| > 0
    {
      var k :| 0 <= k < |ms| && ms[k].layer == l;
      InLayerHas(ms, k);
    }
  }

  lemma SortedLayersInGroups(ms: seq<Move>)
    ensures forall i :: 0 <= i < |SortedLayers(ms)| ==>
      SortedLayers(ms)[i] in Groups(ms) && |Groups(ms)[SortedLayers(ms)[i]]| > 0
  {
    GroupsNonEmpty(ms);
    forall i | 0 <= i < |SortedLayers(ms)|
      ensures SortedLayers(ms)[i] in Groups(ms)
    {
      assert SortedLayers(ms)[i] in SortedLayers(ms);
    }
  }

  // ---------------------------------------------------------------------------
  // All rows
  // ---------------------------------------------------------------------------

  predicate GroupsCover(ls: seq<nat>, groups: map<nat, seq<Move>>) {
    forall i :: 0 <= i < |ls| ==> ls[i] in groups && |groups[ls[i]]| > 0
  }

  /** The Z of the k-th layer row. */
  function RowZ(ls: seq<nat>, k: nat, groups: map<nat, seq<Move>>, layerZ: map<nat, real>): real
    requires k < |ls| && GroupsCover(ls, groups)
  {
    LayerZ(ls[k], groups[ls[k]], layerZ)
  }

/** Everything one row is computed from. */
  datatype LayerKey = LayerKey(layer: nat, ms: seq<Move>, z: real, height: Option<real>, limits: Limits)

  /** The row of a key; the short-fast count is taken over the key's moves. */
  function RowOf(key: LayerKey): LayerRow {
    Row(key.layer, key.ms, key.z, key.height, Count(key.ms, ShortFast), key.limits)
  }

  /** The key of the k-th row: its height is the step from the previous row's Z. */
  function KeyAt(ls: seq<nat>, k: nat, groups: map<nat, seq<Move>>, layerZ: map<nat, real>, limits: Limits): LayerKey
    requires k < |ls| && GroupsCover(ls, groups)
  {
    var z := RowZ(ls, k, groups, layerZ);
    LayerKey(ls[k], groups[ls[k]], z, if k == 0 then None else Some(z - RowZ(ls, k - 1, groups, layerZ)), limits)
  }

  lemma KeyAtIs(ls: seq<nat>, k: nat, groups: map<nat, seq<Move>>, layerZ: map<nat, real>, limits: Limits,
                z: real, height: Option<real>)
    requires k < |ls| && GroupsCover(ls, groups)
    requires z == RowZ(ls, k, groups, layerZ)
    requires height == if k == 0 then None else Some(z - RowZ(ls, k - 1, groups, layerZ))
    ensures KeyAt(ls, k, groups, layerZ, limits) == LayerKey(ls[k], groups[ls[k]], z, height, limits)
  {
  }

  /** The keys of all rows, one per layer of ls. */
  function Keys(ls: seq<nat>, groups: map<nat, seq<Move>>, layerZ: map<nat, real>, limits: Limits): seq<LayerKey>
    requires GroupsCover(ls, groups)
  {
    seq(|ls|, k requires 0 <= k < |ls| => KeyAt(ls, k, groups, layerZ, limits))
  }

  /** f applied to every element of s. */
  function MapSeq<A, B>(s: seq<A>, f: A -> B): seq<B> {
    seq(|s|, i requires 0 <= i < |s| => f(s[i]))
  }

  lemma MapSeqSnoc<A, B>(s: seq<A>, i: nat, f: A -> B)
    requires i < |s|
    ensures MapSeq(s[..i + 1], f) == MapSeq(s[..i], f) + [f(s[i])]
  {
  }

  /** The keys of the table: one per layer number among the moves, in ascending order. */
  function TableKeys(moves: seq<Move>, layerZ: map<nat, real>, limits: Limits): seq<LayerKey> {
    SortedLayersInGroups(moves);
    Keys(SortedLayers(moves), Groups(moves), layerZ, limits)
  }

  /** What _aggregate_layers_for_export returns: the row of every key of the table. */
  function LayerRows(moves: seq<Move>, layerZ: map<nat, real>, limits: Limits): seq<LayerRow> {
    MapSeq(TableKeys(moves, layerZ, limits), RowOf)
  }

  // ---------------------------------------------------------------------------
  // The imperative aggregation
  // ---------------------------------------------------------------------------

  lemma LayerSetStep(ms: seq<Move>, m: Move)
    ensures LayerSet(ms + [m]) == LayerSet(ms) + {m.layer}
  {
    var ms' := ms + [m];
    forall l | l in LayerSet(ms')
      ensures l in LayerSet(ms) + {m.layer}
    {
      var k :| 0 <= k < |ms'| && ms'[k].layer == l;
      if k < |ms| {
        assert ms'[k] == ms[k];
      }
    }
    forall l | l in LayerSet(ms)
      ensures l in LayerSet(ms')
    {
      var k :| 0 <= k < |ms| && ms[k].layer == l;
      assert ms'[k] == ms[k];
    }
    assert ms'[|ms|] == m;
  }

  lemma InLayerStep(ms: seq<Move>, m: Move, l: nat)
    ensures InLayer(ms + [m], l) == InLayer(ms, l) + (if m.layer == l then [m] else [])
  {
    assert (ms + [m])[..|ms|] == ms;
  }

  lemma GroupsStep(ms: seq<Move>, m: Move)
    ensures Groups(ms + [m]) ==
      if m.layer in Groups(ms) then Groups(ms)[m.layer := Groups(ms)[m.layer] + [m]]
      else Groups(ms)[m.layer := [m]]
  {
    var g, g' := Groups(ms), Groups(ms + [m]);
    var expected := if m.layer in g then g[m.layer := g[m.layer] + [m]] else g[m.layer := [m]];
    LayerSetStep(ms, m);
    if m.layer !in g {
      NotInLayer(ms, m.layer);
    }
    assert g'.Keys == expected.Keys;
    forall l | l in g'
      ensures g'[l] == expected[l]
    {
      InLayerStep(ms, m, l);
    }
  }

  lemma {:induction false} NotInLayer(ms: seq<Move>, l: nat)
    requires l !in LayerSet(ms)
    ensures InLayer(ms, l) == []
  {
    if |ms| > 0 {
      var n := |ms| - 1;
      assert ms[n] in ms;
      assert LayerSet(ms[..n]) <= LayerSet(ms) by {
        forall x | x in LayerSet(ms[..n])
          ensures x in LayerSet(ms)
        {
          var k :| 0 <= k < n && ms[..n][k].layer == x;
          assert ms[..n][k] == ms[k];
        }
      }
      NotInLayer(ms[..n], l);
    }
  }

  /** One step of the grouping loop: `by_layer[m["layer"]].append(m)`. */
  method AddToGroup(byLayer: map<nat, seq<Move>>, ghost done: seq<Move>, m: Move)
    returns (byLayer': map<nat, seq<Move>>)
    requires byLayer == Groups(done)
    ensures byLayer' == Groups(done + [m])
  {
    GroupsStep(done, m);
    if m.layer in byLayer {
      byLayer' := byLayer[m.layer := byLayer[m.layer] + [m]];
    } else {
      byLayer' := byLayer[m.layer := [m]];
    }
  }

  /** The grouping loop: every move appended to its layer's list, in file order. */
  method GroupByLayer(moves: seq<Move>) returns (byLayer: map<nat, seq<Move>>)
    ensures byLayer == Groups(moves)
  {
    byLayer := map[];
    var i := 0;
    while i < |moves|
      invariant 0 <= i <= |moves|
      invariant byLayer == Groups(moves[..i])
    {
      byLayer := AddToGroup(byLayer, moves[..i], moves[i]);
      assert moves[..i + 1] == moves[..i] + [moves[i]];
      i := i + 1;
    }
    assert moves[..i] == moves;
  }

  /** The short_fast counter loop. */
  method CountShortFast(ms: seq<Move>) returns (n: nat)
    ensures n == Count(ms, ShortFast)
  {
    n := 0;
    var i := 0;
    while i < |ms|
      invariant 0 <= i <= |ms|
      invariant n == Count(ms[..i], ShortFast)
    {
      var m := ms[i];
      assert ms[..i + 1][..i] == ms[..i];
      if m.de > 0.0 && m.dist > 0.0 {
        if m.dist < 0.6 && m.speed.GetOr(0.0) > 50.0 {
          n := n + 1;
        }
      }
      i := i + 1;
    }
    assert ms[..i] == ms;
  }

  /**
    The body of the row loop: appends the row of the i-th layer to out, prevZ being the Z
    of the row before it, and returns the new table and this row's Z.
  */
  method AppendRow(layers: seq<nat>, i: nat, byLayer: map<nat, seq<Move>>, layerZ: map<nat, real>, limits: Limits,
                   prevZ: Option<real>, out: seq<LayerRow>) returns (out': seq<LayerRow>, z: real)
    requires i < |layers| && GroupsCover(layers, byLayer)
    requires prevZ == if i == 0 then None else Some(RowZ(layers, i - 1, byLayer, layerZ))
    requires out == MapSeq(Keys(layers, byLayer, layerZ, limits)[..i], RowOf)
    ensures out' == MapSeq(Keys(layers, byLayer, layerZ, limits)[..i + 1], RowOf)
    ensures z == RowZ(layers, i, byLayer, layerZ)
  {
    var l := layers[i];
    var ms := byLayer[l];
    z := if l in layerZ then layerZ[l] else ms[|ms| - 1].z;
    var height := if prevZ.Some? then Some(z - prevZ.value) else None;
    var shortFast := CountShortFast(ms);
    KeyAtIs(layers, i, byLayer, layerZ, limits, z, height);
    MapSeqSnoc(Keys(layers, byLayer, layerZ, limits), i, RowOf);
    out' := out + [Row(l, ms, z, height, shortFast, limits)];
  }

  /** The row loop of _aggregate_layers_for_export over the ascending layer numbers. */
  method BuildRows(layers: seq<nat>, byLayer: map<nat, seq<Move>>, layerZ: map<nat, real>, limits: Limits)
    returns (out: seq<LayerRow>)
    requires GroupsCover(layers, byLayer)
    ensures out == MapSeq(Keys(layers, byLayer, layerZ, limits), RowOf)
  {
    ghost var keys := Keys(layers, byLayer, layerZ, limits);
    var prevZ: Option<real> := None;
    out := [];
    var i := 0;
    while i < |layers|
      invariant 0 <= i <= |layers|
      invariant out == MapSeq(keys[..i], RowOf)
      invariant prevZ == if i == 0 then None else Some(RowZ(layers, i - 1, byLayer, layerZ))
    {
      var z;
      out, z := AppendRow(layers, i, byLayer, layerZ, limits, prevZ, out);
      prevZ := Some(z);
      i := i + 1;
    }
    assert keys[..i] == keys;
  }

  /**
    _aggregate_layers_for_export: groups the moves by layer, then walks the layers in
    ascending order, threading the previous row's Z, and appends one row per layer.
  */
  method AggregateLayersForExport(moves: seq<Move>, layerZ: map<nat, real>, limits: Limits)
    returns (out: seq<LayerRow>)
    ensures out == LayerRows(moves, layerZ, limits)
  {
    var byLayer := GroupByLayer(moves);
    var layers := Ascending(byLayer.Keys, MaxLayer(moves) + 1);
    assert byLayer.Keys == LayerSet(moves);
    assert layers == SortedLayers(moves);
    SortedLayersInGroups(moves);
    out := BuildRows(layers, byLayer, layerZ, limits);
    assert |layers| == |SortedLayers(moves)|;
  }
}
