/**
  What a layer row promises: the sums, the percentile statistics and the split of the
  layer's time, row by row; and, over the whole table, one row per distinct layer in
  ascending order with the Z and layer height threaded from row to row.
*/
module LayerLaws {
  import opened Wrappers
  import opened Stats
  import opened GcodeParser
  import opened GcodeLaws
  import opened LayerExport

  // ---------------------------------------------------------------------------
  // Selected series and their source moves
  // ---------------------------------------------------------------------------

  lemma ValuesPrefix(ms: seq<Move>, s: Selection, i: nat)
    requires |ms| > 0 && i < Count(ms[..|ms| - 1], s)
    ensures forall q :: Values(ms, q, s)[i] == Values(ms[..|ms| - 1], q, s)[i]
  {
  }

  /** Every entry of a selected series comes from a selected move, the same one for every quantity. */
  lemma {:induction false} ValuesSource(ms: seq<Move>, s: Selection, i: nat) returns (k: nat)
    requires i < Count(ms, s)
    ensures k < |ms| && Keeps(s, ms[k])
    ensures forall q :: Values(ms, q, s)[i] == Get(q, ms[k])
  {
    var n := |ms| - 1;
    if i < Count(ms[..n], s) {
      k := ValuesSource(ms[..n], s, i);
      ValuesPrefix(ms, s, i);
      assert ms[..n][k] == ms[k];
    } else {
      k := n;
    }
  }

  /** Every selected move has an entry in the selected series, at the same index for every quantity. */
  lemma {:induction false} ValuesHas(ms: seq<Move>, s: Selection, k: nat) returns (i: nat)
    requires k < |ms| && Keeps(s, ms[k])
    ensures i < Count(ms, s)
    ensures forall q :: Values(ms, q, s)[i] == Get(q, ms[k])
  {
    var n := |ms| - 1;
    if k < n {
      assert ms[..n][k] == ms[k];
      i := ValuesHas(ms[..n], s, k);
      ValuesPrefix(ms, s, i);
    } else {
      i := Count(ms[..n], s);
    }
  }

  // ---------------------------------------------------------------------------
  // Peak and percentiles of a selected series
  // ---------------------------------------------------------------------------

  /** The percentile helper: None when no weight is positive, otherwise a value of positive weight. */
  lemma PctLaws(vs: seq<real>, ws: seq<real>, q: real)
    requires |vs| == |ws|
    ensures Pct(vs, ws, q).None? <==> forall i :: 0 <= i < |vs| ==> ws[i] <= 0.0
    ensures Pct(vs, ws, q).Some? ==>
      exists i :: 0 <= i < |vs| && ws[i] > 0.0 && vs[i] == Pct(vs, ws, q).value
  {
    if |vs| > 0 {
      QuantileErrors(vs, Some(ws), q);
      QuantileNoneIffNoPositiveWeight(vs, ws, q);
      if Quantile(vs, Some(ws), q).value.Some? {
        QuantileIsParticipatingValue(vs, ws, q);
      }
    }
  }

  /** The peak of a selected series: None exactly when no move is selected, otherwise the largest selected value. */
  lemma PeakLaws(ms: seq<Move>, q: Quantity, s: Selection)
    ensures var peak := Peak(Values(ms, q, s));
      && (peak.None? <==> forall k :: 0 <= k < |ms| ==> !Keeps(s, ms[k]))
      && (peak.Some? ==>
            (exists k :: 0 <= k < |ms| && Keeps(s, ms[k]) && Get(q, ms[k]) == peak.value)
            && forall k :: 0 <= k < |ms| && Keeps(s, ms[k]) ==> Get(q, ms[k]) <= peak.value)
  {
    var vs := Values(ms, q, s);
    var peak := Peak(vs);
    if peak.None? {
      forall k | 0 <= k < |ms| && Keeps(s, ms[k])
        ensures false
      {
        var i := ValuesHas(ms, s, k);
      }
    } else {
      var i :| 0 <= i < |vs| && vs[i] == peak.value;
      var k := ValuesSource(ms, s, i);
      forall k' | 0 <= k' < |ms| && Keeps(s, ms[k'])
        ensures Get(q, ms[k']) <= peak.value
      {
        var i' := ValuesHas(ms, s, k');
        assert vs[i'] == Get(q, ms[k']);
      }
    }
  }

  /**
    The statistics of one selected series of a layer (speed or flow): the peak is None exactly
    when no move is selected and is otherwise the largest selected value; a percentile is
    None exactly when no selected move has positive time, and is otherwise the value of a
    selected move with positive time, hence at most the peak.
  */
  lemma SeriesLaws(ms: seq<Move>, q: Quantity, s: Selection, p: real)
    ensures var peak := Peak(Values(ms, q, s));
      && (peak.None? <==> forall k :: 0 <= k < |ms| ==> !Keeps(s, ms[k]))
      && (peak.Some? ==>
            (exists k :: 0 <= k < |ms| && Keeps(s, ms[k]) && Get(q, ms[k]) == peak.value)
            && forall k :: 0 <= k < |ms| && Keeps(s, ms[k]) ==> Get(q, ms[k]) <= peak.value)
    ensures var pct := Pct(Values(ms, q, s), Values(ms, TimeOf, s), p);
      && (pct.None? <==> forall k :: 0 <= k < |ms| && Keeps(s, ms[k]) ==> ms[k].time <= 0.0)
      && (pct.Some? ==>
            (exists k :: 0 <= k < |ms| && Keeps(s, ms[k]) && ms[k].time > 0.0 && Get(q, ms[k]) == pct.value)
            && Peak(Values(ms, q, s)).Some? && pct.value <= Peak(Values(ms, q, s)).value)
  {
    var vs, ws := Values(ms, q, s), Values(ms, TimeOf, s);
    var pct := Pct(vs, ws, p);
    PeakLaws(ms, q, s);
    PctLaws(vs, ws, p);
    if pct.None? {
      forall k | 0 <= k < |ms| && Keeps(s, ms[k])
        ensures ms[k].time <= 0.0
      {
        var i := ValuesHas(ms, s, k);
        assert ws[i] == Get(TimeOf, ms[k]);
      }
    } else {
      var i :| 0 <= i < |vs| && ws[i] > 0.0 && vs[i] == pct.value;
      var k := ValuesSource(ms, s, i);
      assert ws[i] == Get(TimeOf, ms[k]);
      assert vs[i] in vs;
    }
  }

  // ---------------------------------------------------------------------------
  // Sums
  // ---------------------------------------------------------------------------

  lemma {:induction false} SumNonNegative(ms: seq<Move>, q: Quantity, s: Selection)
    requires forall k :: 0 <= k < |ms| && Keeps(s, ms[k]) ==> Get(q, ms[k]) >= 0.0
    ensures Sum(ms, q, s) >= 0.0
  {
    if |ms| > 0 {
      var n := |ms| - 1;
      assert forall k :: 0 <= k < n ==> ms[..n][k] == ms[k];
      SumNonNegative(ms[..n], q, s);
    }
  }

  /** The retracted length sums negative deltas only: it is negative exactly when some move retracts. */
  lemma {:induction false} RetractSum(ms: seq<Move>)
    ensures Sum(ms, DeOf, Retract) <= 0.0
    ensures Sum(ms, DeOf, Retract) < 0.0 <==> Count(ms, Retract) > 0
    ensures Count(ms, Retract) == 0 <==> forall k :: 0 <= k < |ms| ==> ms[k].de >= 0.0
  {
    if |ms| > 0 {
      var n := |ms| - 1;
      assert forall k :: 0 <= k < n ==> ms[..n][k] == ms[k];
      RetractSum(ms[..n]);
    }
  }

  /** Travel time and extrusion time are disjoint parts of the layer's time. */
  lemma {:induction false} TimeSplit(ms: seq<Move>)
    requires forall k :: 0 <= k < |ms| ==> ms[k].time >= 0.0
    ensures Sum(ms, TimeOf, Travel) >= 0.0 && Sum(ms, TimeOf, TimedExtrude) >= 0.0
    ensures Sum(ms, TimeOf, Travel) + Sum(ms, TimeOf, TimedExtrude) <= Sum(ms, TimeOf, AllMoves)
  {
    if |ms| > 0 {
      var n := |ms| - 1;
      assert forall k :: 0 <= k < n ==> ms[..n][k] == ms[k];
      TimeSplit(ms[..n]);
    }
  }

  // ---------------------------------------------------------------------------
  // One row
  // ---------------------------------------------------------------------------

  /**
    The sums of a row: extrusion counts positive deltas only; the retracted length is
    positive exactly when some move retracts; and, with non-negative move times, travel and
    extrusion time fit within the layer's time.
  */
  lemma RowSums(layer: nat, ms: seq<Move>, z: real, height: Option<real>, shortFast: nat, limits: Limits)
    ensures var r := Row(layer, ms, z, height, shortFast, limits);
      && r.extrusion >= 0.0
      && r.retractMm >= 0.0
      && (r.retractMm > 0.0 <==> r.retractCount > 0)
      && (r.retractCount == 0 <==> forall k :: 0 <= k < |ms| ==> ms[k].de >= 0.0)
    ensures var r := Row(layer, ms, z, height, shortFast, limits);
      (forall k :: 0 <= k < |ms| ==> ms[k].time >= 0.0) ==>
        r.travelTime >= 0.0 && r.extrudeTime >= 0.0 && r.travelTime + r.extrudeTime <= r.time
  {
    SumNonNegative(ms, DeOf, Extruding);
    RetractSum(ms);
    if forall k :: 0 <= k < |ms| ==> ms[k].time >= 0.0 {
      TimeSplit(ms);
    }
  }

  lemma AverageLaws(total: real, t: real)
    ensures Average(total, t).Some? <==> t > 0.0
    ensures Average(total, t).Some? ==> Average(total, t).value * t == total
  {
  }

  /**
    The averages of a row exist exactly when the layer takes time, and then average speed
    times time is the distance; headroom is the limit minus the p99 when both exist.
  */
  lemma RowAverages(layer: nat, ms: seq<Move>, z: real, height: Option<real>, shortFast: nat, limits: Limits)
    ensures var r := Row(layer, ms, z, height, shortFast, limits);
      && (r.avgSpeed.Some? <==> r.time > 0.0)
      && (r.avgSpeed.Some? ==> r.avgSpeed.value * r.time == r.dist)
      && (r.avgFlow.Some? <==> r.time > 0.0)
    ensures var r := Row(layer, ms, z, height, shortFast, limits);
      && (r.flowHeadroom.Some? <==> limits.maxVolumetricSpeed.Some? && r.p99Flow.Some?)
      && (r.flowHeadroom.Some? ==> r.flowHeadroom.value == limits.maxVolumetricSpeed.value - r.p99Flow.value)
      && (r.speedHeadroom.Some? <==> limits.maxPrintSpeed.Some? && r.p99Speed.Some?)
      && (r.speedHeadroom.Some? ==> r.speedHeadroom.value == limits.maxPrintSpeed.value - r.p99Speed.value)
  {
    var t, d := Sum(ms, TimeOf, AllMoves), Sum(ms, DistOf, AllMoves);
    AverageLaws(d, t);
  }

  /**
    For moves the parser produced, every move selected for the speed or the flow statistics
    takes time, so a percentile of either series is present exactly when its peak is.
  */
  lemma ParsedSeriesPresence(ms: seq<Move>, q: Quantity, s: Selection, p: real,
                             area: real, dist: (real, real, real) -> real)
    requires forall k :: 0 <= k < |ms| ==> Sound(ms[k], area, dist)
    requires s == HasSpeed || s == Flowing
    ensures Pct(Values(ms, q, s), Values(ms, TimeOf, s), p).Some? <==> Peak(Values(ms, q, s)).Some?
  {
    SeriesLaws(ms, q, s, p);
  }

  // ---------------------------------------------------------------------------
  // Grouping
  // ---------------------------------------------------------------------------

  /** A layer's group holds exactly the moves of that layer. */
  lemma {:induction false} InLayerMembers(ms: seq<Move>, l: nat)
    ensures forall m :: m in InLayer(ms, l) <==> m in ms && m.layer == l
  {
    if |ms| > 0 {
      var n := |ms| - 1;
      InLayerMembers(ms[..n], l);
      assert ms == ms[..n] + [ms[n]];
    }
  }

  /** The last move of a non-empty group is the last move of the file in that layer. */
  lemma {:induction false} InLayerLast(ms: seq<Move>, l: nat) returns (k: nat)
    requires |InLayer(ms, l)| > 0
    ensures k < |ms| && ms[k].layer == l
    ensures InLayer(ms, l)[|InLayer(ms, l)| - 1] == ms[k]
    ensures forall j :: k < j < |ms| ==> ms[j].layer != l
  {
    var n := |ms| - 1;
    if ms[n].layer == l {
      k := n;
    } else {
      k := InLayerLast(ms[..n], l);
      assert ms[..n][k] == ms[k];
      forall j | k < j < |ms|
        ensures ms[j].layer != l
      {
        if j < n {
          assert ms[..n][j] == ms[j];
        }
      }
    }
  }

  // ---------------------------------------------------------------------------
  // The table
  // ---------------------------------------------------------------------------

  /** The fields of a row that do not need the statistics. */
  lemma RowOfShape(key: LayerKey)
    ensures var r := RowOf(key);
      && r.layer == key.layer && r.z == key.z && r.layerHeight == key.height
      && r.dynamicsScore == Count(key.ms, ShortFast)
      && r.time == Sum(key.ms, TimeOf, AllMoves)
      && r.travelTime == Sum(key.ms, TimeOf, Travel)
      && r.extrudeTime == Sum(key.ms, TimeOf, TimedExtrude)
      && r.retractCount == Count(key.ms, Retract)
      && r.retractMm == -Sum(key.ms, DeOf, Retract)
  {
  }

  /** The layer numbers of the table: ascending, each one of a move, and every move's one among them. */
  lemma SortedLayersLaws(moves: seq<Move>)
    ensures var ls := SortedLayers(moves);
      forall i, j :: 0 <= i < j < |ls| ==> ls[i] < ls[j]
    ensures var ls := SortedLayers(moves);
      forall i :: 0 <= i < |ls| ==> exists k :: 0 <= k < |moves| && moves[k].layer == ls[i]
    ensures var ls := SortedLayers(moves);
      forall k :: 0 <= k < |moves| ==> exists i :: 0 <= i < |ls| && ls[i] == moves[k].layer
  {
    var ls := SortedLayers(moves);
    forall i | 0 <= i < |ls|
      ensures exists k :: 0 <= k < |moves| && moves[k].layer == ls[i]
    {
      assert ls[i] in ls;
      assert ls[i] in LayerSet(moves);
    }
    forall k | 0 <= k < |moves|
      ensures exists i :: 0 <= i < |ls| && ls[i] == moves[k].layer
    {
      assert moves[k].layer in LayerSet(moves);
      assert moves[k].layer in ls;
    }
  }

  /**
    The keys of the row loop: one per layer of ls, carrying that layer's group and the limits;
    the Z is the layer's recorded Z when there is one and otherwise the Z of the group's last
    move; the first key has no height and every later key's height is its Z minus the
    previous key's Z.
  */
  lemma KeysLaws(ls: seq<nat>, groups: map<nat, seq<Move>>, layerZ: map<nat, real>, limits: Limits)
    requires GroupsCover(ls, groups)
    ensures |Keys(ls, groups, layerZ, limits)| == |ls|
    ensures forall i :: 0 <= i < |ls| ==>
      var key, ms := Keys(ls, groups, layerZ, limits)[i], groups[ls[i]];
      (key.layer, key.ms, key.limits) == (ls[i], ms, limits)
      && key.z == (if ls[i] in layerZ then layerZ[ls[i]] else ms[|ms| - 1].z)
    ensures |ls| > 0 ==> Keys(ls, groups, layerZ, limits)[0].height.None?
    ensures forall i :: 0 < i < |ls| ==>
      var keys := Keys(ls, groups, layerZ, limits);
      keys[i].height == Some(keys[i].z - keys[i - 1].z)
  {
    forall i | 0 <= i < |ls| {
      KeyFields(ls, i, groups, layerZ, limits);
    }
  }

  /** The fields of the k-th key. */
  lemma KeyFields(ls: seq<nat>, k: nat, groups: map<nat, seq<Move>>, layerZ: map<nat, real>, limits: Limits)
    requires k < |ls| && GroupsCover(ls, groups)
    ensures var key, ms := Keys(ls, groups, layerZ, limits)[k], groups[ls[k]];
      (key.layer, key.ms, key.limits) == (ls[k], ms, limits)
      && key.z == (if ls[k] in layerZ then layerZ[ls[k]] else ms[|ms| - 1].z)
      && (k == 0 ==> key.height.None?)
      && (k > 0 ==> key.height == Some(key.z - Keys(ls, groups, layerZ, limits)[k - 1].z))
  {
  }

  /**
    The i-th key of the table has the i-th smallest layer number among the moves, and the
    moves of that layer in file order, of which there is at least one.
  */
  lemma TableKeysAt(moves: seq<Move>, layerZ: map<nat, real>, limits: Limits)
    ensures |TableKeys(moves, layerZ, limits)| == |SortedLayers(moves)|
    ensures forall i :: 0 <= i < |SortedLayers(moves)| ==>
      var key := TableKeys(moves, layerZ, limits)[i];
      (key.layer, key.ms) == (SortedLayers(moves)[i], InLayer(moves, SortedLayers(moves)[i])) && |key.ms| > 0
  {
    SortedLayersInGroups(moves);
  }
}
