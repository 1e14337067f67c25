/**
  Weighted quantiles and fixed-width histogram bins (gcode_profiler/stats.py; the copies of
  make_bins and bin_counts in gcode_parser.py are the same code and are modelled once, here).
*/
module Stats {
  import opened Wrappers
  import opened Sorting

  // ---------------------------------------------------------------------------
  // weighted_quantile
  // ---------------------------------------------------------------------------

  /** A (value, weight) pair as weighted_quantile collects them. */
  datatype Pair = Pair(value: real, weight: real)

  /** The ValueError raised when values and weights differ in length. */
  datatype QuantileError = LengthMismatch

  function PairValue(p: Pair): real {
    p.value
  }

  /** max(0.0, min(1.0, q)). */
  function Clamp01(q: real): (r: real)
    ensures 0.0 <= r <= 1.0
    ensures 0.0 <= q <= 1.0 ==> r == q
    ensures q < 0.0 ==> r == 0.0
    ensures q > 1.0 ==> r == 1.0
  {
    if q < 0.0 then 0.0 else if q > 1.0 then 1.0 else q
  }

  /** `[1.0] * n`, the weights used when none are given. */
  function Ones(n: nat): (ws: seq<real>)
    ensures |ws| == n && forall i :: 0 <= i < n ==> ws[i] == 1.0
  {
    seq(n, _ => 1.0)
  }

  /** The weights in effect: the given ones, or all 1.0 when None. */
  function EffectiveWeights(n: nat, weights: Option<seq<real>>): seq<real> {
    if weights.None? then Ones(n) else weights.value
  }

  /** The pairs whose weight is positive, in input order. */
  function Participating(values: seq<real>, weights: seq<real>): (ps: seq<Pair>)
    requires |values| == |weights|
    ensures forall k :: 0 <= k < |ps| ==> ps[k].weight > 0.0
  {
    if |values| == 0 then []
    else
      var n := |values| - 1;
      var rest := Participating(values[..n], weights[..n]);
      if weights[n] > 0.0 then rest + [Pair(values[n], weights[n])] else rest
  }

  /** Every pair whose weight is positive participates. */
  lemma {:induction false} ParticipatingIncludes(values: seq<real>, weights: seq<real>, i: nat)
    requires |values| == |weights| && i < |values| && weights[i] > 0.0
    ensures Pair(values[i], weights[i]) in Participating(values, weights)
  {
    var n := |values| - 1;
    if i < n {
      ParticipatingIncludes(values[..n], weights[..n], i);
    }
  }

  /** Each participating pair comes from some position of the input. */
  lemma {:induction false} ParticipatingSource(values: seq<real>, weights: seq<real>, p: Pair) returns (i: nat)
    requires |values| == |weights| && p in Participating(values, weights)
    ensures i < |values| && p == Pair(values[i], weights[i])
  {
    var n := |values| - 1;
    if weights[n] > 0.0 && p == Pair(values[n], weights[n]) {
      i := n;
    } else {
      i := ParticipatingSource(values[..n], weights[..n], p);
    }
  }

  /** The sum of the first m weights. */
  function Prefix(ps: seq<Pair>, m: nat): real
    requires m <= |ps|
  {
    if m == 0 then 0.0 else ps[0].weight + Prefix(ps[1..], m - 1)
  }

  /** `sum(w for _, w in pairs)`. */
  function TotalWeight(ps: seq<Pair>): real {
    Prefix(ps, |ps|)
  }

  /** `q * total_w`: the running weight the scan must reach. */
  function Cutoff(q: real, ps: seq<Pair>): (c: real)
    ensures 0.0 <= q <= 1.0 && TotalWeight(ps) >= 0.0 ==> 0.0 <= c <= TotalWeight(ps)
    ensures q == 1.0 ==> c == TotalWeight(ps)
  {
    assert (1.0 - q) * TotalWeight(ps) == TotalWeight(ps) - q * TotalWeight(ps);
    q * TotalWeight(ps)
  }

  /**
    Scanning ps in order with a running weight sum that starts at acc: the first value at
    which the sum reaches cutoff, or the last value when none does.
  */
  function FirstReaching(ps: seq<Pair>, cutoff: real, acc: real): real
    requires |ps| > 0
  {
    var acc' := acc + ps[0].weight;
    if acc' >= cutoff || |ps| == 1 then ps[0].value else FirstReaching(ps[1..], cutoff, acc')
  }

  /** The participating pairs in ascending order of value, as `pairs.sort(key=...)` leaves them. */
  function SortedPairs(values: seq<real>, weights: seq<real>): (s: seq<Pair>)
    requires |values| == |weights|
    ensures SortedBy(s, PairValue)
    ensures multiset(s) == multiset(Participating(values, weights))
  {
    SortBy(Participating(values, weights), PairValue)
  }

  /** The scan over the sorted participating pairs, with cutoff q times their total weight. */
  function QuantileOfSorted(s: seq<Pair>, q: real): Option<real> {
    if |s| == 0 then None else Some(FirstReaching(s, Cutoff(Clamp01(q), s), 0.0))
  }

  /** What weighted_quantile(values, weights, q) returns or raises. */
  function Quantile(values: seq<real>, weights: Option<seq<real>>, q: real): Result<Option<real>, QuantileError> {
    if |values| == 0 then Success(None)
    else
      var ws := EffectiveWeights(|values|, weights);
      if |values| != |ws| then Failure(LengthMismatch)
      else
        Success(QuantileOfSorted(SortedPairs(values, ws), q))
  }

  /**
    weighted_quantile: clamp q, keep the pairs with positive weight, sort them by value and
    return the first value whose running weight sum reaches q times the total weight.
  */
  method WeightedQuantile(values: seq<real>, weights: Option<seq<real>>, q: real)
    returns (r: Result<Option<real>, QuantileError>)
    ensures r == Quantile(values, weights, q)
  {
    if |values| == 0 {
      return Success(None);
    }
    var ws := if weights.None? then Ones(|values|) else weights.value;
    if |values| != |ws| {
      return Failure(LengthMismatch);
    }
    var qc := Clamp01(q);
    var pairs := Participating(values, ws);
    if |pairs| == 0 {
      return Success(None);
    }
    pairs := SortBy(pairs, PairValue);
    var v := ScanToCutoff(pairs, Cutoff(qc, pairs));
    return Success(Some(v));
  }

  /**
    The closing loop of weighted_quantile: add up the weights in order and return the first
    value at which the sum reaches the cutoff, or the last value when none does.
  */
  method ScanToCutoff(pairs: seq<Pair>, cutoff: real) returns (v: real)
    requires |pairs| > 0
    ensures v == FirstReaching(pairs, cutoff, 0.0)
  {
    var acc := 0.0;
    var i := 0;
    assert pairs[i..] == pairs;
    while i < |pairs|
      invariant 0 <= i <= |pairs|
      invariant i < |pairs| ==> FirstReaching(pairs, cutoff, 0.0) == FirstReaching(pairs[i..], cutoff, acc)
      invariant i == |pairs| ==> FirstReaching(pairs, cutoff, 0.0) == pairs[|pairs| - 1].value
    {
      acc := acc + pairs[i].weight;
      if acc >= cutoff {
        return pairs[i].value;
      }
      assert pairs[i..][1..] == pairs[i + 1..];
      i := i + 1;
    }
    return pairs[|pairs| - 1].value;
  }

  // Properties of the quantile -------------------------------------------------

  predicate PositiveWeights(ps: seq<Pair>) {
    forall k :: 0 <= k < |ps| ==> ps[k].weight > 0.0
  }

  /** With positive weights the running sum grows strictly with every pair. */
  lemma {:induction false} PrefixIncreasing(ps: seq<Pair>, i: nat, j: nat)
    requires PositiveWeights(ps) && i <= j <= |ps|
    ensures Prefix(ps, i) <= Prefix(ps, j)
    ensures i < j ==> Prefix(ps, i) < Prefix(ps, j)
  {
    if j > 0 {
      assert PositiveWeights(ps[1..]);
      if i == 0 {
        PrefixIncreasing(ps[1..], 0, j - 1);
      } else {
        PrefixIncreasing(ps[1..], i - 1, j - 1);
      }
    }
  }

  /**
    The scan stops at index k: the running sum through k reaches the cutoff (or k is the
    last index), and no shorter running sum does.
  */
  lemma {:induction false} FirstReachingScan(ps: seq<Pair>, cutoff: real, acc: real) returns (k: nat)
    requires |ps| > 0
    ensures k < |ps| && ps[k].value == FirstReaching(ps, cutoff, acc)
    ensures acc + Prefix(ps, k + 1) >= cutoff || k == |ps| - 1
    ensures forall j :: 0 < j <= k ==> acc + Prefix(ps, j) < cutoff
  {
    var acc' := acc + ps[0].weight;
    assert Prefix(ps, 1) == ps[0].weight;
    if acc' >= cutoff || |ps| == 1 {
      k := 0;
    } else {
      var k' := FirstReachingScan(ps[1..], cutoff, acc');
      k := k' + 1;
      forall j | 0 < j <= k ensures acc + Prefix(ps, j) < cutoff {
        assert Prefix(ps, j) == ps[0].weight + Prefix(ps[1..], j - 1);
      }
    }
  }

  /** Where values is empty the result is None, and the length mismatch is the only error. */
  lemma QuantileErrors(values: seq<real>, weights: Option<seq<real>>, q: real)
    ensures |values| == 0 ==> Quantile(values, weights, q) == Success(None)
    ensures Quantile(values, weights, q).Failure?
      <==> |values| > 0 && weights.Some? && |weights.value| != |values|
  {
  }

  /** Without weights every value weighs 1.0. */
  lemma QuantileDefaultWeights(values: seq<real>, q: real)
    ensures Quantile(values, None, q) == Quantile(values, Some(Ones(|values|)), q)
  {
  }

  /** No pair participates exactly when no weight is positive. */
  lemma {:induction false} NoneParticipate(values: seq<real>, weights: seq<real>)
    requires |values| == |weights|
    ensures |Participating(values, weights)| == 0 <==> forall i :: 0 <= i < |values| ==> weights[i] <= 0.0
  {
    if |values| > 0 {
      var n := |values| - 1;
      NoneParticipate(values[..n], weights[..n]);
      assert forall i :: 0 <= i < n ==> weights[..n][i] == weights[i];
    }
  }

  /** The result is None exactly when no weight is positive. */
  lemma QuantileNoneIffNoPositiveWeight(values: seq<real>, weights: seq<real>, q: real)
    requires |values| == |weights|
    ensures Quantile(values, Some(weights), q) == Success(None)
      <==> forall i :: 0 <= i < |values| ==> weights[i] <= 0.0
  {
    NoneParticipate(values, weights);
  }

  /** The result, when there is one, is a value whose weight is positive. */
  lemma QuantileIsParticipatingValue(values: seq<real>, weights: seq<real>, q: real)
    requires |values| == |weights|
    requires Quantile(values, Some(weights), q).Success?
    requires Quantile(values, Some(weights), q).value.Some?
    ensures exists i :: (0 <= i < |values| && weights[i] > 0.0
      && values[i] == Quantile(values, Some(weights), q).value.value)
  {
    var s := SortedPairs(values, weights);
    var k := FirstReachingScan(s, Cutoff(Clamp01(q), s), 0.0);
    assert s[k] in multiset(Participating(values, weights));
    var i := ParticipatingSource(values, weights, s[k]);
  }

  /**
    The quantile is the first value, in ascending order of value, whose running weight sum
    reaches q times the total weight (q clamped into [0, 1]): every shorter running sum
    falls short of that cutoff.
  */
  lemma QuantileIsFirstToReachCutoff(values: seq<real>, weights: seq<real>, q: real)
    requires |values| == |weights|
    requires exists i :: 0 <= i < |weights| && weights[i] > 0.0
    ensures var s := SortedPairs(values, weights);
            var cutoff := Cutoff(Clamp01(q), s);
            exists k :: 0 <= k < |s|
              && Quantile(values, Some(weights), q) == Success(Some(s[k].value))
              && Prefix(s, k + 1) >= cutoff
              && (forall j :: 0 < j <= k ==> Prefix(s, j) < cutoff)
  {
    var s := SortedPairs(values, weights);
    assert |s| > 0 by {
      var i :| 0 <= i < |weights| && weights[i] > 0.0;
      ParticipantInSorted(values, weights, i);
    }
    var cutoff := Cutoff(Clamp01(q), s);
    var k := FirstReachingScan(s, cutoff, 0.0);
    assert Quantile(values, Some(weights), q) == Success(Some(s[k].value)) by {
      assert EffectiveWeights(|values|, Some(weights)) == weights;
    }
    assert Prefix(s, k + 1) >= cutoff by {
      if k == |s| - 1 {
        PositiveWeightsSorted(values, weights);
        PrefixIncreasing(s, 0, |s|);
      }
    }
  }

  lemma PositiveWeightsSorted(values: seq<real>, weights: seq<real>)
    requires |values| == |weights|
    ensures PositiveWeights(SortedPairs(values, weights))
  {
    var s := SortedPairs(values, weights);
    var ps := Participating(values, weights);
    forall k | 0 <= k < |s| ensures s[k].weight > 0.0 {
      assert s[k] in multiset(ps);
    }
  }

  /** Every value with positive weight appears among the sorted pairs. */
  lemma ParticipantInSorted(values: seq<real>, weights: seq<real>, i: nat)
    requires |values| == |weights| && i < |values| && weights[i] > 0.0
    ensures exists k :: (0 <= k < |SortedPairs(values, weights)|
      && SortedPairs(values, weights)[k].value == values[i])
  {
    var s := SortedPairs(values, weights);
    var ps := Participating(values, weights);
    ParticipatingIncludes(values, weights, i);
    assert Pair(values[i], weights[i]) in multiset(ps);
    assert Pair(values[i], weights[i]) in s;
  }

  /** q = 0 (or below) gives the smallest value that has positive weight. */
  lemma QuantileAtZeroIsMinimum(values: seq<real>, weights: seq<real>, q: real)
    requires |values| == |weights|
    requires exists i :: 0 <= i < |weights| && weights[i] > 0.0
    requires q <= 0.0
    ensures Quantile(values, Some(weights), q).Success?
    ensures var r := Quantile(values, Some(weights), q).value;
      r.Some? && forall i :: 0 <= i < |values| && weights[i] > 0.0 ==> r.value <= values[i]
  {
    var s := SortedPairs(values, weights);
    var i0 :| 0 <= i0 < |weights| && weights[i0] > 0.0;
    ParticipantInSorted(values, weights, i0);
    PositiveWeightsSorted(values, weights);
    assert FirstReaching(s, Cutoff(Clamp01(q), s), 0.0) == s[0].value;
    forall i | 0 <= i < |values| && weights[i] > 0.0 ensures s[0].value <= values[i] {
      ParticipantInSorted(values, weights, i);
    }
  }

  /** With positive weights, scanning to the total weight stops only at the last pair. */
  lemma ScanToTotalIsLast(s: seq<Pair>)
    requires |s| > 0 && PositiveWeights(s)
    ensures FirstReaching(s, TotalWeight(s), 0.0) == s[|s| - 1].value
  {
    var k := FirstReachingScan(s, TotalWeight(s), 0.0);
    if k + 1 < |s| {
      PrefixIncreasing(s, k + 1, |s|);
    }
  }

  /** q = 1 (or above) gives the largest value that has positive weight. */
  lemma QuantileAtOneIsMaximum(values: seq<real>, weights: seq<real>, q: real)
    requires |values| == |weights|
    requires exists i :: 0 <= i < |weights| && weights[i] > 0.0
    requires q >= 1.0
    ensures Quantile(values, Some(weights), q).Success?
    ensures var r := Quantile(values, Some(weights), q).value;
      r.Some? && forall i :: 0 <= i < |values| && weights[i] > 0.0 ==> values[i] <= r.value
  {
    var i0 :| 0 <= i0 < |weights| && weights[i0] > 0.0;
    ParticipantInSorted(values, weights, i0);
    var s := SortedPairs(values, weights);
    PositiveWeightsSorted(values, weights);
    assert Cutoff(Clamp01(q), s) == TotalWeight(s);
    ScanToTotalIsLast(s);
    forall i | 0 <= i < |values| && weights[i] > 0.0 ensures values[i] <= s[|s| - 1].value {
      ParticipantInSorted(values, weights, i);
    }
  }

  /** Both values of the example below have positive weight. */
  lemma ExampleParticipating()
    ensures Participating([0.0, 100.0], [9.0, 1.0]) == [Pair(0.0, 9.0), Pair(100.0, 1.0)]
  {
    var values, weights := [0.0, 100.0], [9.0, 1.0];
    assert values[..1] == [0.0] && weights[..1] == [9.0];
    assert [0.0][..0] == [] && [9.0][..0] == [];
    assert Participating([0.0], [9.0]) == [Pair(0.0, 9.0)];
  }

  /** The example's pairs are already in ascending order of value. */
  lemma ExampleSorted()
    ensures SortBy([Pair(0.0, 9.0), Pair(100.0, 1.0)], PairValue) == [Pair(0.0, 9.0), Pair(100.0, 1.0)]
  {
    var p0, p1 := Pair(0.0, 9.0), Pair(100.0, 1.0);
    assert [p0, p1][..1] == [p0] && [p0][..0] == [];
    assert SortBy([p0], PairValue) == [p0];
    assert [p0][1..] == [];
    assert Insert(p1, [p0], PairValue) == [p0, p1];
  }

  /** The two weighted values of the example below, in ascending order of value. */
  lemma ExamplePairs()
    ensures SortedPairs([0.0, 100.0], [9.0, 1.0]) == [Pair(0.0, 9.0), Pair(100.0, 1.0)]
  {
    ExampleParticipating();
    ExampleSorted();
  }

  /** With 90% of the weight on 0.0 the median is 0.0. */
  lemma QuantileWeightedTowardsLow()
    ensures Quantile([0.0, 100.0], Some([9.0, 1.0]), 0.5) == Success(Some(0.0))
  {
    var s := [Pair(0.0, 9.0), Pair(100.0, 1.0)];
    ExamplePairs();
    assert TotalWeight(s) == 10.0 by {
      assert s[1..] == [Pair(100.0, 1.0)] && Prefix(s[1..], 1) == 1.0;
    }
  }


  // ---------------------------------------------------------------------------
  // make_bins
  // ---------------------------------------------------------------------------

  /** One histogram interval (lo, hi). */
  datatype Bin = Bin(lo: real, hi: real)

  /**
    The i-th of the n + 1 edges of n equal-width intervals from lo to hi: lo itself, then
    lo + i * step with step = (hi - lo) / n, and hi itself as the last edge (make_bins uses
    max_v rather than lo + n * step for the final upper bound).
  */
  function Edge(lo: real, hi: real, n: nat, i: nat): real
    requires n >= 1
  {
    if i == 0 then lo else if i == n then hi else lo + i as real * ((hi - lo) / n as real)
  }

  /**
    n contiguous intervals from lo to hi: each starts where the previous one ends, the first
    starts at lo and the last ends at hi.
  */
  function EqualWidthBins(lo: real, hi: real, n: nat): (bins: seq<Bin>)
    requires n >= 1
    ensures |bins| == n
    ensures bins[0].lo == lo && bins[n - 1].hi == hi
  {
    seq(n, i requires 0 <= i < n => Bin(Edge(lo, hi, n, i), Edge(lo, hi, n, i + 1)))
  }

  /** Every interval has the same width (hi - lo) / n. */
  lemma EqualWidths(lo: real, hi: real, n: nat, i: nat)
    requires n >= 1 && i < n
    ensures var b := EqualWidthBins(lo, hi, n)[i]; b.hi - b.lo == (hi - lo) / n as real
  {
    var step := (hi - lo) / n as real;
    assert (i + 1) as real * step == i as real * step + step;
    if i + 1 == n {
      assert step * n as real == hi - lo;
    }
  }

  /** With lo < hi the intervals are non-empty and lie inside [lo, hi]. */
  lemma BinsInside(lo: real, hi: real, n: nat, i: nat)
    requires n >= 1 && lo < hi && i < n
    ensures var b := EqualWidthBins(lo, hi, n)[i]; lo <= b.lo < b.hi <= hi
  {
    EqualWidths(lo, hi, n, i);
    var step := (hi - lo) / n as real;
    assert step > 0.0;
    assert i as real * step >= 0.0;
    if i + 1 < n {
      assert step * n as real == hi - lo;
      assert (n - i - 1) as real * step >= 0.0;
      assert (i + 1) as real * step + (n - i - 1) as real * step == n as real * step;
    }
  }


  lemma BinAt(lo: real, hi: real, n: nat, i: nat)
    requires n >= 1 && i < n
    ensures EqualWidthBins(lo, hi, n)[i] == Bin(Edge(lo, hi, n, i), Edge(lo, hi, n, i + 1))
  {
  }

  /** The bin count make_bins uses: at least one. */
  function AtLeastOne(bins: int): (n: nat)
    ensures n >= 1 && (bins >= 1 ==> n == bins) && (bins < 1 ==> n == 1)
  {
    if bins < 1 then 1 else bins
  }

  /** make_bins's result: bounds put in order, one interval for equal bounds, else `bins` of them. */
  function BinsSpec(minV: real, maxV: real, bins: int): seq<Bin> {
    var lo := if maxV < minV then maxV else minV;
    var hi := if maxV < minV then minV else maxV;
    if lo == hi then [Bin(lo, hi)] else EqualWidthBins(lo, hi, AtLeastOne(bins))
  }

  /**
    make_bins: a bin count below 1 counts as 1, swapped bounds are put in order, equal
    bounds give the single interval (min, max); otherwise `bins` contiguous intervals from
    min to max.
  */
  method MakeBins(minV: real, maxV: real, bins: int) returns (out: seq<Bin>)
    ensures out == BinsSpec(minV, maxV, bins)
  {
    var n := bins;
    if n < 1 {
      n := 1;
    }
    var lo, hi := minV, maxV;
    if hi < lo {
      lo, hi := hi, lo;
    }
    if lo == hi {
      return [Bin(lo, hi)];
    }
    ghost var spec := EqualWidthBins(lo, hi, n);
    out := [];
    var cur := lo;
    var i := 0;
    while i < n
      invariant 0 <= i <= n
      invariant out == spec[..i]
      invariant cur == Edge(lo, hi, n, i)
    {
      var next := Edge(lo, hi, n, i + 1);
      BinAt(lo, hi, n, i);
      assert spec[..i + 1] == spec[..i] + [spec[i]];
      out := out + [Bin(cur, next)];
      cur := next;
      i := i + 1;
    }
  }

  /** What make_bins promises about its intervals. */
  lemma MakeBinsShape(minV: real, maxV: real, bins: int)
    ensures var out := BinsSpec(minV, maxV, bins);
      && |out| >= 1
      && out[0].lo == (if maxV < minV then maxV else minV)
      && out[|out| - 1].hi == (if maxV < minV then minV else maxV)
      && (minV != maxV ==> |out| == AtLeastOne(bins))
      && (minV == maxV ==> out == [Bin(minV, maxV)])
      && forall i :: 0 <= i < |out| - 1 ==> out[i].hi == out[i + 1].lo
  {
  }

  // ---------------------------------------------------------------------------
  // bin_counts
  // ---------------------------------------------------------------------------

  /** Bin i holds v: half-open [lo, hi) except the last bin, which is closed [lo, hi]. */
  predicate InBin(v: real, bins: seq<Bin>, i: nat)
    requires i < |bins|
  {
    if i < |bins| - 1 then bins[i].lo <= v < bins[i].hi else bins[i].lo <= v <= bins[i].hi
  }

  /** The first bin at or after i that holds v. */
  function FirstBinFrom(v: real, bins: seq<Bin>, i: nat): (r: Option<nat>)
    ensures r.Some? ==> (i <= r.value < |bins| && InBin(v, bins, r.value)
      && forall m :: i <= m < r.value ==> !InBin(v, bins, m))
    ensures r.None? ==> forall m :: i <= m < |bins| ==> !InBin(v, bins, m)
    decreases |bins| - i
  {
    if i >= |bins| then None
    else if InBin(v, bins, i) then Some(i)
    else FirstBinFrom(v, bins, i + 1)
  }

  /**
    The bin bin_counts puts v in: the first bin that holds it; a value no bin holds goes to
    bin 0 when it lies below the first bin's lower edge and to the last bin otherwise.
  */
  function BinOf(v: real, bins: seq<Bin>): (b: nat)
    requires |bins| > 0
    ensures b < |bins|
  {
    match FirstBinFrom(v, bins, 0)
    case Some(i) => i
    case None => if v < bins[0].lo then 0 else |bins| - 1
  }

  /** How many of the values (None skipped) land in bin b. */
  function CountInBin(values: seq<Option<real>>, bins: seq<Bin>, b: nat): nat
    requires |bins| > 0
  {
    if |values| == 0 then 0
    else
      var v := values[|values| - 1];
      CountInBin(values[..|values| - 1], bins, b)
        + (if v.Some? && BinOf(v.value, bins) == b then 1 else 0)
  }

  function NonNoneCount(values: seq<Option<real>>): nat {
    if |values| == 0 then 0
    else NonNoneCount(values[..|values| - 1]) + (if values[|values| - 1].Some? then 1 else 0)
  }

  /**
    bin_counts: one count per bin; each value that is not None is counted in exactly the
    bin BinOf names.
  */
  method BinCounts(values: seq<Option<real>>, bins: seq<Bin>) returns (counts: seq<nat>)
    ensures |counts| == |bins|
    ensures |bins| > 0 ==> forall b :: 0 <= b < |bins| ==> counts[b] == CountInBin(values, bins, b)
  {
    var c := new nat[|bins|](_ => 0);
    if |bins| == 0 {
      return c[..];
    }
    var k := 0;
    while k < |values|
      invariant 0 <= k <= |values|
      invariant forall b :: 0 <= b < |bins| ==> c[b] == CountInBin(values[..k], bins, b)
    {
      assert values[..k + 1][..k] == values[..k];
      var v := values[k];
      if v.Some? {
        ghost var target := BinOf(v.value, bins);
        var placed := false;
        var i := 0;
        while i < |bins|
          invariant 0 <= i <= |bins|
          invariant forall j :: 0 <= j < i ==> !InBin(v.value, bins, j)
        {
          var lo, hi := bins[i].lo, bins[i].hi;
          if i < |bins| - 1 {
            if lo <= v.value < hi {
              assert InBin(v.value, bins, i);
              assert target == i;
              c[i] := c[i] + 1;
              placed := true;
              break;
            }
          } else {
            if lo <= v.value <= hi {
              assert InBin(v.value, bins, i);
              assert target == i;
              c[i] := c[i] + 1;
              placed := true;
              break;
            }
          }
          i := i + 1;
        }
        if !placed {
          assert FirstBinFrom(v.value, bins, 0).None?;
          if v.value < bins[0].lo {
            c[0] := c[0] + 1;
          } else {
            c[|bins| - 1] := c[|bins| - 1] + 1;
          }
        }
      }
      k := k + 1;
    }
    assert values[..k] == values;
    counts := c[..];
  }

  /** The counts of bins from..|bins|-1, summed. */
  function SumCounts(values: seq<Option<real>>, bins: seq<Bin>, from: nat): nat
    requires |bins| > 0 && from <= |bins|
    decreases |bins| - from
  {
    if from == |bins| then 0 else CountInBin(values, bins, from) + SumCounts(values, bins, from + 1)
  }

  lemma {:induction false} SumCountsStep(values: seq<Option<real>>, bins: seq<Bin>, from: nat)
    requires |bins| > 0 && |values| > 0 && from <= |bins|
    ensures var n := |values| - 1; var v := values[n];
      SumCounts(values, bins, from) == SumCounts(values[..n], bins, from)
        + (if v.Some? && BinOf(v.value, bins) >= from then 1 else 0)
    decreases |bins| - from
  {
    if from < |bins| {
      SumCountsStep(values, bins, from + 1);
    }
  }

  lemma {:induction false} SumCountsOfNothing(bins: seq<Bin>, from: nat)
    requires |bins| > 0 && from <= |bins|
    ensures SumCounts([], bins, from) == 0
    decreases |bins| - from
  {
    if from < |bins| {
      SumCountsOfNothing(bins, from + 1);
    }
  }

  /** Every value that is not None lands in exactly one bin, so the counts add up to their number. */
  lemma {:induction false} CountsSumToNonNone(values: seq<Option<real>>, bins: seq<Bin>)
    requires |bins| > 0
    ensures SumCounts(values, bins, 0) == NonNoneCount(values)
  {
    if |values| == 0 {
      SumCountsOfNothing(bins, 0);
    } else {
      CountsSumToNonNone(values[..|values| - 1], bins);
      SumCountsStep(values, bins, 0);
    }
  }

  /** Some bin of contiguous intervals from lo to hi holds each v in [lo, hi]. */
  lemma {:induction false} LocateBin(bins: seq<Bin>, v: real, lo: real, hi: real) returns (m: nat)
    requires |bins| > 0 && bins[0].lo == lo && bins[|bins| - 1].hi == hi && lo <= v <= hi
    requires forall i :: 0 <= i < |bins| - 1 ==> bins[i].hi == bins[i + 1].lo
    ensures m < |bins| && InBin(v, bins, m)
    decreases |bins|
  {
    var last := |bins| - 1;
    if bins[last].lo <= v {
      m := last;
    } else {
      var init := bins[..last];
      m := LocateBin(init, v, lo, bins[last].lo);
    }
  }

  /**
    For contiguous intervals from lo to hi (make_bins's shape), a value inside [lo, hi] lands
    in an interval that contains it, a value below lo in the first bin and a value above hi
    in the last; the last bin includes hi itself.
  */
  lemma ContiguousBinOf(bins: seq<Bin>, v: real)
    requires |bins| > 0 && bins[0].lo <= bins[|bins| - 1].hi
    requires forall i :: 0 <= i < |bins| - 1 ==> bins[i].hi == bins[i + 1].lo
    requires forall i :: 0 <= i < |bins| ==> bins[i].lo <= bins[i].hi
    ensures var lo, hi := bins[0].lo, bins[|bins| - 1].hi;
      && (lo <= v <= hi ==> bins[BinOf(v, bins)].lo <= v <= bins[BinOf(v, bins)].hi)
      && (v < lo ==> BinOf(v, bins) == 0)
      && (v > hi ==> BinOf(v, bins) == |bins| - 1)
      && (v == hi ==> BinOf(v, bins) == |bins| - 1 || bins[BinOf(v, bins)].hi > v)
  {
    var lo, hi := bins[0].lo, bins[|bins| - 1].hi;
    BinsBetween(bins);
    if lo <= v <= hi && FirstBinFrom(v, bins, 0).None? {
      var m := LocateBin(bins, v, lo, hi);
    }
  }

  lemma {:induction false} BinsBetween(bins: seq<Bin>)
    requires |bins| > 0
    requires forall i :: 0 <= i < |bins| - 1 ==> bins[i].hi == bins[i + 1].lo
    requires forall i :: 0 <= i < |bins| ==> bins[i].lo <= bins[i].hi
    ensures forall i :: 0 <= i < |bins| ==> bins[0].lo <= bins[i].lo && bins[i].hi <= bins[|bins| - 1].hi
    decreases |bins|
  {
    if |bins| > 1 {
      var init := bins[..|bins| - 1];
      BinsBetween(init);
    }
  }
}
