/**
  Python's `sorted(...)` / `list.sort(key=...)` as used by the statistics and the
  layer tables: a stable sort by a real-valued key, and the sorted list of distinct
  values that `sorted(set(...))` produces.
*/
module Sorting {

  predicate SortedBy<T>(s: seq<T>, key: T -> real) {
    forall i, j :: 0 <= i < j < |s| ==> key(s[i]) <= key(s[j])
  }

  predicate StrictlyIncreasing(s: seq<real>) {
    forall i, j :: 0 <= i < j < |s| ==> s[i] < s[j]
  }

  /** Puts x after every element whose key is at most key(x), so equal keys keep their arrival order. */
  function Insert<T>(x: T, s: seq<T>, key: T -> real): (r: seq<T>)
    requires SortedBy(s, key)
    ensures |r| == |s| + 1
    ensures r[0] == if |s| == 0 || key(x) < key(s[0]) then x else s[0]
    ensures SortedBy(r, key)
    ensures multiset(r) == multiset(s) + multiset{x}
  {
    if |s| == 0 then [x]
    else if key(x) < key(s[0]) then [x] + s
    else
      var t := Insert(x, s[1..], key);
      assert s == [s[0]] + s[1..];
      assert key(s[0]) <= key(t[0]);
      [s[0]] + t
  }

  /** A sort of s by key that keeps elements with equal keys in their input order (insertion sort). */
  function SortBy<T>(s: seq<T>, key: T -> real): (r: seq<T>)
    ensures |r| == |s|
    ensures SortedBy(r, key)
    ensures multiset(r) == multiset(s)
  {
    if |s| == 0 then []
    else
      assert s == s[..|s| - 1] + [s[|s| - 1]];
      Insert(s[|s| - 1], SortBy(s[..|s| - 1], key), key)
  }

  /** The elements of s whose key is k, in their order in s. */
  function WithKey<T>(s: seq<T>, key: T -> real, k: real): seq<T> {
    if |s| == 0 then []
    else (if key(s[0]) == k then [s[0]] else []) + WithKey(s[1..], key, k)
  }

  lemma {:induction false} WithKeyAppend<T>(a: seq<T>, b: seq<T>, key: T -> real, k: real)
    ensures WithKey(a + b, key, k) == WithKey(a, key, k) + WithKey(b, key, k)
  {
    if |a| == 0 {
      assert a + b == b;
    } else {
      assert a + b == [a[0]] + (a[1..] + b);
      WithKeyCons(a[0], a[1..] + b, key, k);
      WithKeyCons(a[0], a[1..], key, k);
      assert a == [a[0]] + a[1..];
      WithKeyAppend(a[1..], b, key, k);
    }
  }

  lemma WithKeyCons<T>(x: T, s: seq<T>, key: T -> real, k: real)
    ensures WithKey([x] + s, key, k) == (if key(x) == k then [x] else []) + WithKey(s, key, k)
  {
    assert ([x] + s)[1..] == s;
  }

  /** No element of a sorted sequence starting above k has key k. */
  lemma {:induction false} WithKeyAbove<T>(s: seq<T>, key: T -> real, k: real)
    requires SortedBy(s, key) && |s| > 0 && k < key(s[0])
    ensures WithKey(s, key, k) == []
  {
    if |s| > 1 {
      assert SortedBy(s[1..], key);
      assert key(s[0]) <= key(s[1]);
      WithKeyAbove(s[1..], key, k);
    }
  }

  /** Insert puts x after every element with the same key. */
  lemma {:induction false} InsertStable<T>(x: T, s: seq<T>, key: T -> real, k: real)
    requires SortedBy(s, key)
    ensures WithKey(Insert(x, s, key), key, k) == WithKey(s, key, k) + WithKey([x], key, k)
  {
    var own: seq<T> := if key(x) == k then [x] else [];
    assert WithKey([x], key, k) == own by {
      WithKeyCons(x, [], key, k);
      assert [x] + [] == [x];
    }
    if |s| == 0 {
      assert Insert(x, s, key) == [x];
    } else if key(x) < key(s[0]) {
      assert Insert(x, s, key) == [x] + s;
      WithKeyCons(x, s, key, k);
      if key(x) == k {
        WithKeyAbove(s, key, k);
        assert own + [] == [] + own;
      } else {
        assert [] + WithKey(s, key, k) == WithKey(s, key, k) + [];
      }
    } else {
      var t := Insert(x, s[1..], key);
      var head: seq<T> := if key(s[0]) == k then [s[0]] else [];
      var rest := WithKey(s[1..], key, k);
      assert Insert(x, s, key) == [s[0]] + t;
      WithKeyCons(s[0], t, key, k);
      InsertStable(x, s[1..], key, k);
      ConsSplit(s);
      WithKeyCons(s[0], s[1..], key, k);
      Assoc(head, rest, own);
    }
  }

  lemma ConsSplit<T>(s: seq<T>)
    requires |s| > 0
    ensures s == [s[0]] + s[1..]
  {
  }

  lemma Assoc<T>(a: seq<T>, b: seq<T>, c: seq<T>)
    ensures a + (b + c) == (a + b) + c
  {
  }

  /** The sort is stable: for every key, the elements with that key keep their input order. */
  lemma {:induction false} SortByStable<T>(s: seq<T>, key: T -> real, k: real)
    ensures WithKey(SortBy(s, key), key, k) == WithKey(s, key, k)
  {
    if |s| > 0 {
      var n := |s| - 1;
      SortByStable(s[..n], key, k);
      InsertStable(s[n], SortBy(s[..n], key), key, k);
      assert s == s[..n] + [s[n]];
      WithKeyAppend(s[..n], [s[n]], key, k);
    }
  }

  lemma SameElements<T>(a: seq<T>, b: seq<T>)
    requires multiset(a) == multiset(b)
    ensures forall x :: x in a <==> x in b
  {
    forall x ensures x in a <==> x in b {
      assert x in a <==> x in multiset(a);
      assert x in b <==> x in multiset(b);
    }
  }

  function Identity(x: real): real {
    x
  }

  /**
    Drops the repeats from a sorted sequence: `sorted(set(s))` when s is sorted.
  */
  function Dedup(s: seq<real>): (r: seq<real>)
    requires SortedBy(s, Identity)
    ensures StrictlyIncreasing(r)
    ensures forall x :: x in r <==> x in s
    ensures |s| > 0 ==> |r| > 0 && r[0] == s[0]
  {
    if |s| <= 1 then s
    else
      var t := Dedup(s[1..]);
      assert forall x :: x in s[1..] ==> s[0] <= x;
      if s[0] == s[1] then
        assert forall x :: x in s <==> x in s[1..] by {
          assert s == [s[0]] + s[1..];
        }
        t
      else
        assert s == [s[0]] + s[1..];
        assert s[0] < t[0] by {
          assert t[0] == s[1..][0];
        }
        ConsIncreasing(s[0], t);
        [s[0]] + t
  }

  /** A value below the head of a strictly increasing sequence can be put in front of it. */
  lemma ConsIncreasing(x: real, t: seq<real>)
    requires StrictlyIncreasing(t) && |t| > 0 && x < t[0]
    ensures StrictlyIncreasing([x] + t)
  {
    var r := [x] + t;
    forall i, j | 0 <= i < j < |r|
      ensures r[i] < r[j]
    {
      if i == 0 {
        assert r[j] == t[j - 1];
        assert t[0] <= t[j - 1] by {
          if j - 1 > 0 { assert t[0] < t[j - 1]; }
        }
      } else {
        assert r[i] == t[i - 1] && r[j] == t[j - 1];
      }
    }
  }

  /** `sorted(set(s))`: the distinct values of s in increasing order. */
  function SortedDistinct(s: seq<real>): (r: seq<real>)
    ensures StrictlyIncreasing(r)
    ensures forall x :: x in r <==> x in s
  {
    var t := SortBy(s, Identity);
    SameElements(t, s);
    Dedup(t)
  }
}
