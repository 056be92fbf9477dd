/** What is assumed of sort.Slice: a comparison sort, whose rearrangement depends
    on the compared keys alone, and which may permute equal elements unless the
    list is in order already. */
module Sorting {

  /** The positions, in their new order, for a list of keys. */
  type Order = seq<int> -> seq<int>

  predicate HasAt(p: seq<int>, v: int) {
    exists k :: 0 <= k < |p| && p[k] == v
  }

  predicate Permutes(p: seq<int>, n: nat) {
    && |p| == n
    && (forall i :: 0 <= i < n ==> 0 <= p[i] < n)
    && (forall i, j :: 0 <= i < j < n ==> p[i] != p[j])
    && (forall v :: 0 <= v < n ==> HasAt(p, v))
  }

  function Picked<T>(s: seq<T>, p: seq<int>): seq<T>
    requires forall i :: 0 <= i < |p| ==> 0 <= p[i] < |s|
  {
    seq(|p|, i requires 0 <= i < |p| => s[p[i]])
  }

  lemma {:induction false} PickedPerm<T>(s: seq<T>, p: seq<int>)
    requires Permutes(p, |s|)
    ensures multiset(Picked(s, p)) == multiset(s)
    decreases |s|
  {
    if s != [] {
      var n := |s| - 1;
      assert HasAt(p, n);
      var k :| 0 <= k < |p| && p[k] == n;
      WithoutLast(p, k, n);
      PickedPerm(s[..n], p[..k] + p[k + 1..]);
      PickedWithout(s, p, k);
      Reinsert(Picked(s, p), k, s);
    }
  }

  lemma {:induction false} PickedWithout<T>(s: seq<T>, p: seq<int>, k: nat)
    requires s != [] && Permutes(p, |s|) && k < |p| && p[k] == |s| - 1
    requires Permutes(p[..k] + p[k + 1..], |s| - 1)
    ensures Picked(s[..|s| - 1], p[..k] + p[k + 1..]) == Picked(s, p)[..k] + Picked(s, p)[k + 1..]
  {
    var q := p[..k] + p[k + 1..];
    assert forall i :: 0 <= i < |q| ==> q[i] == if i < k then p[i] else p[i + 1];
  }

  lemma {:induction false} WithoutLast(p: seq<int>, k: nat, n: nat)
    requires Permutes(p, n + 1) && k <= n && p[k] == n
    ensures Permutes(p[..k] + p[k + 1..], n)
  {
    var q := p[..k] + p[k + 1..];
    forall v | 0 <= v < n ensures HasAt(q, v) {
      assert HasAt(p, v);
      var i :| 0 <= i < |p| && p[i] == v;
      assert q[if i < k then i else i - 1] == v;
    }
    assert forall i :: 0 <= i < n ==> q[i] == if i < k then p[i] else p[i + 1];
  }

  lemma {:induction false} Reinsert<T>(r: seq<T>, k: nat, s: seq<T>)
    requires s != [] && k < |r| && r[k] == s[|s| - 1]
    requires multiset(r[..k] + r[k + 1..]) == multiset(s[..|s| - 1])
    ensures multiset(r) == multiset(s)
  {
    assert r == r[..k] + [r[k]] + r[k + 1..];
    assert s == s[..|s| - 1] + [s[|s| - 1]];
  }

  predicate Rising(keys: seq<int>) {
    forall i, j :: 0 <= i < j < |keys| ==> keys[i] <= keys[j]
  }

  /** The comparison that is passed to the sort: -1 is neither less nor greater than any key. */
  predicate KeyLess(a: int, b: int) { a != -1 && b != -1 && a < b }

  predicate NoInversion(keys: seq<int>) {
    forall i, j :: 0 <= i < j < |keys| ==> !KeyLess(keys[j], keys[i])
  }

  /** No key takes part in comparisons, or every key does. */
  predicate Uniform(keys: seq<int>) {
    (forall i :: 0 <= i < |keys| ==> keys[i] == -1) || (forall i :: 0 <= i < |keys| ==> keys[i] >= 0)
  }

  predicate Identity(p: seq<int>) {
    forall i :: 0 <= i < |p| ==> p[i] == i
  }

  ghost predicate Arranges(p: seq<int>, keys: seq<int>) {
    && Permutes(p, |keys|)
    && (Uniform(keys) ==> Rising(Picked(keys, p)))
    && (NoInversion(keys) ==> Identity(p))
  }

  /** The sort rearranges; it puts comparable keys in order, and leaves alone a
      list in which no two comparable keys are out of order. */
  ghost predicate Sorts(order: Order) {
    forall keys :: Arranges(order(keys), keys)
  }

  // ----- the insertion sort that sort.Slice runs on short slices is such a sort -----

  predicate Within(p: seq<int>, n: nat) {
    forall i :: 0 <= i < |p| ==> 0 <= p[i] < n
  }

  function Place(keys: seq<int>, p: seq<int>, x: nat): (r: seq<int>)
    requires x < |keys| && Within(p, |keys|)
    ensures |r| == |p| + 1 && Within(r, |keys|)
  {
    if p == [] || !KeyLess(keys[x], keys[p[|p| - 1]]) then p + [x] else Place(keys, p[..|p| - 1], x) + [p[|p| - 1]]
  }

  function InsertionOrder(keys: seq<int>): (p: seq<int>)
    ensures |p| == |keys| && Within(p, |keys|)
  {
    if keys == [] then []
    else
      var n := |keys| - 1;
      Place(keys, InsertionOrder(keys[..n]), n)
  }

  ghost predicate PlacedAt(keys: seq<int>, p: seq<int>, x: nat, q: nat)
    requires x < |keys| && Within(p, |keys|)
  {
    && q <= |p| && Place(keys, p, x) == p[..q] + [x] + p[q..]
    && (forall i :: q <= i < |p| ==> KeyLess(keys[x], keys[p[i]]))
    && (q > 0 ==> !KeyLess(keys[x], keys[p[q - 1]]))
  }

  lemma {:induction false} PlaceWhere(keys: seq<int>, p: seq<int>, x: nat) returns (q: nat)
    requires x < |keys| && Within(p, |keys|)
    ensures PlacedAt(keys, p, x, q)
  {
    if p == [] || !KeyLess(keys[x], keys[p[|p| - 1]]) {
      q := |p|;
    } else {
      q := PlaceWhere(keys, p[..|p| - 1], x);
      PlacedDeeper(keys, p, x, q);
    }
  }

  lemma {:induction false} PlacedDeeper(keys: seq<int>, p: seq<int>, x: nat, q: nat)
    requires p != [] && x < |keys| && Within(p, |keys|) && KeyLess(keys[x], keys[p[|p| - 1]])
    requires PlacedAt(keys, p[..|p| - 1], x, q)
    ensures PlacedAt(keys, p, x, q)
  {
    var init := p[..|p| - 1];
    assert init[..q] == p[..q] && init[q..] + [p[|p| - 1]] == p[q..];
    assert forall i :: 0 <= i < |init| ==> init[i] == p[i];
  }

  lemma {:induction false} InsertionPermutes(keys: seq<int>)
    ensures Permutes(InsertionOrder(keys), |keys|)
  {
    if keys != [] {
      var n := |keys| - 1;
      InsertionPermutes(keys[..n]);
      var q := PlaceWhere(keys, InsertionOrder(keys[..n]), n);
      Spliced(InsertionOrder(keys[..n]), n, q);
    }
  }

  lemma {:induction false} Spliced(p: seq<int>, n: nat, q: nat)
    requires Permutes(p, n) && q <= n
    ensures Permutes(p[..q] + [n] + p[q..], n + 1)
  {
    var r := p[..q] + [n] + p[q..];
    SplicedAt(p, n, q);
    forall v | 0 <= v <= n ensures HasAt(r, v) {
      if v == n {
        assert r[q] == n;
      } else {
        assert HasAt(p, v);
        var i :| 0 <= i < n && p[i] == v;
        assert r[if i < q then i else i + 1] == v;
      }
    }
  }

  lemma {:induction false} SplicedAt(p: seq<int>, x: int, q: nat)
    requires q <= |p|
    ensures var r := p[..q] + [x] + p[q..];
            && |r| == |p| + 1
            && forall i :: 0 <= i < |r| ==> r[i] == if i < q then p[i] else if i == q then x else p[i - 1]
  {
  }

  /** The keys in their new order, without naming the order itself. */
  ghost predicate RisingBy(keys: seq<int>, p: seq<int>)
    requires Within(p, |keys|)
  {
    forall i, j :: 0 <= i < j < |p| ==> keys[p[i]] <= keys[p[j]]
  }

  lemma {:induction false} InsertionRises(keys: seq<int>)
    requires Uniform(keys)
    ensures RisingBy(keys, InsertionOrder(keys))
  {
    hide Place;
    if keys != [] {
      var n := |keys| - 1;
      var p := InsertionOrder(keys[..n]);
      assert Uniform(keys[..n]);
      InsertionRises(keys[..n]);
      assert forall i :: 0 <= i < |p| ==> keys[..n][p[i]] == keys[p[i]];
      var q := PlaceWhere(keys, p, n);
      PlaceRises(keys, p, n, q);
    }
  }

  lemma {:induction false} PlaceRises(keys: seq<int>, p: seq<int>, x: nat, q: nat)
    requires x < |keys| && Within(p, |keys|) && Uniform(keys) && RisingBy(keys, p) && PlacedAt(keys, p, x, q)
    ensures RisingBy(keys, Place(keys, p, x))
  {
    var r := p[..q] + [x] + p[q..];
    SplicedAt(p, x, q);
    forall i, j | 0 <= i < j < |r| ensures keys[r[i]] <= keys[r[j]] {
      if i < q && q > 0 {
        assert i < q - 1 ==> keys[p[i]] <= keys[p[q - 1]];
      }
    }
  }

  lemma {:induction false} InsertionStays(keys: seq<int>)
    requires NoInversion(keys)
    ensures Identity(InsertionOrder(keys))
  {
    if keys != [] {
      InsertionStays(keys[..|keys| - 1]);
    }
  }

  /** Every part of the assumption holds of it. */
  lemma {:induction false} InsertionSorts()
    ensures Sorts(InsertionOrder)
  {
    hide InsertionOrder, Place, Permutes;
    forall keys: seq<int> ensures Arranges(InsertionOrder(keys), keys) {
      InsertionPermutes(keys);
      if Uniform(keys) {
        InsertionRises(keys);
      }
      if NoInversion(keys) {
        InsertionStays(keys);
      }
    }
  }
}
