/** Flattening the same data anew iterates its maps anew, and an empty map throws
    away the lines before it (service/cfg/codec.go, doMapToProperties): which data
    keep the same lines in whatever order their maps are iterated. */
module Outcomes {
  import opened Text
  import opened Sorting
  import opened Data
  import opened Props
  import opened Iteration

  // ----- the lines that are left -----

  /** What is left of the lines of some visits, wherever they come first. */
  function Tail(visits: seq<Visit>): set<string> {
    set line | line in Collect([], visits)
  }

  function LineSet(visits: seq<Visit>): set<string> {
    set line | line in LinesOf(visits)
  }

  lemma {:induction false} CollectFrom(acc: seq<string>, visits: seq<Visit>)
    ensures Collect(acc, visits) == if SomeEmpty(visits) then Collect([], visits) else acc + LinesOf(visits)
    decreases |visits|
  {
    hide Collect, LinesOf, SomeEmpty;
    SomeEmptyFirst(visits);
    if visits == [] {
      NothingCollected(acc);
    } else {
      CollectFirst(acc, visits);
      CollectFirst([], visits);
      if visits[0].LeafLine? {
        var first := [visits[0].line];
        CollectFrom(acc + first, visits[1..]);
        CollectFrom([] + first, visits[1..]);
        assert acc + first + LinesOf(visits[1..]) == acc + (first + LinesOf(visits[1..]));
      }
    }
  }

  lemma {:induction false} NothingCollected(acc: seq<string>)
    ensures Collect(acc, []) == acc == acc + LinesOf([])
  {
  }

  lemma {:induction false} CollectFirst(acc: seq<string>, visits: seq<Visit>)
    requires visits != []
    ensures Collect(acc, visits) == Collect(if visits[0].EmptyMap? then [] else acc + [visits[0].line], visits[1..])
    ensures LinesOf(visits) == (if visits[0].EmptyMap? then [] else [visits[0].line]) + LinesOf(visits[1..])
  {
  }

  lemma {:induction false} SomeEmptyFirst(visits: seq<Visit>)
    ensures SomeEmpty(visits) <==> visits != [] && (visits[0].EmptyMap? || SomeEmpty(visits[1..]))
  {
    if visits != [] {
      var rest := visits[1..];
      assert forall j :: 0 < j < |visits| ==> visits[j] == rest[j - 1];
      if j :| 0 <= j < |rest| && rest[j].EmptyMap? {
        assert visits[j + 1].EmptyMap?;
      }
    }
  }

  /** An empty map in the later part leaves nothing of the earlier one. */
  lemma {:induction false} TailConcat(a: seq<Visit>, b: seq<Visit>)
    ensures Tail(a + b) == if SomeEmpty(b) then Tail(b) else Tail(a) + Tail(b)
  {
    hide SomeEmpty;
    CollectConcat([], a, b);
    CollectFrom(Collect([], a), b);
    CollectFrom([], b);
    assert [] + LinesOf(b) == LinesOf(b);
  }

  lemma {:induction false} TailWithin(visits: seq<Visit>)
    ensures Tail(visits) <= LineSet(visits)
    ensures !SomeEmpty(visits) ==> Tail(visits) == LineSet(visits)
  {
    var k := CollectEnd([], visits);
    assert [] + LinesOf(visits) == LinesOf(visits);
    if !SomeEmpty(visits) {
      CollectFrom([], visits);
    }
  }

  lemma {:induction false} LineSetConcat(a: seq<Visit>, b: seq<Visit>)
    ensures LineSet(a + b) == LineSet(a) + LineSet(b)
  {
    LinesConcat(a, b);
  }

  lemma {:induction false} NoVisits(visits: seq<Visit>)
    ensures visits == [] || SomeLine(visits) || SomeEmpty(visits)
  {
    if visits != [] {
      assert visits[0].LeafLine? || visits[0].EmptyMap?;
    }
  }

  // ----- what can be seen on the data -----

  predicate LaterEmpty(elems: seq<Data>, i: nat) {
    exists j :: i < j < |elems| && HasEmpty(elems[j])
  }

  /** No line is left, whatever the order. */
  predicate Clears(d: Data)
    decreases d, 0
  {
    match d
    case Map(fields) => forall i :: 0 <= i < |fields| ==> Clears(fields[i].data)
    case List(elems) => forall i :: 0 <= i < |elems| && !LaterEmpty(elems, i) ==> Clears(elems[i])
    case _ => false
  }

  /** Nothing is visited in the other fields. */
  predicate Alone(fields: seq<Field>, i: nat) {
    forall j :: 0 <= j < |fields| && j != i ==> !HasLeaf(fields[j].data) && !HasEmpty(fields[j].data)
  }

  /** A map keeps the same lines if it has no empty map, or keeps no line at all, or
      if all that is visited is in one field that keeps the same lines.  In an array
      only what no empty map follows matters. */
  predicate Steady(d: Data)
    decreases d, 0
  {
    match d
    case Map(fields) =>
      || (forall i :: 0 <= i < |fields| ==> !HasEmpty(fields[i].data))
      || (forall i :: 0 <= i < |fields| ==> Clears(fields[i].data))
      || (exists i :: 0 <= i < |fields| && Steady(fields[i].data) && Alone(fields, i))
    case List(elems) => forall i :: 0 <= i < |elems| && !LaterEmpty(elems, i) ==> Steady(elems[i])
    case _ => true
  }

  // ----- fields and elements one by one -----

  function VisitsAt(fields: seq<Field>, prefix: string, i: int): seq<Visit>
    requires 0 <= i < |fields|
  {
    Visits(fields[i].data, WithDot(prefix) + fields[i].key)
  }

  lemma {:induction false} FieldVisitsConcat(a: seq<Field>, b: seq<Field>, prefix: string)
    ensures FieldVisits(a + b, prefix) == FieldVisits(a, prefix) + FieldVisits(b, prefix)
  {
    if a == [] {
      assert a + b == b;
    } else {
      assert (a + b)[1..] == a[1..] + b;
      FieldVisitsConcat(a[1..], b, prefix);
    }
  }

  lemma {:induction false} LastField(fields: seq<Field>, prefix: string)
    requires fields != []
    ensures var n := |fields| - 1;
            FieldVisits(fields, prefix) == FieldVisits(fields[..n], prefix) + VisitsAt(fields, prefix, n)
  {
    var n := |fields| - 1;
    assert fields == fields[..n] + [fields[n]];
    FieldVisitsConcat(fields[..n], [fields[n]], prefix);
    assert [fields[n]][1..] == [];
    assert VisitsAt(fields, prefix, n) + [] == VisitsAt(fields, prefix, n);
  }

  lemma {:induction false} FieldLineSet(fields: seq<Field>, prefix: string, line: string)
    ensures line in LineSet(FieldVisits(fields, prefix)) <==>
            exists i :: 0 <= i < |fields| && line in LineSet(VisitsAt(fields, prefix, i))
    decreases |fields|
  {
    hide LineSet, VisitsAt;
    if fields != [] {
      var n := |fields| - 1;
      LastField(fields, prefix);
      LineSetConcat(FieldVisits(fields[..n], prefix), VisitsAt(fields, prefix, n));
      FieldLineSet(fields[..n], prefix, line);
      assert forall i :: 0 <= i < n ==> VisitsAt(fields[..n], prefix, i) == VisitsAt(fields, prefix, i) by {
        forall i | 0 <= i < n ensures VisitsAt(fields[..n], prefix, i) == VisitsAt(fields, prefix, i) {
          SameVisitsAt(fields[..n], fields, prefix, i);
        }
      }
    } else {
      NoFieldVisits(prefix);
    }
  }

  lemma {:induction false} NoFieldVisits(prefix: string)
    ensures LineSet(FieldVisits([], prefix)) == {} && Tail(FieldVisits([], prefix)) == {}
  {
  }

  lemma {:induction false} SameVisitsAt(a: seq<Field>, b: seq<Field>, prefix: string, i: nat)
    requires i < |a| && i < |b| && a[i] == b[i]
    ensures VisitsAt(a, prefix, i) == VisitsAt(b, prefix, i)
  {
  }

  /** The field that is iterated last keeps its lines, and alone if it has an empty map. */
  lemma {:induction false} LastTail(fields: seq<Field>, prefix: string)
    requires fields != []
    ensures var last, all := Tail(VisitsAt(fields, prefix, |fields| - 1)), Tail(FieldVisits(fields, prefix));
            last <= all && (HasEmpty(fields[|fields| - 1].data) ==> all == last)
  {
    hide Tail;
    var n := |fields| - 1;
    LastField(fields, prefix);
    TailConcat(FieldVisits(fields[..n], prefix), VisitsAt(fields, prefix, n));
    VisitsShow(fields[n].data, WithDot(prefix) + fields[n].key);
  }

  lemma {:induction false} AllClear(fields: seq<Field>, prefix: string)
    requires forall i :: 0 <= i < |fields| ==> Tail(VisitsAt(fields, prefix, i)) == {}
    ensures Tail(FieldVisits(fields, prefix)) == {}
    decreases |fields|
  {
    hide Tail, VisitsAt;
    if fields != [] {
      var n := |fields| - 1;
      LastField(fields, prefix);
      TailConcat(FieldVisits(fields[..n], prefix), VisitsAt(fields, prefix, n));
      forall i | 0 <= i < n ensures Tail(VisitsAt(fields[..n], prefix, i)) == {} {
        SameVisitsAt(fields[..n], fields, prefix, i);
      }
      AllClear(fields[..n], prefix);
    } else {
      NoFieldVisits(prefix);
    }
  }

  lemma {:induction false} NothingElse(fields: seq<Field>, prefix: string)
    requires forall i :: 0 <= i < |fields| ==> !HasLeaf(fields[i].data) && !HasEmpty(fields[i].data)
    ensures FieldVisits(fields, prefix) == []
  {
    FieldsShow(fields, prefix);
    NoVisits(FieldVisits(fields, prefix));
  }

  lemma {:induction false} OnlyOne(fields: seq<Field>, prefix: string, i: nat)
    requires i < |fields| && Alone(fields, i)
    ensures FieldVisits(fields, prefix) == VisitsAt(fields, prefix, i)
  {
    var a, b := fields[..i], fields[i + 1..];
    assert fields == a + ([fields[i]] + b);
    FieldVisitsConcat(a, [fields[i]] + b, prefix);
    NothingElse(a, prefix);
    NothingElse(b, prefix);
    assert ([fields[i]] + b)[1..] == b;
  }

  // ----- shuffling moves lines but adds and drops none -----

  lemma {:induction false} ShuffledLines(d: Data, e: Data, prefix: string)
    requires ShuffledData(d, e)
    ensures LineSet(Visits(d, prefix)) == LineSet(Visits(e, prefix))
    decreases d, 1
  {
    match d
    case Map(fields) =>
      ShuffledSize(fields, e.fields);
      if fields != [] {
        ShuffledFieldLines(fields, e.fields, prefix);
      }
    case List(elems) => ShuffledElemLines(elems, e.elems, prefix, 0);
    case _ =>
  }

  lemma {:induction false} ShuffledSize(a: seq<Field>, b: seq<Field>)
    requires Shuffled(a, b)
    ensures |a| == |b|
  {
  }

  lemma {:induction false} ShuffledFieldLines(a: seq<Field>, b: seq<Field>, prefix: string)
    requires Shuffled(a, b)
    ensures LineSet(FieldVisits(a, prefix)) == LineSet(FieldVisits(b, prefix))
    decreases a, 0
  {
    hide LineSet, FieldVisits;
    var p :| Moved(a, b, p);
    forall i | 0 <= i < |b| ensures LineSet(VisitsAt(b, prefix, i)) == LineSet(VisitsAt(a, prefix, p[i])) {
      ShuffledLines(a[p[i]].data, b[i].data, WithDot(prefix) + b[i].key);
    }
    forall v | 0 <= v < |a|
      ensures exists i :: 0 <= i < |b| && LineSet(VisitsAt(b, prefix, i)) == LineSet(VisitsAt(a, prefix, v))
    {
      assert HasAt(p, v);
    }
    forall line ensures line in LineSet(FieldVisits(a, prefix)) <==> line in LineSet(FieldVisits(b, prefix)) {
      FieldLineSet(a, prefix, line);
      FieldLineSet(b, prefix, line);
    }
  }

  lemma {:induction false} ShuffledElemLines(a: seq<Data>, b: seq<Data>, prefix: string, from: nat)
    requires ShuffledElems(a, b)
    ensures LineSet(ElemVisits(a, prefix, from)) == LineSet(ElemVisits(b, prefix, from))
    decreases a, 0
  {
    hide LineSet;
    if a != [] {
      var key := prefix + "[" + Itoa(from) + "]";
      ShuffledLines(a[0], b[0], key);
      ShuffledElemLines(a[1..], b[1..], prefix, from + 1);
      LineSetConcat(Visits(a[0], key), ElemVisits(a[1..], prefix, from + 1));
      LineSetConcat(Visits(b[0], key), ElemVisits(b[1..], prefix, from + 1));
    }
  }

  // ----- what clears, clears in every order -----

  lemma {:induction false} ClearsAlways(d: Data, e: Data, prefix: string)
    requires Clears(d) && ShuffledData(d, e)
    ensures Tail(Visits(e, prefix)) == {}
    decreases d, 1
  {
    match d
    case Map(fields) =>
      if e.fields != [] {
        ClearFields(fields, e.fields, prefix);
      } else {
        assert Collect([], [EmptyMap]) == Collect([], [EmptyMap][1..]) == [];
      }
    case List(elems) => ClearElems(elems, e.elems, prefix, 0);
  }

  lemma {:induction false} ClearFields(a: seq<Field>, b: seq<Field>, prefix: string)
    requires (forall i :: 0 <= i < |a| ==> Clears(a[i].data)) && Shuffled(a, b)
    ensures Tail(FieldVisits(b, prefix)) == {}
    decreases a, 0
  {
    hide Tail, Clears;
    var p :| Moved(a, b, p);
    forall i | 0 <= i < |b| ensures Tail(VisitsAt(b, prefix, i)) == {} {
      ClearsAlways(a[p[i]].data, b[i].data, WithDot(prefix) + b[i].key);
    }
    AllClear(b, prefix);
  }

  lemma {:induction false} ElemsSplit(a: seq<Data>, b: seq<Data>, prefix: string, from: nat)
    requires a != [] && ShuffledElems(a, b)
    ensures var key, rest := prefix + "[" + Itoa(from) + "]", ElemVisits(b[1..], prefix, from + 1);
            && Tail(ElemVisits(b, prefix, from)) == (if LaterEmpty(a, 0) then Tail(rest)
                else Tail(Visits(b[0], key)) + Tail(rest))
    ensures ShuffledElems(a[1..], b[1..]) && ShuffledData(a[0], b[0])
    ensures forall i: nat :: LaterEmpty(a[1..], i) <==> LaterEmpty(a, i + 1)
  {
    hide Tail;
    var key, rest := prefix + "[" + Itoa(from) + "]", ElemVisits(b[1..], prefix, from + 1);
    TailConcat(Visits(b[0], key), rest);
    ElemsShow(b[1..], prefix, from + 1);
    forall j | 0 < j < |a| ensures HasEmpty(a[j]) == HasEmpty(b[1..][j - 1]) {
      ShuffledAlike(a[j], b[j]);
    }
    forall i: nat ensures LaterEmpty(a[1..], i) <==> LaterEmpty(a, i + 1) {
      LaterEmptyNext(a, i);
    }
    assert LaterEmpty(a, 0) <==> SomeEmpty(rest) by {
      if LaterEmpty(a, 0) {
        var j :| 0 < j < |a| && HasEmpty(a[j]);
        assert HasEmpty(b[1..][j - 1]);
      }
      if i :| 0 <= i < |b[1..]| && HasEmpty(b[1..][i]) {
        assert HasEmpty(a[i + 1]);
      }
    }
  }

  lemma {:induction false} LaterEmptyNext(a: seq<Data>, i: nat)
    requires a != []
    ensures LaterEmpty(a[1..], i) <==> LaterEmpty(a, i + 1)
  {
    hide HasEmpty;
    if j :| i + 1 < j < |a| && HasEmpty(a[j]) {
      assert a[1..][j - 1] == a[j];
    }
  }

  lemma {:induction false} ClearElems(a: seq<Data>, b: seq<Data>, prefix: string, from: nat)
    requires (forall i :: 0 <= i < |a| && !LaterEmpty(a, i) ==> Clears(a[i])) && ShuffledElems(a, b)
    ensures Tail(ElemVisits(b, prefix, from)) == {}
    decreases a, 0
  {
    if a != [] {
      hide Tail, Clears, LaterEmpty, ShuffledElems, Visits, Itoa;
      ElemsSplit(a, b, prefix, from);
      assert forall i :: 0 <= i < |a[1..]| ==> a[1..][i] == a[i + 1];
      ClearElems(a[1..], b[1..], prefix, from + 1);
      if !LaterEmpty(a, 0) {
        ClearsAlways(a[0], b[0], prefix + "[" + Itoa(from) + "]");
      }
    }
  }

  // ----- what is steady, keeps the same lines in every order -----

  lemma {:induction false} SteadyAlways(d: Data, e: Data, prefix: string)
    requires Steady(d) && ShuffledData(d, e)
    ensures Tail(Visits(e, prefix)) == Tail(Visits(d, prefix))
    decreases d, 1
  {
    match d
    case Map(fields) =>
      ShuffledSize(fields, e.fields);
      if fields != [] {
        SteadyFields(fields, e.fields, prefix);
      }
    case List(elems) => SteadyElems(elems, e.elems, prefix, 0);
    case _ =>
  }

  lemma {:induction false} SteadyFields(a: seq<Field>, b: seq<Field>, prefix: string)
    requires Steady(Map(a)) && Shuffled(a, b)
    ensures Tail(FieldVisits(b, prefix)) == Tail(FieldVisits(a, prefix))
    decreases a, 0, 1
  {
    hide Tail, FieldVisits, Shuffled;
    if forall i :: 0 <= i < |a| ==> !HasEmpty(a[i].data) {
      NoEmptyShuffled(a, b, prefix);
    } else if forall i :: 0 <= i < |a| ==> Clears(a[i].data) {
      ClearFields(a, b, prefix);
      ShuffledFieldsSelf(a);
      ClearFields(a, a, prefix);
    } else {
      var i :| 0 <= i < |a| && Steady(a[i].data) && Alone(a, i);
      SteadyAlone(a, b, i, prefix);
    }
  }

  lemma {:induction false} SteadyAlone(a: seq<Field>, b: seq<Field>, i: nat, prefix: string)
    requires i < |a| && Steady(a[i].data) && Alone(a, i) && Shuffled(a, b)
    ensures Tail(FieldVisits(b, prefix)) == Tail(FieldVisits(a, prefix))
    decreases a, 0, 0
  {
    hide Tail, Steady, FieldVisits, Visits, Alone;
    var p :| Moved(a, b, p);
    assert HasAt(p, i);
    var k :| 0 <= k < |p| && p[k] == i;
    AloneShuffled(a, b, p, k);
    OnlyOne(a, prefix, i);
    OnlyOne(b, prefix, k);
    SteadyAlways(a[i].data, b[k].data, WithDot(prefix) + b[k].key);
  }

  lemma {:induction false} NoEmptyShuffled(a: seq<Field>, b: seq<Field>, prefix: string)
    requires Shuffled(a, b) && forall i :: 0 <= i < |a| ==> !HasEmpty(a[i].data)
    ensures Tail(FieldVisits(b, prefix)) == Tail(FieldVisits(a, prefix))
  {
    hide Tail, LineSet, FieldVisits;
    FieldsShow(a, prefix);
    FieldsShow(b, prefix);
    var p :| Moved(a, b, p);
    forall i | 0 <= i < |b| ensures !HasEmpty(b[i].data) {
      ShuffledAlike(a[p[i]].data, b[i].data);
    }
    TailWithin(FieldVisits(a, prefix));
    TailWithin(FieldVisits(b, prefix));
    ShuffledFieldLines(a, b, prefix);
  }

  lemma {:induction false} AloneShuffled(a: seq<Field>, b: seq<Field>, p: seq<int>, k: nat)
    requires Moved(a, b, p) && k < |a| && Alone(a, p[k])
    ensures Alone(b, k)
  {
    forall j | 0 <= j < |b| && j != k ensures !HasLeaf(b[j].data) && !HasEmpty(b[j].data) {
      ShuffledAlike(a[p[j]].data, b[j].data);
      assert p[j] != p[k];
    }
  }

  lemma {:induction false} SteadyElems(a: seq<Data>, b: seq<Data>, prefix: string, from: nat)
    requires (forall i :: 0 <= i < |a| && !LaterEmpty(a, i) ==> Steady(a[i])) && ShuffledElems(a, b)
    ensures Tail(ElemVisits(b, prefix, from)) == Tail(ElemVisits(a, prefix, from))
    decreases a, 0
  {
    if a != [] {
      hide Tail, Steady, LaterEmpty, ShuffledElems, Visits, Itoa;
      ElemsSplit(a, b, prefix, from);
      ShuffledElemsSelf(a);
      ElemsSplit(a, a, prefix, from);
      assert forall i :: 0 <= i < |a[1..]| ==> a[1..][i] == a[i + 1];
      assert forall i :: 0 <= i < |a[1..]| && !LaterEmpty(a[1..], i) ==> Steady(a[1..][i]) by {
        forall i: nat | i < |a[1..]| && !LaterEmpty(a[1..], i) ensures Steady(a[1..][i]) {
          assert !LaterEmpty(a, i + 1) && a[1..][i] == a[i + 1];
        }
      }
      SteadyElems(a[1..], b[1..], prefix, from + 1);
      if !LaterEmpty(a, 0) {
        SteadyAlways(a[0], b[0], prefix + "[" + Itoa(from) + "]");
      }
    }
  }

  lemma {:induction false} ShuffledElemsSelf(a: seq<Data>)
    ensures ShuffledElems(a, a)
  {
    forall i | 0 <= i < |a| ensures ShuffledData(a[i], a[i]) {
      ShuffledSelf(a[i]);
    }
  }

  // ----- what does not clear, leaves a line in some order -----

  /** One field is iterated last, with its own data in some order. */
  function PutLast(fields: seq<Field>, j: nat, e: Data): seq<Field>
    requires j < |fields|
  {
    var n := |fields| - 1;
    Picked(fields, Swapped(|fields|, j, n))[n := Field(fields[j].key, e)]
  }

  lemma {:induction false} PutLastShuffled(fields: seq<Field>, j: nat, e: Data)
    requires j < |fields| && ShuffledData(fields[j].data, e)
    ensures Shuffled(fields, PutLast(fields, j, e))
  {
    hide Permutes, ShuffledData;
    var n := |fields| - 1;
    var p, b := Swapped(|fields|, j, n), PutLast(fields, j, e);
    SwappedPermutes(|fields|, j, n);
    PermutesWithin(p, |fields|);
    forall k | 0 <= k < |fields| ensures b[k].key == fields[p[k]].key && ShuffledData(fields[p[k]].data, b[k].data) {
      ShuffledSelf(fields[p[k]].data);
    }
    assert Moved(fields, b, p);
  }

  lemma {:induction false} PermutesWithin(p: seq<int>, n: nat)
    requires Permutes(p, n)
    ensures |p| == n && forall i :: 0 <= i < n ==> 0 <= p[i] < n
  {
  }

  /** So it keeps what it keeps by itself, and only that if it has an empty map. */
  lemma {:induction false} PutLastTail(fields: seq<Field>, j: nat, e: Data, prefix: string)
    requires j < |fields| && ShuffledData(fields[j].data, e)
    ensures var last := Tail(Visits(e, WithDot(prefix) + fields[j].key));
            var all := Tail(FieldVisits(PutLast(fields, j, e), prefix));
            last <= all && (HasEmpty(fields[j].data) ==> all == last)
  {
    hide Tail, Visits, ShuffledData, HasEmpty;
    var b := PutLast(fields, j, e);
    ShuffledAlike(fields[j].data, e);
    LastTail(b, prefix);
  }

  lemma {:induction false} KeepsLine(d: Data, prefix: string) returns (e: Data)
    requires !Clears(d)
    ensures ShuffledData(d, e) && Tail(Visits(e, prefix)) != {}
    decreases d, 1
  {
    hide Shuffled, ShuffledElems, LaterEmpty, SomeEmpty, Itoa;
    match d
    case Map(fields) =>
      var b := FieldsKeepLine(fields, prefix);
      ShuffledSize(fields, b);
      e := Map(b);
    case List(elems) =>
      var i :| 0 <= i < |elems| && !LaterEmpty(elems, i) && !Clears(elems[i]);
      var x := KeepsLine(elems[i], prefix + "[" + Itoa(i) + "]");
      e := List(elems[i := x]);
      ReplacedShuffled(elems, i, x);
      ReplacedTail(elems, i, x, prefix, 0);
    case _ =>
      ShuffledSelf(d);
      e := d;
      assert prefix + "=" + LeafText(d) in Collect([], Visits(d, prefix)) by {
        assert Collect([], Visits(d, prefix)) == [] + [prefix + "=" + LeafText(d)];
      }
      assert prefix + "=" + LeafText(d) in Tail(Visits(d, prefix));
  }

  lemma {:induction false} FieldsKeepLine(fields: seq<Field>, prefix: string) returns (b: seq<Field>)
    requires !Clears(Map(fields))
    ensures Shuffled(fields, b) && b != [] && Tail(FieldVisits(b, prefix)) != {}
    decreases fields, 0
  {
    hide Tail, Visits, FieldVisits, Shuffled, ShuffledData;
    var j :| 0 <= j < |fields| && !Clears(fields[j].data);
    var e := KeepsLine(fields[j].data, WithDot(prefix) + fields[j].key);
    b := PutLast(fields, j, e);
    PutLastShuffled(fields, j, e);
    PutLastTail(fields, j, e, prefix);
  }

  lemma {:induction false} ReplacedShuffled(elems: seq<Data>, i: nat, x: Data)
    requires i < |elems| && ShuffledData(elems[i], x)
    ensures ShuffledElems(elems, elems[i := x])
  {
    forall k | 0 <= k < |elems| ensures ShuffledData(elems[k], elems[i := x][k]) {
      ShuffledSelf(elems[k]);
    }
  }

  function LaterTail(elems: seq<Data>, i: nat, prefix: string, from: nat): set<string>
    requires i < |elems|
  {
    Tail(ElemVisits(elems[i + 1..], prefix, from + i + 1))
  }

  /** An element that no empty map follows keeps what it keeps by itself. */
  lemma {:induction false} ReplacedTail(elems: seq<Data>, i: nat, x: Data, prefix: string, from: nat)
    requires i < |elems| && !LaterEmpty(elems, i) && ShuffledData(elems[i], x)
    ensures var all := Tail(ElemVisits(elems[i := x], prefix, from));
            var mine := Tail(Visits(x, prefix + "[" + Itoa(from + i) + "]"));
            && mine <= all && (HasEmpty(elems[i]) ==> all == mine + LaterTail(elems, i, prefix, from))
    decreases i
  {
    hide Tail, Visits, ShuffledElems, LaterEmpty, ShuffledData, Itoa, HasEmpty;
    var b := elems[i := x];
    ReplacedShuffled(elems, i, x);
    ElemsSplit(elems, b, prefix, from);
    assert elems[1..][i..] == elems[i + 1..] || i == |elems|;
    if i == 0 {
      assert b[1..] == elems[1..];
    } else {
      assert b[1..] == elems[1..][i - 1 := x] && elems[1..][i - 1] == elems[i];
      assert elems[1..][i..] == elems[i + 1..];
      ReplacedTail(elems[1..], i - 1, x, prefix, from + 1);
      if HasEmpty(elems[i]) {
        LaterEmptyAt(elems, i);
      }
    }
  }

  lemma {:induction false} LaterEmptyAt(elems: seq<Data>, i: nat)
    requires 0 < i < |elems| && HasEmpty(elems[i])
    ensures LaterEmpty(elems, 0)
  {
  }

  // ----- what is not steady, keeps different lines in two orders -----

  /** No line is in two fields or two elements, here or below. */
  ghost predicate Unlike(d: Data, prefix: string)
    decreases d, 1
  {
    match d
    case Map(fields) => UnlikeFields(fields, prefix)
    case List(elems) => UnlikeElems(elems, prefix, 0)
    case _ => true
  }

  ghost predicate UnlikeFields(fields: seq<Field>, prefix: string)
    decreases fields, 0
  {
    && (forall i :: 0 <= i < |fields| ==> Unlike(fields[i].data, WithDot(prefix) + fields[i].key))
    && (forall i, j :: 0 <= i < j < |fields| ==>
          LineSet(VisitsAt(fields, prefix, i)) !! LineSet(VisitsAt(fields, prefix, j)))
  }

  ghost predicate UnlikeElems(elems: seq<Data>, prefix: string, from: nat)
    decreases elems, 0
  {
    elems != [] ==>
      && Unlike(elems[0], prefix + "[" + Itoa(from) + "]")
      && LineSet(Visits(elems[0], prefix + "[" + Itoa(from) + "]")) !! LineSet(ElemVisits(elems[1..], prefix, from + 1))
      && UnlikeElems(elems[1..], prefix, from + 1)
  }

  lemma {:induction false} UnsteadyHasEmpty(d: Data)
    requires !Steady(d)
    ensures HasEmpty(d)
    decreases d, 0
  {
    match d
    case Map(fields) =>
    case List(elems) =>
      var i :| 0 <= i < |elems| && !LaterEmpty(elems, i) && !Steady(elems[i]);
      UnsteadyHasEmpty(elems[i]);
  }

  lemma {:induction false} UnsteadyVaries(d: Data, prefix: string) returns (a: Data, b: Data)
    requires !Steady(d) && Unlike(d, prefix)
    ensures ShuffledData(d, a) && ShuffledData(d, b) && Tail(Visits(a, prefix)) != Tail(Visits(b, prefix))
    decreases d, 1
  {
    match d
    case Map(fields) =>
      var x, y := UnsteadyFields(fields, prefix);
      a, b := Map(x), Map(y);
    case List(elems) =>
      var x, y := UnsteadyElems(elems, prefix);
      a, b := List(x), List(y);
  }

  lemma {:induction false} UnsteadyFields(fields: seq<Field>, prefix: string) returns (a: seq<Field>, b: seq<Field>)
    requires !Steady(Map(fields)) && UnlikeFields(fields, prefix)
    ensures Shuffled(fields, a) && Shuffled(fields, b) && a != [] && b != []
    ensures Tail(FieldVisits(a, prefix)) != Tail(FieldVisits(b, prefix))
    decreases fields, 0
  {
    hide Tail, Visits, FieldVisits, Shuffled, ShuffledData, LineSet;
    var i, j := UnsteadyPair(fields);
    if i != j {
      a, b := TwoLast(fields, i, j, prefix);
    } else {
      var x, y := UnsteadyVaries(fields[i].data, WithDot(prefix) + fields[i].key);
      a, b := PutLast(fields, i, x), PutLast(fields, i, y);
      PutLastShuffled(fields, i, x);
      PutLastShuffled(fields, i, y);
      PutLastTail(fields, i, x, prefix);
      PutLastTail(fields, i, y, prefix);
    }
  }

  /** A field with an empty map and another one that keeps a line, or one with an
      empty map that is not steady itself. */
  lemma {:induction false} UnsteadyPair(fields: seq<Field>) returns (i: nat, j: nat)
    requires !Steady(Map(fields))
    ensures i < |fields| && j < |fields| && HasEmpty(fields[i].data)
    ensures if i == j then !Steady(fields[i].data) else !Clears(fields[j].data)
  {
    i :| 0 <= i < |fields| && HasEmpty(fields[i].data);
    j :| 0 <= j < |fields| && !Clears(fields[j].data);
    if i == j && Steady(fields[i].data) {
      var k :| 0 <= k < |fields| && k != i && (HasLeaf(fields[k].data) || HasEmpty(fields[k].data));
      if HasEmpty(fields[k].data) {
        i := k;
      } else {
        LeafStays(fields[k].data);
        j := k;
      }
    }
  }

  lemma {:induction false} LeafStays(d: Data)
    requires HasLeaf(d) && !HasEmpty(d)
    ensures !Clears(d)
    decreases d, 0
  {
    match d
    case Map(fields) =>
      var i :| 0 <= i < |fields| && HasLeaf(fields[i].data);
      LeafStays(fields[i].data);
    case List(elems) =>
      var i :| 0 <= i < |elems| && HasLeaf(elems[i]);
      LeafStays(elems[i]);
    case _ =>
  }

  /** With i last, only lines of i are left; with j last, some line of j is. */
  lemma {:induction false} TwoLast(fields: seq<Field>, i: nat, j: nat, prefix: string)
      returns (a: seq<Field>, b: seq<Field>)
    requires i < |fields| && j < |fields| && i != j && HasEmpty(fields[i].data) && !Clears(fields[j].data)
    requires LineSet(VisitsAt(fields, prefix, i)) !! LineSet(VisitsAt(fields, prefix, j))
    ensures Shuffled(fields, a) && Shuffled(fields, b) && a != [] && b != []
    ensures Tail(FieldVisits(a, prefix)) != Tail(FieldVisits(b, prefix))
  {
    hide Tail, Visits, FieldVisits, Shuffled, ShuffledData, LineSet, HasEmpty, Clears;
    var mine, other := WithDot(prefix) + fields[i].key, WithDot(prefix) + fields[j].key;
    var x := KeepsLine(fields[j].data, other);
    ShuffledSelf(fields[i].data);
    a, b := PutLast(fields, i, fields[i].data), PutLast(fields, j, x);
    PutLastShuffled(fields, i, fields[i].data);
    PutLastShuffled(fields, j, x);
    PutLastTail(fields, i, fields[i].data, prefix);
    PutLastTail(fields, j, x, prefix);
    TailWithin(Visits(fields[i].data, mine));
    TailWithin(Visits(x, other));
    ShuffledLines(fields[j].data, x, other);
    assert LineSet(VisitsAt(fields, prefix, i)) == LineSet(Visits(fields[i].data, mine));
    assert LineSet(VisitsAt(fields, prefix, j)) == LineSet(Visits(fields[j].data, other));
    var line :| line in Tail(Visits(x, other));
  }

  lemma {:induction false} UnsteadyElems(elems: seq<Data>, prefix: string) returns (a: seq<Data>, b: seq<Data>)
    requires !Steady(List(elems)) && UnlikeElems(elems, prefix, 0)
    ensures ShuffledElems(elems, a) && ShuffledElems(elems, b)
    ensures Tail(ElemVisits(a, prefix, 0)) != Tail(ElemVisits(b, prefix, 0))
    decreases elems, 0
  {
    hide Tail, Visits, ElemVisits, ShuffledElems, ShuffledData, LineSet, HasEmpty, UnlikeElems, Unlike, LaterEmpty,
        Itoa;
    var i :| 0 <= i < |elems| && !LaterEmpty(elems, i) && !Steady(elems[i]);
    var key := prefix + "[" + Itoa(i) + "]";
    UnlikeAt(elems, i, prefix, 0);
    UnsteadyHasEmpty(elems[i]);
    var x, y := UnsteadyVaries(elems[i], key);
    a, b := elems[i := x], elems[i := y];
    ReplacedShuffled(elems, i, x);
    ReplacedShuffled(elems, i, y);
    ReplacedTail(elems, i, x, prefix, 0);
    ReplacedTail(elems, i, y, prefix, 0);
    ShuffledLines(elems[i], x, key);
    ShuffledLines(elems[i], y, key);
    TailWithin(Visits(x, key));
    TailWithin(Visits(y, key));
    TailWithin(ElemVisits(elems[i + 1..], prefix, 0 + i + 1));
    DisjointSums(Tail(Visits(x, key)), Tail(Visits(y, key)), LaterTail(elems, i, prefix, 0));
  }

  lemma {:induction false} DisjointSums(a: set<string>, b: set<string>, c: set<string>)
    requires a !! c && b !! c && a != b
    ensures a + c != b + c
  {
    var x :| x in a + b && (x in a) != (x in b);
    assert (x in a + c) != (x in b + c);
  }

  lemma {:induction false} UnlikeAt(elems: seq<Data>, i: nat, prefix: string, from: nat)
    requires i < |elems| && UnlikeElems(elems, prefix, from)
    ensures Unlike(elems[i], prefix + "[" + Itoa(from + i) + "]")
    ensures LineSet(Visits(elems[i], prefix + "[" + Itoa(from + i) + "]"))
            !! LineSet(ElemVisits(elems[i + 1..], prefix, from + i + 1))
    decreases i
  {
    hide Unlike, LineSet, Visits, ElemVisits, Itoa;
    if i > 0 {
      assert elems[1..][i..] == elems[i + 1..];
      UnlikeAt(elems[1..], i - 1, prefix, from + 1);
    }
  }

  // ----- in full -----

  /** Data whose lines are all different keep the same lines in every order their
      maps may be iterated in exactly when they are steady. */
  lemma {:induction false} SameLinesExact(fields: seq<Field>)
    requires UnlikeFields(fields, "")
    ensures (forall a, b :: Shuffled(fields, a) && Shuffled(fields, b) ==>
               Tail(FieldVisits(a, "")) == Tail(FieldVisits(b, "")))
            <==> Steady(Map(fields))
  {
    hide Tail, FieldVisits, Shuffled, Steady, UnlikeFields;
    if Steady(Map(fields)) {
      forall a, b | Shuffled(fields, a) && Shuffled(fields, b)
        ensures Tail(FieldVisits(a, "")) == Tail(FieldVisits(b, ""))
      {
        SteadyFields(fields, a, "");
        SteadyFields(fields, b, "");
      }
    } else {
      var a, b := UnsteadyFields(fields, "");
    }
  }
}
