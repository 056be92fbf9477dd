/** Go iterates a map in any order: which data keep all their lines when they
    are flattened, whatever that order is (MapToProperties and
    doMapToProperties in service/cfg/codec.go). */
module Iteration {
  import opened Text
  import opened Results
  import opened Sorting
  import opened Data
  import opened Props

  // ----- the orders a map can be visited in -----

  /** b is a with the fields of every map in some other order. */
  ghost predicate Shuffled(a: seq<Field>, b: seq<Field>)
    decreases a, 1
  {
    exists p :: Moved(a, b, p)
  }

  ghost predicate Moved(a: seq<Field>, b: seq<Field>, p: seq<int>)
    decreases a, 0
  {
    && Permutes(p, |a|) && |b| == |a|
    && forall i :: 0 <= i < |a| ==> b[i].key == a[p[i]].key && ShuffledData(a[p[i]].data, b[i].data)
  }

  ghost predicate ShuffledData(d: Data, e: Data)
    decreases d, 0
  {
    match d
    case Map(fields) => e.Map? && Shuffled(fields, e.fields)
    case List(elems) => e.List? && ShuffledElems(elems, e.elems)
    case _ => e == d
  }

  ghost predicate ShuffledElems(a: seq<Data>, b: seq<Data>)
    decreases a, 0
  {
    |a| == |b| && forall i :: 0 <= i < |a| ==> ShuffledData(a[i], b[i])
  }

  // ----- what can be seen on the data -----

  predicate HasLeaf(d: Data)
    decreases d, 0
  {
    match d
    case Map(fields) => exists i :: 0 <= i < |fields| && HasLeaf(fields[i].data)
    case List(elems) => exists i :: 0 <= i < |elems| && HasLeaf(elems[i])
    case _ => true
  }

  predicate HasEmpty(d: Data)
    decreases d, 0
  {
    match d
    case Map(fields) => fields == [] || exists i :: 0 <= i < |fields| && HasEmpty(fields[i].data)
    case List(elems) => exists i :: 0 <= i < |elems| && HasEmpty(elems[i])
    case _ => false
  }

  /** No field of a map holds a leaf while another one holds an empty map. */
  predicate Safe(fields: seq<Field>)
    decreases fields, 0
  {
    && (forall i :: 0 <= i < |fields| ==> SafeData(fields[i].data))
    && (forall i, j :: 0 <= i < |fields| && 0 <= j < |fields| && i != j ==>
          !(HasLeaf(fields[i].data) && HasEmpty(fields[j].data)))
  }

  /** In an array only an empty map in a later element than the leaf does harm. */
  predicate SafeData(d: Data)
    decreases d, 0
  {
    match d
    case Map(fields) => Safe(fields)
    case List(elems) =>
      && (forall i :: 0 <= i < |elems| ==> SafeData(elems[i]))
      && (forall i, j :: 0 <= i < j < |elems| ==> !(HasLeaf(elems[i]) && HasEmpty(elems[j])))
    case _ => true
  }

  // ----- shuffling keeps all that -----

  lemma {:induction false} ShuffledAlike(d: Data, e: Data)
    requires ShuffledData(d, e)
    ensures HasLeaf(d) == HasLeaf(e) && HasEmpty(d) == HasEmpty(e)
    ensures SafeData(d) ==> SafeData(e)
    decreases d, 0
  {
    match d
    case Map(fields) => ShuffledFieldsAlike(fields, e.fields);
    case List(elems) =>
      forall i | 0 <= i < |elems|
        ensures HasLeaf(elems[i]) == HasLeaf(e.elems[i]) && HasEmpty(elems[i]) == HasEmpty(e.elems[i])
        ensures SafeData(elems[i]) ==> SafeData(e.elems[i])
      {
        assert ShuffledData(elems[i], e.elems[i]);
        ShuffledAlike(elems[i], e.elems[i]);
      }
    case _ =>
  }

  lemma {:induction false} ShuffledFieldsAlike(a: seq<Field>, b: seq<Field>)
    requires Shuffled(a, b)
    ensures HasLeaf(Map(a)) == HasLeaf(Map(b)) && HasEmpty(Map(a)) == HasEmpty(Map(b))
    ensures Safe(a) ==> Safe(b)
    decreases a, 0
  {
    var p :| Moved(a, b, p);
    forall i | 0 <= i < |a|
      ensures HasLeaf(a[p[i]].data) == HasLeaf(b[i].data) && HasEmpty(a[p[i]].data) == HasEmpty(b[i].data)
      ensures SafeData(a[p[i]].data) ==> SafeData(b[i].data)
    {
      ShuffledAlike(a[p[i]].data, b[i].data);
    }
    forall v | 0 <= v < |a|
      ensures HasLeaf(a[v].data) ==> HasLeaf(Map(b))
      ensures HasEmpty(a[v].data) ==> HasEmpty(Map(b))
    {
      assert HasAt(p, v);
      var i :| 0 <= i < |p| && p[i] == v;
      assert b[i] in b;
    }
  }

  // ----- from the data to what is visited -----

  ghost predicate SomeLine(visits: seq<Visit>) {
    exists j :: 0 <= j < |visits| && visits[j].LeafLine?
  }

  lemma {:induction false} ConcatVisits(a: seq<Visit>, b: seq<Visit>)
    ensures SomeLine(a + b) <==> SomeLine(a) || SomeLine(b)
    ensures SomeEmpty(a + b) <==> SomeEmpty(a) || SomeEmpty(b)
    ensures EmptyAfterLine(a + b) <==> EmptyAfterLine(a) || EmptyAfterLine(b) || (SomeLine(a) && SomeEmpty(b))
  {
    assert forall i :: 0 <= i < |a| ==> (a + b)[i] == a[i];
    assert forall i :: 0 <= i < |b| ==> (a + b)[|a| + i] == b[i];
  }

  lemma {:induction false} LeafVisit(prefix: string, d: Data)
    requires d.Scalar?
    ensures Visits(d, prefix) == [LeafLine(prefix + "=" + LeafText(d))]
  {
  }

  lemma {:induction false} VisitsShow(d: Data, prefix: string)
    ensures SomeLine(Visits(d, prefix)) <==> HasLeaf(d)
    ensures SomeEmpty(Visits(d, prefix)) <==> HasEmpty(d)
    decreases d, 1
  {
    match d
    case Map(fields) => if fields != [] { FieldsShow(fields, prefix); } else { assert Visits(d, prefix)[0].EmptyMap?; }
    case List(elems) => ElemsShow(elems, prefix, 0);
    case _ => assert Visits(d, prefix)[0].LeafLine?;
  }

  lemma {:induction false} FieldsShow(fields: seq<Field>, prefix: string)
    ensures SomeLine(FieldVisits(fields, prefix)) <==> exists i :: 0 <= i < |fields| && HasLeaf(fields[i].data)
    ensures SomeEmpty(FieldVisits(fields, prefix)) <==> exists i :: 0 <= i < |fields| && HasEmpty(fields[i].data)
    decreases fields, 0
  {
    if fields != [] {
      var first, rest := Visits(fields[0].data, WithDot(prefix) + fields[0].key), FieldVisits(fields[1..], prefix);
      VisitsShow(fields[0].data, WithDot(prefix) + fields[0].key);
      FieldsShow(fields[1..], prefix);
      ConcatVisits(first, rest);
      assert forall i :: 0 < i < |fields| ==> fields[i] == fields[1..][i - 1];
    }
  }

  lemma {:induction false} ElemsShow(elems: seq<Data>, prefix: string, from: nat)
    ensures SomeLine(ElemVisits(elems, prefix, from)) <==> exists i :: 0 <= i < |elems| && HasLeaf(elems[i])
    ensures SomeEmpty(ElemVisits(elems, prefix, from)) <==> exists i :: 0 <= i < |elems| && HasEmpty(elems[i])
    decreases elems, 0
  {
    if elems != [] {
      var first, rest := Visits(elems[0], prefix + "[" + Itoa(from) + "]"), ElemVisits(elems[1..], prefix, from + 1);
      VisitsShow(elems[0], prefix + "[" + Itoa(from) + "]");
      ElemsShow(elems[1..], prefix, from + 1);
      ConcatVisits(first, rest);
      assert forall i :: 0 < i < |elems| ==> elems[i] == elems[1..][i - 1];
    }
  }

  // ----- safe data lose nothing -----

  lemma {:induction false} SafeVisits(d: Data, prefix: string)
    requires SafeData(d)
    ensures !EmptyAfterLine(Visits(d, prefix))
    decreases d, 1
  {
    match d
    case Map(fields) => if fields != [] { SafeFieldVisits(fields, prefix); }
    case List(elems) => SafeElemVisits(elems, prefix, 0);
    case _ =>
  }

  lemma {:induction false} SafeFieldVisits(fields: seq<Field>, prefix: string)
    requires Safe(fields)
    ensures !EmptyAfterLine(FieldVisits(fields, prefix))
    decreases fields, 0
  {
    if fields != [] {
      var key, rest := WithDot(prefix) + fields[0].key, fields[1..];
      assert forall i :: 0 <= i < |rest| ==> rest[i] == fields[i + 1];
      SafeVisits(fields[0].data, key);
      SafeFieldVisits(rest, prefix);
      VisitsShow(fields[0].data, key);
      FieldsShow(rest, prefix);
      ConcatVisits(Visits(fields[0].data, key), FieldVisits(rest, prefix));
    }
  }

  lemma {:induction false} SafeElemVisits(elems: seq<Data>, prefix: string, from: nat)
    requires SafeData(List(elems))
    ensures !EmptyAfterLine(ElemVisits(elems, prefix, from))
    decreases elems, 0
  {
    if elems != [] {
      var key, rest := prefix + "[" + Itoa(from) + "]", elems[1..];
      assert forall i :: 0 <= i < |rest| ==> rest[i] == elems[i + 1];
      SafeVisits(elems[0], key);
      SafeElemVisits(rest, prefix, from + 1);
      VisitsShow(elems[0], key);
      ElemsShow(rest, prefix, from + 1);
      ConcatVisits(Visits(elems[0], key), ElemVisits(rest, prefix, from + 1));
    }
  }

  // ----- unsafe data have an order that loses lines -----

  lemma {:induction false} FieldAt(fields: seq<Field>, i: nat, prefix: string)
    requires i < |fields| && EmptyAfterLine(Visits(fields[i].data, WithDot(prefix) + fields[i].key))
    ensures EmptyAfterLine(FieldVisits(fields, prefix))
    decreases i
  {
    hide EmptyAfterLine, Visits;
    ConcatVisits(Visits(fields[0].data, WithDot(prefix) + fields[0].key), FieldVisits(fields[1..], prefix));
    if i > 0 {
      FieldAt(fields[1..], i - 1, prefix);
    }
  }

  lemma {:induction false} FieldsAt(fields: seq<Field>, i: nat, j: nat, prefix: string)
    requires i < j < |fields| && HasLeaf(fields[i].data) && HasEmpty(fields[j].data)
    ensures EmptyAfterLine(FieldVisits(fields, prefix))
    decreases i
  {
    hide EmptyAfterLine, Visits, HasLeaf, HasEmpty, SomeLine, SomeEmpty;
    var key := WithDot(prefix) + fields[0].key;
    ConcatVisits(Visits(fields[0].data, key), FieldVisits(fields[1..], prefix));
    assert fields[1..][j - 1] == fields[j];
    if i == 0 {
      VisitsShow(fields[0].data, key);
      FieldsShow(fields[1..], prefix);
    } else {
      FieldsAt(fields[1..], i - 1, j - 1, prefix);
    }
  }

  lemma {:induction false} ElemAt(elems: seq<Data>, i: nat, prefix: string, from: nat)
    requires i < |elems| && EmptyAfterLine(Visits(elems[i], prefix + "[" + Itoa(from + i) + "]"))
    ensures EmptyAfterLine(ElemVisits(elems, prefix, from))
    decreases i
  {
    hide EmptyAfterLine, Visits, Itoa;
    ConcatVisits(Visits(elems[0], prefix + "[" + Itoa(from) + "]"), ElemVisits(elems[1..], prefix, from + 1));
    if i > 0 {
      ElemAt(elems[1..], i - 1, prefix, from + 1);
    }
  }

  lemma {:induction false} ElemsAt(elems: seq<Data>, i: nat, j: nat, prefix: string, from: nat)
    requires i < j < |elems| && HasLeaf(elems[i]) && HasEmpty(elems[j])
    ensures EmptyAfterLine(ElemVisits(elems, prefix, from))
    decreases i
  {
    hide EmptyAfterLine, Visits, HasLeaf, HasEmpty, SomeLine, SomeEmpty, Itoa;
    var key := prefix + "[" + Itoa(from) + "]";
    ConcatVisits(Visits(elems[0], key), ElemVisits(elems[1..], prefix, from + 1));
    assert elems[1..][j - 1] == elems[j];
    if i == 0 {
      VisitsShow(elems[0], key);
      ElemsShow(elems[1..], prefix, from + 1);
    } else {
      ElemsAt(elems[1..], i - 1, j - 1, prefix, from + 1);
    }
  }

  lemma {:induction false} ShuffledSelf(d: Data)
    ensures ShuffledData(d, d)
    decreases d, 1
  {
    match d
    case Map(fields) => ShuffledFieldsSelf(fields);
    case List(elems) => forall i | 0 <= i < |elems| ensures ShuffledData(elems[i], elems[i]) { ShuffledSelf(elems[i]); }
    case _ =>
  }

  function Swapped(n: nat, i: nat, j: nat): seq<int> { seq(n, k => if k == i then j else if k == j then i else k) }

  lemma {:induction false} SwappedPermutes(n: nat, i: nat, j: nat)
    requires (i < n && j < n) || i == j
    ensures Permutes(Swapped(n, i, j), n)
  {
    var p := Swapped(n, i, j);
    forall v | 0 <= v < n ensures HasAt(p, v) {
      assert p[if v == i then j else if v == j then i else v] == v;
    }
  }

  lemma {:induction false} ShuffledInPlace(a: seq<Field>, b: seq<Field>)
    requires |a| == |b| && forall i :: 0 <= i < |a| ==> a[i].key == b[i].key && ShuffledData(a[i].data, b[i].data)
    ensures Shuffled(a, b)
  {
    hide Permutes, ShuffledData;
    var p := Swapped(|a|, 0, 0);
    SwappedPermutes(|a|, 0, 0);
    assert forall i :: 0 <= i < |a| ==> p[i] == i;
    assert Moved(a, b, p);
  }

  lemma {:induction false} ShuffledFieldsSelf(fields: seq<Field>)
    ensures Shuffled(fields, fields)
    decreases fields, 0
  {
    forall i | 0 <= i < |fields| ensures ShuffledData(fields[i].data, fields[i].data) { ShuffledSelf(fields[i].data); }
    ShuffledInPlace(fields, fields);
  }

  /** Two fields change places. */
  lemma {:induction false} ShuffledSwap(fields: seq<Field>, i: nat, j: nat)
    requires i < |fields| && j < |fields|
    ensures Shuffled(fields, Picked(fields, Swapped(|fields|, i, j)))
  {
    var p := Swapped(|fields|, i, j);
    SwappedPermutes(|fields|, i, j);
    forall k | 0 <= k < |fields| ensures ShuffledData(fields[p[k]].data, fields[p[k]].data) {
      ShuffledSelf(fields[p[k]].data);
    }
    assert Moved(fields, Picked(fields, p), p);
  }

  /** One field's data in another order. */
  lemma {:induction false} ShuffledField(fields: seq<Field>, i: nat, e: Data)
    requires i < |fields| && ShuffledData(fields[i].data, e)
    ensures Shuffled(fields, fields[i := fields[i].(data := e)])
  {
    hide Shuffled, ShuffledData;
    forall k | 0 <= k < |fields| ensures ShuffledData(fields[k].data, fields[k].data) { ShuffledSelf(fields[k].data); }
    ShuffledInPlace(fields, fields[i := fields[i].(data := e)]);
  }

  lemma {:induction false} UnsafeData(d: Data, prefix: string) returns (e: Data)
    requires !SafeData(d)
    ensures ShuffledData(d, e) && EmptyAfterLine(Visits(e, prefix))
    decreases d, 1
  {
    hide EmptyAfterLine, FieldVisits, ElemVisits, HasLeaf, HasEmpty, Shuffled, Itoa;
    match d
    case Map(fields) =>
      var b := UnsafeFields(fields, prefix);
      e := Map(b);
    case List(elems) =>
      if i, j :| 0 <= i < j < |elems| && HasLeaf(elems[i]) && HasEmpty(elems[j]) {
        ElemsAt(elems, i, j, prefix, 0);
        ShuffledSelf(d);
        e := d;
      } else {
        var i :| 0 <= i < |elems| && !SafeData(elems[i]);
        var x := UnsafeData(elems[i], prefix + "[" + Itoa(i) + "]");
        e := List(elems[i := x]);
        ElemAt(e.elems, i, prefix, 0);
        forall k | 0 <= k < |elems| ensures ShuffledData(elems[k], e.elems[k]) { ShuffledSelf(elems[k]); }
      }
  }

  lemma {:induction false} UnsafeFields(fields: seq<Field>, prefix: string) returns (b: seq<Field>)
    requires !Safe(fields)
    ensures Shuffled(fields, b) && b != [] && EmptyAfterLine(FieldVisits(b, prefix))
    decreases fields, 0
  {
    hide EmptyAfterLine, Visits, FieldVisits, HasLeaf, HasEmpty, SafeData, Shuffled, ShuffledData;
    if i :| 0 <= i < |fields| && !SafeData(fields[i].data) {
      var e := UnsafeData(fields[i].data, WithDot(prefix) + fields[i].key);
      ShuffledField(fields, i, e);
      b := fields[i := fields[i].(data := e)];
      FieldAt(b, i, prefix);
    } else {
      var i, j :| 0 <= i < |fields| && 0 <= j < |fields| && i != j && HasLeaf(fields[i].data)
          && HasEmpty(fields[j].data);
      if i < j {
        ShuffledFieldsSelf(fields);
        b := fields;
        FieldsAt(b, i, j, prefix);
      } else {
        ShuffledSwap(fields, i, j);
        b := Picked(fields, Swapped(|fields|, i, j));
        assert b[j] == fields[i] && b[i] == fields[j];
        FieldsAt(b, j, i, prefix);
      }
    }
  }

  // ----- the text -----

  lemma {:induction false} CollectEnd(acc: seq<string>, visits: seq<Visit>) returns (k: nat)
    ensures k <= |acc| + |LinesOf(visits)| && Collect(acc, visits) == (acc + LinesOf(visits))[k..]
    decreases |visits|
  {
    if visits == [] {
      k := 0;
    } else if visits[0].EmptyMap? {
      k := CollectEnd([], visits[1..]);
      assert ([] + LinesOf(visits[1..]))[k..] == (acc + LinesOf(visits))[|acc| + k..];
      k := |acc| + k;
    } else {
      k := CollectEnd(acc + [visits[0].line], visits[1..]);
      assert acc + LinesOf(visits) == (acc + [visits[0].line]) + LinesOf(visits[1..]);
    }
  }

  lemma {:induction false} FewerLines(lines: seq<string>, k: nat)
    requires k <= |lines|
    ensures |Lines(lines[k..], '\n')| <= |Lines(lines, '\n')|
    ensures k > 0 ==> |Lines(lines[k..], '\n')| < |Lines(lines, '\n')|
    decreases k
  {
    if k > 0 {
      FewerLines(lines[1..], k - 1);
      assert lines[1..][k - 1..] == lines[k..];
    }
  }

  lemma {:induction false} ShuffledNull(a: seq<Field>, b: seq<Field>)
    requires Shuffled(a, b) && !NullAtTop(a)
    ensures !NullAtTop(b)
  {
    var p :| Moved(a, b, p);
    forall i | 0 <= i < |b| ensures !b[i].data.Null? {
      assert ShuffledData(a[p[i]].data, b[i].data);
    }
  }

  /** Every leaf has its line. */
  predicate Complete(fields: seq<Field>) {
    ToProperties(fields) == Some(Lines(LinesOf(FieldVisits(fields, "")), '\n'))
  }

  lemma {:induction false} CompleteExact(fields: seq<Field>)
    ensures Complete(fields) <==> !NullAtTop(fields) && !EmptyAfterLine(FieldVisits(fields, ""))
  {
    var visits := FieldVisits(fields, "");
    FlattenKeepsAll(visits);
    var k := CollectEnd([], visits);
    assert [] + LinesOf(visits) == LinesOf(visits);
    FewerLines(LinesOf(visits), k);
  }

  /** Flattening keeps every leaf's line in every order the maps may be iterated
      in exactly when no top value is nil, no map holds a leaf beside an empty
      map, and no array an empty map after a leaf. */
  lemma {:induction false} EveryOrderKeepsAll(fields: seq<Field>)
    ensures (forall b :: Shuffled(fields, b) ==> Complete(b)) <==> !NullAtTop(fields) && Safe(fields)
  {
    hide Complete, Safe, FieldVisits, EmptyAfterLine;
    if NullAtTop(fields) {
      ShuffledFieldsSelf(fields);
      CompleteExact(fields);
    } else if !Safe(fields) {
      var b := UnsafeFields(fields, "");
      CompleteExact(b);
    } else {
      forall b: seq<Field> | Shuffled(fields, b) ensures Complete(b) {
        ShuffledFieldsAlike(fields, b);
        SafeFieldVisits(b, "");
        CompleteExact(b);
        ShuffledNull(fields, b);
      }
    }
  }
}
