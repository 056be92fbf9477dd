/** Data of regular shape is determined, up to the order of keys, by its leaves. */
module Alike {
  import opened Tree
  import opened Data

  // ----- picking out and mapping leaves -----

  function Those<T>(s: seq<T>, p: T -> bool): seq<T> {
    if s == [] then [] else (if p(s[0]) then [s[0]] else []) + Those(s[1..], p)
  }

  lemma {:induction false} ThoseConcat<T>(a: seq<T>, b: seq<T>, p: T -> bool)
    ensures Those(a + b, p) == Those(a, p) + Those(b, p)
  {
    if a == [] {
      assert a + b == b;
    } else {
      hide Those;
      ThoseConcat(a[1..], b, p);
      assert a + b == [a[0]] + (a[1..] + b) && a == [a[0]] + a[1..];
      ThoseFirst(a[0], a[1..] + b, p);
      ThoseFirst(a[0], a[1..], p);
    }
  }

  lemma {:induction false} ThoseFirst<T>(x: T, s: seq<T>, p: T -> bool)
    ensures Those([x] + s, p) == (if p(x) then [x] else []) + Those(s, p)
  {
    assert ([x] + s)[1..] == s;
  }

  lemma {:induction false} ThoseCount<T>(s: seq<T>, p: T -> bool, x: T)
    ensures multiset(Those(s, p))[x] == if p(x) then multiset(s)[x] else 0
  {
    if s != [] {
      ThoseCount(s[1..], p, x);
      assert s == [s[0]] + s[1..];
    }
  }

  lemma {:induction false} ThosePerm<T(!new)>(a: seq<T>, b: seq<T>, p: T -> bool)
    requires Perm(a, b)
    ensures Perm(Those(a, p), Those(b, p))
  {
    forall x ensures multiset(Those(a, p))[x] == multiset(Those(b, p))[x] {
      ThoseCount(a, p, x);
      ThoseCount(b, p, x);
    }
  }

  lemma {:induction false} ThoseAll<T>(s: seq<T>, p: T -> bool)
    requires forall i :: 0 <= i < |s| ==> p(s[i])
    ensures Those(s, p) == s
  {
    if s != [] {
      ThoseAll(s[1..], p);
    }
  }

  lemma {:induction false} ThoseNone<T>(s: seq<T>, p: T -> bool)
    requires forall i :: 0 <= i < |s| ==> !p(s[i])
    ensures Those(s, p) == []
  {
    if s != [] {
      ThoseNone(s[1..], p);
    }
  }

  function Mapped<T>(s: seq<T>, f: T -> T): seq<T> {
    seq(|s|, i requires 0 <= i < |s| => f(s[i]))
  }

  lemma {:induction false} MappedPerm<T>(a: seq<T>, b: seq<T>, f: T -> T)
    requires Perm(a, b)
    ensures Perm(Mapped(a, f), Mapped(b, f))
    decreases |a|
  {
    if a == [] {
      assert |multiset(b)| == 0;
    } else {
      assert a == [a[0]] + a[1..];
      var j := PermRemove(a[0], a[1..], b);
      MappedPerm(a[1..], b[..j] + b[j + 1..], f);
      MappedSplit(a, b, j, f);
    }
  }

  lemma {:induction false} MappedSplit<T>(a: seq<T>, b: seq<T>, j: nat, f: T -> T)
    requires a != [] && j < |b| && b[j] == a[0]
    requires Perm(Mapped(a[1..], f), Mapped(b[..j] + b[j + 1..], f))
    ensures Perm(Mapped(a, f), Mapped(b, f))
  {
    var x, y := Mapped(b[..j], f), Mapped(b[j + 1..], f);
    assert Mapped(a, f) == [f(a[0])] + Mapped(a[1..], f);
    assert Mapped(b[..j] + b[j + 1..], f) == x + y;
    assert Mapped(b, f) == x + [f(b[j])] + y;
  }

  // ----- the leaves of one field and of one element -----

  function Named(key: string): Leaf -> bool {
    (l: Leaf) => l.path != [] && l.path[0].name == key
  }

  lemma {:induction false} ValueNamed(key: string, d: Data)
    ensures forall i :: 0 <= i < |ValueLeaves(key, d)| ==>
              Named(key)(ValueLeaves(key, d)[i]) && ValueLeaves(key, d)[i].index == -1
  {
  }

  lemma {:induction false} NotNamed(fields: seq<Field>, key: string)
    requires forall i :: 0 <= i < |fields| ==> fields[i].key != key
    ensures Those(FieldLeaves(fields), Named(key)) == []
  {
    if fields != [] {
      var a := ValueLeaves(fields[0].key, fields[0].data);
      NotNamed(fields[1..], key);
      ValueNamed(fields[0].key, fields[0].data);
      ThoseNone(a, Named(key));
      ThoseConcat(a, FieldLeaves(fields[1..]), Named(key));
    }
  }

  /** Picking a key's leaves gives the field's. */
  lemma {:induction false} FieldNamed(fields: seq<Field>, i: nat)
    requires i < |fields| && forall m, n :: 0 <= m < n < |fields| ==> fields[m].key != fields[n].key
    ensures Those(FieldLeaves(fields), Named(fields[i].key)) == ValueLeaves(fields[i].key, fields[i].data)
  {
    var a, b, p := ValueLeaves(fields[0].key, fields[0].data), FieldLeaves(fields[1..]), Named(fields[i].key);
    ThoseConcat(a, b, p);
    ValueNamed(fields[0].key, fields[0].data);
    if i == 0 {
      ThoseAll(a, p);
      NotNamed(fields[1..], fields[0].key);
    } else {
      ThoseNone(a, p);
      FieldNamed(fields[1..], i - 1);
    }
  }

  lemma {:induction false} FieldOwner(fields: seq<Field>, w: nat) returns (i: nat)
    requires w < |FieldLeaves(fields)|
    ensures i < |fields| && FieldLeaves(fields)[w].path != [] && FieldLeaves(fields)[w].index == -1
    ensures FieldLeaves(fields)[w].path[0].name == fields[i].key
  {
    var a := ValueLeaves(fields[0].key, fields[0].data);
    ValueNamed(fields[0].key, fields[0].data);
    if w < |a| {
      i := 0;
    } else {
      i := FieldOwner(fields[1..], w - |a|);
      i := i + 1;
    }
  }

  function Numbered(j: int): Leaf -> bool {
    (l: Leaf) => l.index == j
  }

  lemma {:induction false} OneElemNumbered(d: Data, j: nat)
    ensures forall i :: 0 <= i < |OneElem(d, j)| ==> OneElem(d, j)[i].index == j
  {
  }

  lemma {:induction false} NotNumbered(elems: seq<Data>, from: nat, j: int)
    requires j < from || j >= from + |elems|
    ensures Those(ElemLeaves(elems, from), Numbered(j)) == []
    decreases |elems|
  {
    if elems != [] {
      NotNumbered(elems[1..], from + 1, j);
      OneElemNumbered(elems[0], from);
      ThoseNone(OneElem(elems[0], from), Numbered(j));
      ThoseConcat(OneElem(elems[0], from), ElemLeaves(elems[1..], from + 1), Numbered(j));
    }
  }

  /** Picking an index's leaves gives the element's. */
  lemma {:induction false} ElemNumbered(elems: seq<Data>, from: nat, j: nat)
    requires from <= j < from + |elems|
    ensures Those(ElemLeaves(elems, from), Numbered(j)) == OneElem(elems[j - from], j)
    decreases |elems|
  {
    hide OneElem, Those;
    var a, b := OneElem(elems[0], from), ElemLeaves(elems[1..], from + 1);
    ThoseConcat(a, b, Numbered(j));
    OneElemNumbered(elems[0], from);
    if j == from {
      ThoseAll(a, Numbered(j));
      NotNumbered(elems[1..], from + 1, j);
    } else {
      ThoseNone(a, Numbered(j));
      ElemNumbered(elems[1..], from + 1, j);
    }
  }

  // ----- nothing regular is without leaves -----

  lemma {:induction false} ValueHasLeaf(key: string, d: Data)
    requires RegularData(d)
    ensures ValueLeaves(key, d) != []
    decreases d, 1
  {
    match d
    case Map(fields) =>
      ValueHasLeaf(fields[0].key, fields[0].data);
    case List(elems) =>
      ElemHasLeaf(elems[0], 0);
    case _ =>
  }

  lemma {:induction false} ElemHasLeaf(d: Data, j: nat)
    requires RegularData(d) && !d.List?
    ensures OneElem(d, j) != []
    decreases d, 0
  {
    if d.Map? {
      ValueHasLeaf(d.fields[0].key, d.fields[0].data);
    }
  }

  // ----- the leaves determine the data -----

  lemma {:induction false} KeyFound(a: seq<Field>, b: seq<Field>, i: nat) returns (j: nat)
    requires Regular(a) && i < |a| && Perm(FieldLeaves(a), FieldLeaves(b))
    ensures j < |b| && a[i].key == b[j].key
  {
    var p := Named(a[i].key);
    FieldNamed(a, i);
    ValueHasLeaf(a[i].key, a[i].data);
    ThosePerm(FieldLeaves(a), FieldLeaves(b), p);
    PermEmpty(Those(FieldLeaves(a), p), Those(FieldLeaves(b), p));
    SomeNamed(b, a[i].key);
    j :| 0 <= j < |b| && a[i].key == b[j].key;
  }

  lemma {:induction false} PermEmpty<T>(a: seq<T>, b: seq<T>)
    requires Perm(a, b)
    ensures a == [] <==> b == []
  {
    assert |multiset(a)| == |multiset(b)|;
  }

  lemma {:induction false} SomeNamed(fields: seq<Field>, key: string)
    requires Those(FieldLeaves(fields), Named(key)) != []
    ensures exists i :: 0 <= i < |fields| && key == fields[i].key
  {
    if forall i :: 0 <= i < |fields| ==> key != fields[i].key {
      NotNamed(fields, key);
    }
  }

  function KeySet(fields: seq<Field>): set<string> {
    set i | 0 <= i < |fields| :: fields[i].key
  }

  lemma {:induction false} KeySetSize(fields: seq<Field>)
    requires forall m, n :: 0 <= m < n < |fields| ==> fields[m].key != fields[n].key
    ensures |KeySet(fields)| == |fields|
  {
    if fields != [] {
      var init, last := fields[..|fields| - 1], fields[|fields| - 1];
      KeySetSize(init);
      assert KeySet(fields) == KeySet(init) + {last.key};
      assert last.key !in KeySet(init);
    }
  }

  lemma {:induction false} SameSize(a: seq<Field>, b: seq<Field>)
    requires Regular(a) && Regular(b) && Perm(FieldLeaves(a), FieldLeaves(b))
    ensures |a| == |b|
  {
    forall k ensures k in KeySet(a) <==> k in KeySet(b) {
      if i :| 0 <= i < |a| && a[i].key == k {
        var j := KeyFound(a, b, i);
      }
      if i :| 0 <= i < |b| && b[i].key == k {
        var j := KeyFound(b, a, i);
      }
    }
    KeySetSize(a);
    KeySetSize(b);
    assert KeySet(a) == KeySet(b);
  }

  /** Regular data with the same leaves is the same up to the order of keys. */
  lemma {:induction false} LeavesDetermine(a: seq<Field>, b: seq<Field>)
    requires Regular(a) && Regular(b) && Perm(FieldLeaves(a), FieldLeaves(b))
    ensures SameFields(a, b)
    decreases a, 0
  {
    SameSize(a, b);
    forall i | 0 <= i < |a|
      ensures exists j :: 0 <= j < |b| && a[i].key == b[j].key && SameData(a[i].data, b[j].data)
    {
      var j := KeyFound(a, b, i);
      FieldNamed(a, i);
      FieldNamed(b, j);
      ThosePerm(FieldLeaves(a), FieldLeaves(b), Named(a[i].key));
      ValueDetermines(a[i].key, a[i].data, b[j].data);
    }
  }

  lemma {:induction false} ValueDetermines(key: string, d: Data, e: Data)
    requires RegularData(d) && RegularData(e) && Perm(ValueLeaves(key, d), ValueLeaves(key, e))
    ensures SameData(d, e)
    decreases d, 1
  {
    SameKind(key, d, e);
    match d
    case Map(fields) =>
      UnderBack(key, FieldLeaves(fields), FieldLeaves(e.fields));
      LeavesDetermine(fields, e.fields);
    case List(elems) =>
      UnderBack(key, ElemLeaves(elems, 0), ElemLeaves(e.elems, 0));
      ElemsDetermine(elems, e.elems);
    case _ =>
      OneValue(ValueLeaves(key, d), ValueLeaves(key, e));
  }

  lemma {:induction false} OneValue(a: seq<Leaf>, b: seq<Leaf>)
    requires |a| == |b| == 1 && Perm(a, b)
    ensures a[0] == b[0]
  {
    assert a[0] in multiset(b);
  }

  lemma {:induction false} ValueKind(key: string, d: Data, i: nat)
    requires i < |ValueLeaves(key, d)|
    ensures var p := ValueLeaves(key, d)[i].path;
            && p != [] && (d.List? <==> p[0].index >= 0) && (d.Map? <==> p[0].index < 0 && |p| > 1)
  {
    match d
    case Map(fields) =>
      var j := FieldOwner(fields, i);
    case List(elems) =>
      ElemIndex(elems, 0, i);
    case _ =>
  }

  lemma {:induction false} ElemIndex(elems: seq<Data>, from: nat, i: nat)
    requires i < |ElemLeaves(elems, from)|
    ensures ElemLeaves(elems, from)[i].index >= from
    decreases |elems|
  {
    OneElemNumbered(elems[0], from);
    if i >= |OneElem(elems[0], from)| {
      ElemIndex(elems[1..], from + 1, i - |OneElem(elems[0], from)|);
    }
  }

  lemma {:induction false} SameKind(key: string, d: Data, e: Data)
    requires RegularData(d) && Perm(ValueLeaves(key, d), ValueLeaves(key, e))
    ensures (d.Map? <==> e.Map?) && (d.List? <==> e.List?)
  {
    var a, b := ValueLeaves(key, d), ValueLeaves(key, e);
    ValueHasLeaf(key, d);
    assert a[0] in multiset(b);
    var j :| 0 <= j < |b| && b[j] == a[0];
    ValueKind(key, d, 0);
    ValueKind(key, e, j);
  }

  lemma {:induction false} UnderBack(key: string, a: seq<Leaf>, b: seq<Leaf>)
    requires Perm(UnderAll(-1, key, a), UnderAll(-1, key, b))
    ensures Perm(a, b)
  {
    var off := (l: Leaf) => if l.path == [] then l else Leaf(l.path[0].index, l.path[1..], l.value);
    MappedPerm(UnderAll(-1, key, a), UnderAll(-1, key, b), off);
    assert Mapped(UnderAll(-1, key, a), off) == a;
    assert Mapped(UnderAll(-1, key, b), off) == b;
  }

  lemma {:induction false} ElemsDetermine(a: seq<Data>, b: seq<Data>)
    requires RegularElems(a) && RegularElems(b) && Perm(ElemLeaves(a, 0), ElemLeaves(b, 0))
    ensures SameElems(a, b)
    decreases a, 0
  {
    SameLength(a, b);
    SameLength(b, a);
    forall j | 0 <= j < |a| ensures SameData(a[j], b[j]) {
      ElemsAgree(a, b, j);
      ElemDetermines(a[j], b[j], j);
    }
  }

  lemma {:induction false} ElemsAgree(a: seq<Data>, b: seq<Data>, j: nat)
    requires j < |a| && j < |b| && Perm(ElemLeaves(a, 0), ElemLeaves(b, 0))
    ensures Perm(OneElem(a[j], j), OneElem(b[j], j))
  {
    hide ElemLeaves, OneElem, Those;
    ElemNumbered(a, 0, j);
    ElemNumbered(b, 0, j);
    ThosePerm(ElemLeaves(a, 0), ElemLeaves(b, 0), Numbered(j));
  }

  lemma {:induction false} NumberedWithin(elems: seq<Data>, j: nat)
    ensures Those(ElemLeaves(elems, 0), Numbered(j)) != [] ==> j < |elems|
  {
    if j >= |elems| {
      NotNumbered(elems, 0, j);
    }
  }

  lemma {:induction false} SameLength(a: seq<Data>, b: seq<Data>)
    requires RegularElems(a) && Perm(ElemLeaves(a, 0), ElemLeaves(b, 0))
    ensures |a| <= |b|
  {
    if a != [] {
      var j := |a| - 1;
      ElemNumbered(a, 0, j);
      ElemHasLeaf(a[j], j);
      ThosePerm(ElemLeaves(a, 0), ElemLeaves(b, 0), Numbered(j));
      PermEmpty(Those(ElemLeaves(a, 0), Numbered(j)), Those(ElemLeaves(b, 0), Numbered(j)));
      NumberedWithin(b, j);
    }
  }

  lemma {:induction false} ElemDetermines(d: Data, e: Data, j: nat)
    requires RegularData(d) && RegularData(e) && !d.List? && !e.List? && Perm(OneElem(d, j), OneElem(e, j))
    ensures SameData(d, e)
    decreases d, 1
  {
    ElemHasLeaf(d, j);
    SameElemKind(d, e, j);
    if d.Map? {
      ReindexBack(j, d.fields, e.fields);
      LeavesDetermine(d.fields, e.fields);
    } else {
      OneValue(OneElem(d, j), OneElem(e, j));
    }
  }

  lemma {:induction false} SameElemKind(d: Data, e: Data, j: nat)
    requires !d.List? && !e.List? && OneElem(d, j) != [] && Perm(OneElem(d, j), OneElem(e, j))
    ensures d.Map? <==> e.Map?
  {
    var a, b := OneElem(d, j), OneElem(e, j);
    assert a[0] in multiset(b);
    var k :| 0 <= k < |b| && b[k] == a[0];
    if d.Map? {
      var m := FieldOwner(d.fields, 0);
    }
    if e.Map? {
      var m := FieldOwner(e.fields, k);
    }
  }

  lemma {:induction false} ReindexBack(j: nat, a: seq<Field>, b: seq<Field>)
    requires Perm(Reindex(j, FieldLeaves(a)), Reindex(j, FieldLeaves(b)))
    ensures Perm(FieldLeaves(a), FieldLeaves(b))
  {
    var top := (l: Leaf) => l.(index := -1);
    MappedPerm(Reindex(j, FieldLeaves(a)), Reindex(j, FieldLeaves(b)), top);
    ReindexUndone(j, a);
    ReindexUndone(j, b);
    assert Mapped(Reindex(j, FieldLeaves(a)), top) == Reindex(-1, FieldLeaves(a));
    assert Mapped(Reindex(j, FieldLeaves(b)), top) == Reindex(-1, FieldLeaves(b));
  }

  lemma {:induction false} ReindexUndone(j: nat, a: seq<Field>)
    ensures Reindex(-1, FieldLeaves(a)) == FieldLeaves(a)
  {
    forall i | 0 <= i < |FieldLeaves(a)| ensures FieldLeaves(a)[i].index == -1 {
      var k := FieldOwner(a, i);
    }
  }
}
