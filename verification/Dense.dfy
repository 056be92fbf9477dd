/** Array indexes without gaps: a YAML sequence numbers its items by position,
    so the printed data has the tree's leaves when no index is missing. */
module Dense {
  import opened Sorting
  import opened Tree
  import opened Data
  import opened Yaml
  import opened Resort

  /** a has l's path up to word s, and there the array element just before l's. */
  predicate StepsBefore(a: Leaf, l: Leaf, s: nat)
    requires s < |l.path|
  {
    a.index == l.index && |a.path| > s && a.path[..s] == l.path[..s]
    && a.path[s] == Seg(l.path[s].name, l.path[s].index - 1)
  }

  ghost predicate Closed(ls: seq<Leaf>) {
    forall i, s :: 0 <= i < |ls| && 0 <= s < |ls[i].path| && ls[i].path[s].index > 0 ==>
      exists k :: 0 <= k < |ls| && StepsBefore(ls[k], ls[i], s)
  }

  ghost predicate ElemClosed(ls: seq<Leaf>) {
    forall i :: 0 <= i < |ls| && ls[i].index > 0 ==> exists k :: 0 <= k < |ls| && ls[k].index == ls[i].index - 1
  }

  predicate Follows(a: int, b: int) { b == a || b == a + 1 }

  /** Nodes of array elements in order, with indexes from, from + 1, ... and none left out. */
  predicate Counted(vl: seq<YamlNode>, from: nat) {
    && (vl != [] ==> vl[0].lastNodeIndex == from)
    && (forall i :: 0 < i < |vl| ==> Follows(vl[i - 1].lastNodeIndex, vl[i].lastNodeIndex))
  }

  ghost predicate DenseTree(nodes: seq<YamlNode>)
    decreases nodes, 0
  {
    forall i :: 0 <= i < |nodes| ==> DenseNode(nodes[i])
  }

  ghost predicate DenseNode(n: YamlNode)
    decreases n, 0
  {
    (n.arrayFlag && !ScalarList(n.valueList) ==> Counted(n.valueList, 0)) && DenseTree(n.valueList)
        && DenseTree(n.children)
  }

  // ----- closed leaves make a dense tree -----

  lemma {:induction false} PermClosed(a: seq<Leaf>, b: seq<Leaf>)
    requires Perm(a, b) && Closed(a)
    ensures Closed(b)
  {
    forall i, s | 0 <= i < |b| && 0 <= s < |b[i].path| && b[i].path[s].index > 0
      ensures exists k :: 0 <= k < |b| && StepsBefore(b[k], b[i], s)
    {
      assert b[i] in multiset(a);
      var i' :| 0 <= i' < |a| && a[i'] == b[i];
      assert a[i'].path[s].index > 0;
      var k' :| 0 <= k' < |a| && StepsBefore(a[k'], a[i'], s);
      assert a[k'] in multiset(b);
    }
  }

  lemma {:induction false} SectionClosed(nodes: seq<YamlNode>, m: nat, inArray: bool, i: nat, s: nat) returns (k: nat)
    requires Good(nodes, inArray) && Closed(Leaves(nodes)) && m < |nodes|
    requires nodes[m].arrayFlag || nodes[m].children != []
    requires i < |Below(nodes[m])| && s <= |Below(nodes[m])[i].path|
    requires if s == 0 then Below(nodes[m])[i].index > 0 else Below(nodes[m])[i].path[s - 1].index > 0
    ensures k < |Below(nodes[m])|
    ensures if s == 0 then Below(nodes[m])[k].index == Below(nodes[m])[i].index - 1
            else StepsBefore(Below(nodes[m])[k], Below(nodes[m])[i], s - 1)
  {
    hide Good, Closed, StepsBefore, Leaves;
    var n, o := nodes[m], |Leaves(nodes[..m])|;
    SectionAt(nodes, m);
    var w := ClosedUnder(Leaves(nodes), o + i, n.lastNodeIndex, n.name, Below(n)[i], s);
    GoodPlace(nodes, inArray, m, w);
    k := SectionStep(Leaves(nodes), Below(n), o, n.lastNodeIndex, n.name, Below(n)[i], s, w);
  }

  lemma {:induction false} SectionStep(all: seq<Leaf>, below: seq<Leaf>, o: nat, index: int, name: string, l: Leaf,
      s: nat, w: nat) returns (k: nat)
    requires Section(all, below, o, index, name) && o <= w < o + |below| && s <= |l.path|
    requires StepsBefore(all[w], Under(index, name, l), s)
    ensures k < |below| && if s == 0 then below[k].index == l.index - 1 else StepsBefore(below[k], l, s - 1)
  {
    k := w - o;
    assert all[o + k] == Under(index, name, below[k]);
    StepBelow(index, name, below[k], l, s);
  }

  lemma {:induction false} ClosedUnder(all: seq<Leaf>, at: nat, index: int, name: string, l: Leaf, s: nat)
      returns (w: nat)
    requires Closed(all) && at < |all| && all[at] == Under(index, name, l) && s <= |l.path|
    requires if s == 0 then l.index > 0 else l.path[s - 1].index > 0
    ensures w < |all| && StepsBefore(all[w], Under(index, name, l), s)
    ensures all[w].path[0].name == name && all[w].index == index
  {
    w := ClosedAt(all, at, s);
  }

  lemma {:induction false} StepBelow(index: int, name: string, a: Leaf, l: Leaf, s: nat)
    requires s <= |l.path| && StepsBefore(Under(index, name, a), Under(index, name, l), s)
    ensures if s == 0 then a.index == l.index - 1 else StepsBefore(a, l, s - 1)
  {
    if s > 0 {
      StepsBeforeTail(index, name, a, l, s);
    }
  }

  lemma {:induction false} ClosedAt(ls: seq<Leaf>, i: nat, s: nat) returns (w: nat)
    requires Closed(ls) && i < |ls| && s < |ls[i].path| && ls[i].path[s].index > 0
    ensures w < |ls| && StepsBefore(ls[w], ls[i], s) && ls[w].path[0].name == ls[i].path[0].name
  {
    w :| 0 <= w < |ls| && StepsBefore(ls[w], ls[i], s);
    if s > 0 {
      assert ls[w].path[0] == ls[w].path[..s][0] && ls[i].path[0] == ls[i].path[..s][0];
    }
  }

  lemma {:induction false} StepsBeforeTail(index: int, name: string, a: Leaf, l: Leaf, s: nat)
    requires 0 < s <= |l.path| && StepsBefore(Under(index, name, a), Under(index, name, l), s)
    ensures StepsBefore(a, l, s - 1)
  {
    var ua, ul := Under(index, name, a), Under(index, name, l);
    assert ua.path[..s][0] == ul.path[..s][0];
    assert ua.path[..s][1..] == a.path[..s - 1] && ul.path[..s][1..] == l.path[..s - 1];
  }

  lemma {:induction false} BelowClosed(nodes: seq<YamlNode>, m: nat, inArray: bool)
    requires Good(nodes, inArray) && Closed(Leaves(nodes)) && m < |nodes|
    requires nodes[m].arrayFlag || nodes[m].children != []
    ensures Closed(Below(nodes[m])) && ElemClosed(Below(nodes[m]))
  {
    var below := Below(nodes[m]);
    forall i, s | 0 <= i < |below| && 0 <= s < |below[i].path| && below[i].path[s].index > 0
      ensures exists k :: 0 <= k < |below| && StepsBefore(below[k], below[i], s)
    {
      var k := SectionClosed(nodes, m, inArray, i, s + 1);
    }
    forall i | 0 <= i < |below| && below[i].index > 0
      ensures exists k :: 0 <= k < |below| && below[k].index == below[i].index - 1
    {
      var k := SectionClosed(nodes, m, inArray, i, 0);
    }
  }

  ghost predicate HasIndex(vl: seq<YamlNode>, index: int) {
    exists k :: 0 <= k < |vl| && vl[k].lastNodeIndex == index
  }

  ghost predicate IndexClosed(vl: seq<YamlNode>, from: int) {
    && (forall i :: 0 <= i < |vl| ==> vl[i].lastNodeIndex >= from)
    && (forall i :: 0 <= i < |vl| && vl[i].lastNodeIndex > from ==> HasIndex(vl, vl[i].lastNodeIndex - 1))
  }

  lemma {:induction false} LeafOfNode(nodes: seq<YamlNode>, m: nat)
    requires m < |nodes| && GoodNode(nodes[m])
    ensures exists w :: 0 <= w < |Leaves(nodes)| && Leaves(nodes)[w].index == nodes[m].lastNodeIndex
  {
    LeavesAt(nodes, m);
    NodeHasLeaf(nodes[m]);
    assert Leaves(nodes)[|Leaves(nodes[..m])|] == NodeLeaves(nodes[m])[0];
  }

  lemma {:induction false} ElemsIndexClosed(vl: seq<YamlNode>)
    requires Good(vl, true) && ElemClosed(Leaves(vl))
    ensures IndexClosed(vl, 0)
  {
    forall i | 0 <= i < |vl| && vl[i].lastNodeIndex > 0
      ensures HasIndex(vl, vl[i].lastNodeIndex - 1)
    {
      LeafOfNode(vl, i);
      var w :| 0 <= w < |Leaves(vl)| && Leaves(vl)[w].index == vl[i].lastNodeIndex;
      var v :| 0 <= v < |Leaves(vl)| && Leaves(vl)[v].index == Leaves(vl)[w].index - 1;
      var k := LeafOwner(vl, v);
    }
  }

  lemma {:induction false} StartsAt(vl: seq<YamlNode>, from: nat)
    requires InOrder(vl) && IndexClosed(vl, from)
    ensures vl != [] ==> vl[0].lastNodeIndex == from
  {
    hide InOrder;
    if vl != [] && vl[0].lastNodeIndex > from {
      var k :| 0 <= k < |vl| && vl[k].lastNodeIndex == vl[0].lastNodeIndex - 1;
      if k > 0 {
        InOrderAt(vl, 0, k);
      }
    }
  }

  lemma {:induction false} OrderedCounted(vl: seq<YamlNode>, from: nat)
    requires InOrder(vl) && IndexClosed(vl, from)
    ensures Counted(vl, from)
  {
    hide InOrder, IndexClosed, Follows;
    StartsAt(vl, from);
    forall i | 0 < i < |vl| ensures Follows(vl[i - 1].lastNodeIndex, vl[i].lastNodeIndex) {
      StepUp(vl, from, i);
    }
  }

  lemma {:induction false} StepUp(vl: seq<YamlNode>, from: nat, i: nat)
    requires InOrder(vl) && IndexClosed(vl, from) && 0 < i < |vl|
    ensures Follows(vl[i - 1].lastNodeIndex, vl[i].lastNodeIndex)
  {
    hide InOrder, IndexClosed;
    var a, b := vl[i - 1].lastNodeIndex, vl[i].lastNodeIndex;
    InOrderAt(vl, i - 1, i);
    if a < b {
      var k := IndexBefore(vl, from, i - 1, i);
      if k < i - 1 {
        InOrderAt(vl, k, i - 1);
      } else if k > i {
        InOrderAt(vl, i, k);
      }
    }
  }

  lemma {:induction false} InOrderAt(vl: seq<YamlNode>, i: nat, j: nat)
    requires InOrder(vl) && i < j < |vl|
    ensures vl[i].lastNodeIndex <= vl[j].lastNodeIndex
  {
  }

  lemma {:induction false} IndexBefore(vl: seq<YamlNode>, from: nat, h: nat, i: nat) returns (k: nat)
    requires IndexClosed(vl, from) && h < i < |vl| && vl[h].lastNodeIndex < vl[i].lastNodeIndex
    ensures k < |vl| && vl[k].lastNodeIndex == vl[i].lastNodeIndex - 1
  {
    assert vl[h].lastNodeIndex >= from;
    assert HasIndex(vl, vl[i].lastNodeIndex - 1);
    k :| 0 <= k < |vl| && vl[k].lastNodeIndex == vl[i].lastNodeIndex - 1;
  }

  lemma {:induction false} CountedRest(vl: seq<YamlNode>, from: nat, k: nat)
    requires Counted(vl, from) && 0 < k <= |vl| && vl[k - 1].lastNodeIndex == from
    requires k < |vl| ==> vl[k].lastNodeIndex != from
    ensures Counted(vl[k..], from + 1)
  {
    var rest := vl[k..];
    forall i | 0 < i < |rest| ensures Follows(rest[i - 1].lastNodeIndex, rest[i].lastNodeIndex) {
      assert rest[i] == vl[k + i] && rest[i - 1] == vl[k + i - 1];
    }
  }

  lemma {:induction false} ClosedDense(nodes: seq<YamlNode>, inArray: bool)
    requires Good(nodes, inArray) && Ordered(nodes) && Closed(Leaves(nodes))
    ensures DenseTree(nodes)
    decreases nodes, 1
  {
    forall m | 0 <= m < |nodes| ensures DenseNode(nodes[m]) {
      assert OrderedNode(nodes[m]);
      if nodes[m].arrayFlag || nodes[m].children != [] {
        BelowClosed(nodes, m, inArray);
      }
      ClosedDenseNode(nodes[m]);
    }
  }

  lemma {:induction false} ClosedDenseNode(n: YamlNode)
    requires GoodNode(n) && OrderedNode(n)
    requires n.arrayFlag || n.children != [] ==> Closed(Below(n)) && ElemClosed(Below(n))
    ensures DenseNode(n)
    decreases n, 0
  {
    if n.arrayFlag {
      if ScalarList(n.valueList) {
        assert DenseTree(n.valueList);
      } else {
        assert Good(n.valueList, true);
        assert Below(n) == Leaves(n.valueList);
        ElemsIndexClosed(n.valueList);
        OrderedCounted(n.valueList, 0);
        ClosedDense(n.valueList, true);
      }
    } else if n.children != [] {
      assert Good(n.children, false);
      ClosedDense(n.children, false);
    }
  }

  // ----- a dense tree and its data have the same leaves -----

  lemma {:induction false} FieldIndexes(fields: seq<Field>)
    ensures forall i :: 0 <= i < |FieldLeaves(fields)| ==> FieldLeaves(fields)[i].index == -1
  {
    if fields != [] {
      FieldIndexes(fields[1..]);
    }
  }

  lemma {:induction false} NodeData(n: YamlNode)
    requires GoodNode(n) && DenseNode(n)
    ensures NodeLeaves(n) == Reindex(n.lastNodeIndex, ValueLeaves(n.name, ToData(n)))
    decreases n, 0
  {
    if n.arrayFlag {
      if ScalarList(n.valueList) {
        ScalarElems(n.valueList, 0);
      } else {
        assert Good(n.valueList, true);
        GroupElems(n.valueList, 0);
      }
      assert ArrayLeaves(n.valueList) == ElemLeaves(ToElems(n.valueList), 0);
    } else if n.children != [] {
      assert Good(n.children, false);
      NodesData(n.children, -1);
      FieldIndexes(ToFields(n.children));
      assert Leaves(n.children) == FieldLeaves(ToFields(n.children));
    }
  }

  /** Nodes with one index are the fields of one mapping. */
  lemma {:induction false} NodesData(nodes: seq<YamlNode>, index: int)
    requires DenseTree(nodes) && forall i :: 0 <= i < |nodes| ==> GoodNode(nodes[i]) && nodes[i].lastNodeIndex == index
    ensures Leaves(nodes) == Reindex(index, FieldLeaves(ToFields(nodes)))
    decreases nodes, 1
  {
    if nodes == [] {
      assert ToFields(nodes) == [];
    } else {
      assert DenseNode(nodes[0]);
      NodeData(nodes[0]);
      NodesData(nodes[1..], index);
      FieldLeavesCons(nodes, index);
    }
  }

  lemma {:induction false} FieldLeavesCons(nodes: seq<YamlNode>, index: int)
    requires nodes != []
    ensures Reindex(index, FieldLeaves(ToFields(nodes)))
         == Reindex(index, ValueLeaves(nodes[0].name, ToData(nodes[0])))
             + Reindex(index, FieldLeaves(ToFields(nodes[1..])))
  {
    assert ToFields(nodes)[1..] == ToFields(nodes[1..]);
    assert ToFields(nodes)[0] == Field(nodes[0].name, ToData(nodes[0]));
  }

  lemma {:induction false} ElemLeavesCons(d: Data, rest: seq<Data>, from: nat)
    ensures ElemLeaves([d] + rest, from) == OneElem(d, from) + ElemLeaves(rest, from + 1)
  {
    assert ([d] + rest)[1..] == rest;
  }

  function Numbered(vl: seq<YamlNode>, from: nat): seq<Leaf> {
    seq(|vl|, i requires 0 <= i < |vl| => Leaf(from + i, [], vl[i].value))
  }

  lemma {:induction false} ScalarElems(vl: seq<YamlNode>, from: nat)
    requires ScalarList(vl)
    ensures ElemLeaves(ToElems(vl), from) == Numbered(vl, from)
    decreases |vl|
  {
    if vl != [] {
      assert vl[0] == ScalarNode(vl[0].value);
      ScalarElems(vl[1..], from + 1);
      ElemLeavesCons(Scalar(vl[0].value), ToElems(vl[1..]), from);
      assert Numbered(vl, from) == [Leaf(from, [], vl[0].value)] + Numbered(vl[1..], from + 1);
    }
  }

  lemma {:induction false} GroupElems(vl: seq<YamlNode>, from: nat)
    requires DenseTree(vl) && Counted(vl, from) && forall i :: 0 <= i < |vl| ==> GoodNode(vl[i])
    ensures ElemLeaves(ToElems(vl), from) == Leaves(vl)
    decreases vl, 2
  {
    if vl != [] {
      var k := GroupLen(vl, from);
      var g, rest := vl[..k], vl[k..];
      if k == |vl| { assert g == vl; }
      NodesData(g, from);
      CountedRest(vl, from, k);
      GroupElems(rest, from + 1);
      GroupElemsStep(vl, from, k);
    }
  }

  lemma {:induction false} GroupElemsStep(vl: seq<YamlNode>, from: nat, k: nat)
    requires vl != [] && vl[0].lastNodeIndex == from && k == GroupLen(vl, from)
    requires Leaves(vl[..k]) == Reindex(from, FieldLeaves(ToFields(vl[..k])))
    requires ElemLeaves(ToElems(vl[k..]), from + 1) == Leaves(vl[k..])
    ensures ElemLeaves(ToElems(vl), from) == Leaves(vl)
  {
    assert ToFields(vl)[..k] == ToFields(vl[..k]);
    LeavesConcat(vl[..k], vl[k..]);
    SplitSeq(vl, k);
    ElemLeavesCons(Map(ToFields(vl[..k])), ToElems(vl[k..]), from);
  }

  lemma {:induction false} SplitSeq<T>(s: seq<T>, k: nat)
    requires k <= |s|
    ensures s[..k] + s[k..] == s
  {
  }

  // ----- the data is of regular shape -----

  lemma {:induction false} NodesRegular(nodes: seq<YamlNode>)
    requires forall i :: 0 <= i < |nodes| ==> GoodNode(nodes[i])
    requires forall i, j :: 0 <= i < j < |nodes| ==> nodes[i].name != nodes[j].name
    ensures Regular(ToFields(nodes))
    decreases nodes, 1
  {
    forall i | 0 <= i < |nodes| ensures RegularData(ToData(nodes[i])) {
      NodeRegular(nodes[i]);
    }
  }

  lemma {:induction false} NodeRegular(n: YamlNode)
    requires GoodNode(n)
    ensures RegularData(ToData(n))
    decreases n, 0
  {
    if n.arrayFlag {
      ElemsRegular(n.valueList);
    } else if n.children != [] {
      assert Good(n.children, false);
      NodesRegular(n.children);
    }
  }

  lemma {:induction false} ElemsRegular(vl: seq<YamlNode>)
    requires ScalarList(vl) || Good(vl, true)
    ensures RegularElems(ToElems(vl)) && (vl != [] ==> ToElems(vl) != [])
    decreases vl, 2
  {
    if vl != [] {
      if vl[0].lastNodeIndex == -1 {
        ElemsRegular(vl[1..]);
      } else {
        var k := GroupLen(vl, vl[0].lastNodeIndex);
        ElemsRegular(vl[k..]);
        GroupRegular(vl, k);
      }
    }
  }

  lemma {:induction false} GroupRegular(vl: seq<YamlNode>, k: nat)
    requires vl != [] && Good(vl, true) && k == GroupLen(vl, vl[0].lastNodeIndex)
    ensures Regular(ToFields(vl)[..k])
    decreases vl, 1
  {
    var fields := ToFields(vl)[..k];
    forall i | 0 <= i < k ensures RegularData(fields[i].data) {
      NodeRegular(vl[i]);
    }
    assert forall i :: 0 <= i < k ==> fields[i].key == vl[i].name;
  }

  // ----- entries -----

  /** No array index is used unless the one before it is. */
  ghost predicate NoGaps(es: seq<Entry>) {
    Closed(AsLeaves(es))
  }

  /** Building, resorting and reading back keeps exactly the entries. */
  lemma {:induction false} SortedDataLeaves(o: Order, es: seq<Entry>)
    requires Sorts(o) && Consistent(es) && NoGaps(es)
    ensures ReadableAll(DeepSortAll(o, Build(es))) && Regular(ToFields(DeepSortAll(o, Build(es))))
    ensures Perm(FieldLeaves(ToFields(DeepSortAll(o, Build(es)))), AsLeaves(es))
  {
    var nodes := Build(es);
    var t := DeepSortAll(o, nodes);
    BuildLeaves(es);
    DeepSortNodes(o, nodes, false);
    PermTrans(Leaves(t), Leaves(nodes), AsLeaves(es));
    PermClosed(AsLeaves(es), Leaves(t));
    ClosedDense(t, false);
    GoodAllReadable(t, false);
    NodesRegular(t);
    NodesData(t, -1);
    FieldIndexes(ToFields(t));
    assert Leaves(t) == FieldLeaves(ToFields(t));
  }
}
