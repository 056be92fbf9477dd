/** The tree that the flattened lines of data build, in the order of the lines:
    exactly the data's own shape. */
module DataTree {
  import opened Sorting
  import opened Tree
  import opened Data
  import opened Alike
  import opened Yaml
  import opened Printer
  import opened YamlText
  import opened Codec

  function TreeFields(fields: seq<Field>, index: int): seq<YamlNode>
    decreases fields, 0
  {
    seq(|fields|, i requires 0 <= i < |fields| => TreeNode(fields[i].key, fields[i].data, index))
  }

  function TreeNode(key: string, d: Data, index: int): (n: YamlNode)
    ensures n.name == key && n.lastNodeIndex == index
    decreases d, 1
  {
    match d
    case Map(fields) => YamlNode(key, "", TreeFields(fields, -1), false, index, [])
    case List(elems) => YamlNode(key, "", [], true, index, TreeElems(elems, 0))
    case _ => YamlNode(key, TextOf(d), [], false, index, [])
  }

  function TreeElems(elems: seq<Data>, from: nat): seq<YamlNode>
    decreases elems, 0
  {
    if elems == [] then [] else TreeElem(elems[0], from) + TreeElems(elems[1..], from + 1)
  }

  function TreeElem(d: Data, i: nat): seq<YamlNode>
    decreases d, 0
  {
    if d.Map? then TreeFields(d.fields, i) else [ScalarNode(TextOf(d))]
  }

  // ----- inserting leaves one after the other -----

  function InsertAll(ls: seq<Leaf>, nodes: seq<YamlNode>, flag: bool): seq<YamlNode> {
    if ls == [] then nodes
    else
      var l := ls[|ls| - 1];
      Insert(l.path, InsertAll(ls[..|ls| - 1], nodes, flag), flag, l.index, l.value)
  }

  lemma {:induction false} InsertAllConcat(a: seq<Leaf>, b: seq<Leaf>, nodes: seq<YamlNode>, flag: bool)
    ensures InsertAll(a + b, nodes, flag) == InsertAll(b, InsertAll(a, nodes, flag), flag)
    decreases |b|
  {
    if b == [] {
      assert a + b == a;
    } else {
      var n := |b| - 1;
      InsertAllConcat(a, b[..n], nodes, flag);
      assert (a + b)[..|a + b| - 1] == a + b[..n];
      assert (a + b)[|a + b| - 1] == b[n];
    }
  }

  lemma {:induction false} InsertAllLast(ls: seq<Leaf>, l: Leaf, nodes: seq<YamlNode>, flag: bool)
    ensures InsertAll(ls + [l], nodes, flag) == Insert(l.path, InsertAll(ls, nodes, flag), flag, l.index, l.value)
  {
    assert (ls + [l])[..|ls|] == ls;
  }

  /** No node there takes a word of this name and index. */
  predicate Free(nodes: seq<YamlNode>, key: string, flag: bool, index: int) {
    forall i :: 0 <= i < |nodes| ==>
      nodes[i].name != key || (flag && nodes[i].lastNodeIndex != -1 && nodes[i].lastNodeIndex != index)
  }

  lemma {:induction false} InsertFresh(done: seq<YamlNode>, seg: Seg, rest: Path, flag: bool, index: int, value: string)
    requires Free(done, seg.name, flag, index)
    ensures Insert([seg] + rest, done, flag, index, value) == done + [Fresh(seg, rest, index, value)]
  {
    assert ([seg] + rest)[1..] == rest;
  }

  lemma {:induction false} InsertGrow(done: seq<YamlNode>, n: YamlNode, seg: Seg, rest: Path, flag: bool, index: int,
      value: string)
    requires Free(done, seg.name, flag, index)
    requires n.name == seg.name && n.lastNodeIndex == index && (seg.index != -1 ==> n.arrayFlag)
    ensures Insert([seg] + rest, done + [n], flag, index, value) == done + [Grow(n, seg, rest, flag, value)]
  {
    var nodes := done + [n];
    assert ([seg] + rest)[1..] == rest;
    assert forall i :: 0 <= i < |done| ==> !Same(done[i], seg, flag, index);
    assert Same(nodes[|done|], seg, flag, index);
    UpdateOne(seg, rest, nodes, flag, index, value, |done|);
    assert nodes[..|done|] == done && nodes[|done| + 1..] == [];
  }

  function PlainNode(key: string, children: seq<YamlNode>, index: int): YamlNode {
    YamlNode(key, "", children, false, index, [])
  }

  function ArrayNode(key: string, vl: seq<YamlNode>, index: int): YamlNode {
    YamlNode(key, "", [], true, index, vl)
  }

  lemma {:induction false} UnderLast(index: int, key: string, ls: seq<Leaf>)
    requires ls != []
    ensures var n := |ls| - 1;
            UnderAll(index, key, ls) == UnderAll(index, key, ls[..n]) + [Under(index, key, ls[n])]
  {
  }

  /** Leaves below one plain key go into one node. */
  lemma {:induction false} PushPlain(key: string, ls: seq<Leaf>, index: int, done: seq<YamlNode>, flag: bool)
    requires ls != [] && Free(done, key, flag, index)
    requires forall i :: 0 <= i < |ls| ==> ls[i].path != [] && ls[i].index == -1
    ensures InsertAll(UnderAll(index, key, ls), done, flag) == done + [PlainNode(key, InsertAll(ls, [], flag), index)]
    decreases |ls|
  {
    var init, l := ls[..|ls| - 1], ls[|ls| - 1];
    UnderLast(index, key, ls);
    InsertAllLast(UnderAll(index, key, init), Under(index, key, l), done, flag);
    InsertAllLast(init, l, [], flag);
    assert ls == init + [l];
    if init == [] {
      InsertFresh(done, Seg(key, -1), l.path, flag, index, l.value);
      InsertFlag(l.path, flag, l.value);
    } else {
      PushPlain(key, init, index, done, flag);
      InsertGrow(done, PlainNode(key, InsertAll(init, [], flag), index), Seg(key, -1), l.path, flag, index, l.value);
    }
  }

  lemma {:induction false} InsertFlag(p: Path, flag: bool, value: string)
    requires p != []
    ensures Insert(p, [], false, -1, value) == Insert(p, [], flag, -1, value)
  {
  }

  /** Leaves below the elements of one array go into one node. */
  lemma {:induction false} PushArray(key: string, ls: seq<Leaf>, index: int, done: seq<YamlNode>, flag: bool)
    requires ls != [] && Free(done, key, flag, index)
    requires forall i :: 0 <= i < |ls| ==> ls[i].index >= 0
    ensures InsertAll(UnderAll(index, key, ls), done, flag) == done + [ArrayNode(key, InsertAll(ls, [], true), index)]
    decreases |ls|
  {
    var init, l := ls[..|ls| - 1], ls[|ls| - 1];
    UnderLast(index, key, ls);
    InsertAllLast(UnderAll(index, key, init), Under(index, key, l), done, flag);
    InsertAllLast(init, l, [], true);
    assert ls == init + [l];
    if init == [] {
      InsertFresh(done, Seg(key, l.index), l.path, flag, index, l.value);
    } else {
      PushArray(key, init, index, done, flag);
      InsertGrow(done, ArrayNode(key, InsertAll(init, [], true), index), Seg(key, l.index), l.path, flag, index,
          l.value);
    }
  }

  // ----- the leaves of data build the tree of the data -----

  lemma {:induction false} ReindexUnder(index: int, key: string, ls: seq<Leaf>)
    ensures Reindex(index, UnderAll(-1, key, ls)) == UnderAll(index, key, ls)
  {
  }

  lemma {:induction false} ReindexConcat(index: int, a: seq<Leaf>, b: seq<Leaf>)
    ensures Reindex(index, a + b) == Reindex(index, a) + Reindex(index, b)
  {
  }

  lemma {:induction false} GoodSplit(fields: seq<Field>)
    requires fields != [] && GoodFields(fields)
    ensures GoodFields(fields[1..]) && GoodKey(fields[0].key) && GoodData(fields[0].data)
  {
  }

  lemma {:induction false} FieldsBuild(fields: seq<Field>, index: int, done: seq<YamlNode>, flag: bool)
    requires GoodFields(fields) && forall i :: 0 <= i < |fields| ==> Free(done, fields[i].key, flag, index)
    ensures InsertAll(Reindex(index, FieldLeaves(fields)), done, flag) == done + TreeFields(fields, index)
    decreases fields, 0
  {
    if fields == [] {
      assert TreeFields(fields, index) == [];
    } else {
      var f, rest := fields[0], fields[1..];
      var n := TreeNode(f.key, f.data, index);
      GoodSplit(fields);
      FieldBuild(f.key, f.data, index, done, flag);
      forall i | 0 <= i < |rest| ensures Free(done + [n], rest[i].key, flag, index) {
        FreeMore(done, n, rest[i].key, flag, index);
      }
      FieldsBuild(rest, index, done + [n], flag);
      FieldsBuildStep(fields, index, done, flag);
    }
  }

  lemma {:induction false} FieldsBuildStep(fields: seq<Field>, index: int, done: seq<YamlNode>, flag: bool)
    requires fields != []
    requires var n := TreeNode(fields[0].key, fields[0].data, index);
             && InsertAll(Reindex(index, ValueLeaves(fields[0].key, fields[0].data)), done, flag) == done + [n]
             && InsertAll(Reindex(index, FieldLeaves(fields[1..])), done + [n], flag) == (done + [n])
                 + TreeFields(fields[1..], index)
    ensures InsertAll(Reindex(index, FieldLeaves(fields)), done, flag) == done + TreeFields(fields, index)
  {
    hide InsertAll, ValueLeaves, TreeNode;
    var a, b := ValueLeaves(fields[0].key, fields[0].data), FieldLeaves(fields[1..]);
    ReindexConcat(index, a, b);
    InsertAllConcat(Reindex(index, a), Reindex(index, b), done, flag);
    TreeFieldsFirst(fields, index);
    assert FieldLeaves(fields) == a + b;
  }

  lemma {:induction false} TreeFieldsFirst(fields: seq<Field>, index: int)
    requires fields != []
    ensures TreeFields(fields, index) == [TreeNode(fields[0].key, fields[0].data, index)]
        + TreeFields(fields[1..], index)
  {
  }

  lemma {:induction false} FreeMore(done: seq<YamlNode>, n: YamlNode, key: string, flag: bool, index: int)
    requires Free(done, key, flag, index) && n.name != key
    ensures Free(done + [n], key, flag, index)
  {
  }

  lemma {:induction false} FieldBuild(key: string, d: Data, index: int, done: seq<YamlNode>, flag: bool)
    requires GoodData(d) && Free(done, key, flag, index)
    ensures InsertAll(Reindex(index, ValueLeaves(key, d)), done, flag) == done + [TreeNode(key, d, index)]
    decreases d, 1
  {
    match d
    case Map(fields) =>
      MapBuild(key, fields, index, done, flag);
    case List(elems) =>
      ListBuild(key, elems, index, done, flag);
    case _ =>
      TextBuild(key, d, index, done, flag);
  }

  lemma {:induction false} TextBuild(key: string, d: Data, index: int, done: seq<YamlNode>, flag: bool)
    requires IsText(d) && GoodData(d) && Free(done, key, flag, index)
    ensures InsertAll(Reindex(index, ValueLeaves(key, d)), done, flag) == done + [TreeNode(key, d, index)]
  {
    hide Free;
    var l := Leaf(index, [Seg(key, -1)], TextOf(d));
    assert Reindex(index, ValueLeaves(key, d)) == [] + [l];
    InsertAllLast([], l, done, flag);
    InsertFresh(done, Seg(key, -1), [], flag, index, TextOf(d));
    assert [Seg(key, -1)] + [] == [Seg(key, -1)];
  }

  lemma {:induction false} MapBuild(key: string, fields: seq<Field>, index: int, done: seq<YamlNode>, flag: bool)
    requires fields != [] && GoodFields(fields) && Free(done, key, flag, index)
    ensures InsertAll(Reindex(index, UnderAll(-1, key, FieldLeaves(fields))), done, flag)
            == done + [PlainNode(key, TreeFields(fields, -1), index)]
    decreases fields, 1
  {
    ManyLeaves(fields);
    FieldPaths(fields);
    GoodRegular(fields);
    ReindexUnder(index, key, FieldLeaves(fields));
    PushPlain(key, FieldLeaves(fields), index, done, flag);
    ReindexUndone(0, fields);
    FieldsBuild(fields, -1, [], flag);
    assert [] + TreeFields(fields, -1) == TreeFields(fields, -1);
  }

  lemma {:induction false} ListBuild(key: string, elems: seq<Data>, index: int, done: seq<YamlNode>, flag: bool)
    requires elems != [] && GoodElems(elems) && Free(done, key, flag, index)
    ensures InsertAll(Reindex(index, UnderAll(-1, key, ElemLeaves(elems, 0))), done, flag)
            == done + [ArrayNode(key, TreeElems(elems, 0), index)]
    decreases elems, 1
  {
    GoodRegularData(elems[0]);
    ElemHasLeaf(elems[0], 0);
    forall i | 0 <= i < |ElemLeaves(elems, 0)| ensures ElemLeaves(elems, 0)[i].index >= 0 {
      ElemIndex(elems, 0, i);
    }
    ReindexUnder(index, key, ElemLeaves(elems, 0));
    PushArray(key, ElemLeaves(elems, 0), index, done, flag);
    ElemsBuild(elems, 0, []);
    assert [] + TreeElems(elems, 0) == TreeElems(elems, 0);
  }

  /** What the elements before `from` may have left in a list. */
  predicate Earlier(done: seq<YamlNode>, from: nat) {
    forall i :: 0 <= i < |done| ==> done[i].name == "" || 0 <= done[i].lastNodeIndex < from
  }

  lemma {:induction false} ElemsBuild(elems: seq<Data>, from: nat, done: seq<YamlNode>)
    requires GoodElems(elems) && Earlier(done, from)
    ensures InsertAll(ElemLeaves(elems, from), done, true) == done + TreeElems(elems, from)
    decreases elems, 0
  {
    if elems != [] {
      ElemBuild(elems[0], from, done);
      EarlierMore(done, elems[0], from);
      assert GoodElems(elems[1..]);
      ElemsBuild(elems[1..], from + 1, done + TreeElem(elems[0], from));
      ElemsBuildStep(elems, from, done);
    }
  }

  lemma {:induction false} ElemsBuildStep(elems: seq<Data>, from: nat, done: seq<YamlNode>)
    requires elems != []
    requires InsertAll(OneElem(elems[0], from), done, true) == done + TreeElem(elems[0], from)
    requires InsertAll(ElemLeaves(elems[1..], from + 1), done + TreeElem(elems[0], from), true)
             == (done + TreeElem(elems[0], from)) + TreeElems(elems[1..], from + 1)
    ensures InsertAll(ElemLeaves(elems, from), done, true) == done + TreeElems(elems, from)
  {
    hide InsertAll, OneElem, TreeElem;
    InsertAllConcat(OneElem(elems[0], from), ElemLeaves(elems[1..], from + 1), done, true);
  }

  lemma {:induction false} EarlierMore(done: seq<YamlNode>, d: Data, from: nat)
    requires Earlier(done, from)
    ensures Earlier(done + TreeElem(d, from), from + 1)
  {
  }

  lemma {:induction false} ElemBuild(d: Data, i: nat, done: seq<YamlNode>)
    requires GoodData(d) && !d.List? && Earlier(done, i)
    ensures InsertAll(OneElem(d, i), done, true) == done + TreeElem(d, i)
    decreases d, 1
  {
    if d.Map? {
      GoodRegular(d.fields);
      FieldsBuild(d.fields, i, done, true);
    } else {
      assert OneElem(d, i) == [] + [Leaf(i, [], TextOf(d))];
      InsertAllLast([], Leaf(i, [], TextOf(d)), done, true);
    }
  }

  lemma {:induction false} BuildInOrder(ls: seq<Leaf>)
    requires forall i :: 0 <= i < |ls| ==> ls[i].index == -1
    ensures Build(EntriesOf(ls)) == InsertAll(ls, [], false)
  {
    if ls != [] {
      var n := |ls| - 1;
      BuildInOrder(ls[..n]);
      assert EntriesOf(ls)[..n] == EntriesOf(ls[..n]);
    }
  }

  /** The tree built from the flattened lines is the tree of the data. */
  lemma {:induction false} DataBuilds(fields: seq<Field>)
    requires GoodFields(fields)
    ensures Build(EntriesOf(FieldLeaves(fields))) == TreeFields(fields, -1)
  {
    GoodRegular(fields);
    FieldPaths(fields);
    BuildInOrder(FieldLeaves(fields));
    ReindexUndone(0, fields);
    FieldsBuild(fields, -1, [], false);
    assert [] + TreeFields(fields, -1) == TreeFields(fields, -1);
  }

  // ----- no sort moves anything in it -----

  lemma {:induction false} FieldsSteady(fields: seq<Field>, index: int)
    ensures Steady(TreeFields(fields, index))
    decreases fields, 0
  {
    forall i | 0 <= i < |fields| ensures SteadyNode(TreeNode(fields[i].key, fields[i].data, index)) {
      DataSteady(fields[i].key, fields[i].data, index);
    }
  }

  lemma {:induction false} DataSteady(key: string, d: Data, index: int)
    ensures SteadyNode(TreeNode(key, d, index))
    decreases d, 1
  {
    match d
    case Map(fields) =>
      FieldsSteady(fields, -1);
    case List(elems) =>
      ElemsSteady(elems, 0);
    case _ =>
  }

  lemma {:induction false} ElemsSteady(elems: seq<Data>, from: nat)
    ensures Steady(TreeElems(elems, from)) && NoInversion(Indexes(TreeElems(elems, from)))
    ensures forall i :: 0 <= i < |TreeElems(elems, from)| ==>
              TreeElems(elems, from)[i].lastNodeIndex == -1 || TreeElems(elems, from)[i].lastNodeIndex >= from
    decreases elems, 0
  {
    if elems != [] {
      ElemSteady(elems[0], from);
      ElemsSteady(elems[1..], from + 1);
      Rises(TreeElem(elems[0], from), TreeElems(elems[1..], from + 1), from);
    }
  }

  lemma {:induction false} ElemSteady(d: Data, i: nat)
    ensures Steady(TreeElem(d, i))
    ensures forall k :: 0 <= k < |TreeElem(d, i)| ==> TreeElem(d, i)[k].lastNodeIndex == if d.Map? then i else -1
    decreases d, 0
  {
    if d.Map? {
      FieldsSteady(d.fields, i);
    }
  }

  lemma {:induction false} Rises(a: seq<YamlNode>, b: seq<YamlNode>, from: nat)
    requires forall i :: 0 <= i < |a| ==> a[i].lastNodeIndex == -1 || a[i].lastNodeIndex == from
    requires forall i :: 0 <= i < |b| ==> b[i].lastNodeIndex == -1 || b[i].lastNodeIndex > from
    requires NoInversion(Indexes(b))
    ensures NoInversion(Indexes(a + b))
  {
    forall i, j | 0 <= i < j < |a + b| ensures !KeyLess(Indexes(a + b)[j], Indexes(a + b)[i]) {
      if i >= |a| {
        assert !KeyLess(Indexes(b)[j - |a|], Indexes(b)[i - |a|]);
      }
    }
  }

  // ----- it can be read, and stands for the data -----

  /** All keys and texts can be read back from YAML. */
  predicate YamlFields(fields: seq<Field>)
    decreases fields, 0
  {
    forall i :: 0 <= i < |fields| ==> YamlKey(fields[i].key) && YamlData(fields[i].data)
  }

  predicate YamlData(d: Data)
    decreases d, 0
  {
    match d
    case Null => true
    case Scalar(text) => YamlValue(text)
    case Map(fields) => YamlFields(fields)
    case List(elems) => forall i :: 0 <= i < |elems| ==> YamlData(elems[i])
  }

  lemma {:induction false} FieldsReadable(fields: seq<Field>, index: int)
    requires GoodFields(fields) && YamlFields(fields)
    ensures ReadableAll(TreeFields(fields, index)) && CleanAll(TreeFields(fields, index))
    decreases fields, 0
  {
    forall i | 0 <= i < |fields|
      ensures ReadableNode(TreeNode(fields[i].key, fields[i].data, index))
          && CleanNode(TreeNode(fields[i].key, fields[i].data, index))
    {
      DataReadable(fields[i].key, fields[i].data, index);
    }
  }

  lemma {:induction false} DataReadable(key: string, d: Data, index: int)
    requires YamlKey(key) && GoodData(d) && YamlData(d)
    ensures ReadableNode(TreeNode(key, d, index)) && CleanNode(TreeNode(key, d, index))
    decreases d, 1
  {
    match d
    case Map(fields) =>
      FieldsReadable(fields, -1);
    case List(elems) =>
      ElemsReadable(elems, 0);
      assert GoodData(elems[0]);
      assert TreeElem(elems[0], 0) != [];
    case _ =>
  }

  lemma {:induction false} ElemsReadable(elems: seq<Data>, from: nat)
    requires GoodElems(elems) && forall i :: 0 <= i < |elems| ==> YamlData(elems[i])
    ensures ReadableList(TreeElems(elems, from)) && CleanAll(TreeElems(elems, from))
    decreases elems, 0
  {
    if elems != [] {
      ElemReadable(elems[0], from);
      ElemsReadable(elems[1..], from + 1);
    }
  }

  lemma {:induction false} ElemReadable(d: Data, i: nat)
    requires GoodData(d) && !d.List? && YamlData(d)
    ensures ReadableList(TreeElem(d, i)) && CleanAll(TreeElem(d, i))
    decreases d, 0
  {
    if d.Map? {
      FieldsReadable(d.fields, i);
      ReadableElement(TreeFields(d.fields, i), i);
    } else {
      assert TreeElem(d, i)[0] == ScalarNode(TextOf(d));
    }
  }

  lemma {:induction false} ReadableElement(nodes: seq<YamlNode>, i: nat)
    requires ReadableAll(nodes) && forall k :: 0 <= k < |nodes| ==> nodes[k].lastNodeIndex == i
    ensures ReadableList(nodes)
  {
  }

  /** The data with every null read as the empty text. */
  function Texted(fields: seq<Field>): seq<Field>
    decreases fields, 0
  {
    seq(|fields|, i requires 0 <= i < |fields| => Field(fields[i].key, TextedData(fields[i].data)))
  }

  function TextedData(d: Data): Data
    decreases d, 0
  {
    match d
    case Map(fields) => Map(Texted(fields))
    case List(elems) => List(TextedElems(elems))
    case _ => Scalar(TextOf(d))
  }

  function TextedElems(elems: seq<Data>): seq<Data>
    decreases elems, 0
  {
    if elems == [] then [] else [TextedData(elems[0])] + TextedElems(elems[1..])
  }

  lemma {:induction false} TreeData(fields: seq<Field>, index: int)
    requires GoodFields(fields)
    ensures ToFields(TreeFields(fields, index)) == Texted(fields)
    decreases fields, 0
  {
    forall i | 0 <= i < |fields|
      ensures ToData(TreeNode(fields[i].key, fields[i].data, index)) == TextedData(fields[i].data)
    {
      NodeStandsFor(fields[i].key, fields[i].data, index);
    }
  }

  lemma {:induction false} NodeStandsFor(key: string, d: Data, index: int)
    requires GoodData(d)
    ensures ToData(TreeNode(key, d, index)) == TextedData(d)
    decreases d, 1
  {
    match d
    case Map(fields) =>
      TreeData(fields, -1);
    case List(elems) =>
      ElemsStandFor(elems, 0);
    case _ =>
  }

  lemma {:induction false} ElemsStandFor(elems: seq<Data>, from: nat)
    requires GoodElems(elems)
    ensures ToElems(TreeElems(elems, from)) == TextedElems(elems)
    decreases elems, 0
  {
    if elems != [] {
      var rest := TreeElems(elems[1..], from + 1);
      ElemsStandFor(elems[1..], from + 1);
      if elems[0].Map? {
        TreeData(elems[0].fields, from);
        ElemsSteady(elems[1..], from + 1);
        GroupStandsFor(TreeFields(elems[0].fields, from), rest, from);
      } else {
        assert ([ScalarNode(TextOf(elems[0]))] + rest)[1..] == rest;
      }
    }
  }

  lemma {:induction false} GroupStandsFor(g: seq<YamlNode>, rest: seq<YamlNode>, i: nat)
    requires g != [] && forall k :: 0 <= k < |g| ==> g[k].lastNodeIndex == i
    requires rest != [] ==> rest[0].lastNodeIndex != i
    ensures ToElems(g + rest) == [Map(ToFields(g))] + ToElems(rest)
  {
    var vl := g + rest;
    GroupLenOf(g, rest, i);
    assert vl[0] == g[0] && vl[|g|..] == rest;
    assert ToFields(vl)[..|g|] == ToFields(g);
  }

  lemma {:induction false} GroupLenOf(g: seq<YamlNode>, rest: seq<YamlNode>, i: nat)
    requires forall k :: 0 <= k < |g| ==> g[k].lastNodeIndex == i
    requires rest != [] ==> rest[0].lastNodeIndex != i
    ensures GroupLen(g + rest, i) == |g|
    decreases |g|
  {
    if g == [] {
      assert g + rest == rest;
    } else {
      assert (g + rest)[1..] == g[1..] + rest;
      GroupLenOf(g[1..], rest, i);
    }
  }
}
