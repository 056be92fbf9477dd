/** A key that occurs twice in a properties file (wordToNode in
    service/cfg/codec.go). */
module Repeats {
  import opened Tree

  ghost predicate NoIndex(p: Path) {
    forall i :: 0 <= i < |p| ==> p[i].index == -1
  }

  /** The word continues the node of the leaf that is there already. */
  lemma {:induction false} ExistingNode(segs: Path, nodes: seq<YamlNode>, w: nat) returns (m: nat)
    requires segs != [] && NoIndex(segs) && Good(nodes, false) && w < |Leaves(nodes)| && Leaves(nodes)[w].path == segs
    ensures m < |nodes| && nodes[m].name == segs[0].name && nodes[m].lastNodeIndex == -1 && !nodes[m].arrayFlag
    ensures segs[1..] != [] ==>
              exists i :: 0 <= i < |Leaves(nodes[m].children)| && Leaves(nodes[m].children)[i].path == segs[1..]
  {
    GoodParts(nodes, false);
    m := LeafOwner(nodes, w);
    LeafPlace(nodes, m, w);
    LeavesAt(nodes, m);
    var n, i := nodes[m], w - |Leaves(nodes[..m])|;
    assert NodeLeaves(n)[i].path == segs;
    if n.arrayFlag || n.children != [] {
      NodeOverBelow(n);
      UnderAllAt(n.lastNodeIndex, n.name, Below(n));
      assert segs == [Seg(n.name, Below(n)[i].index)] + Below(n)[i].path;
      if n.arrayFlag {
        ElementIndexed(n.valueList, i);
      }
      assert segs[1..] == Below(n)[i].path;
    }
  }

  /** The leaves of an array's elements carry their index. */
  lemma {:induction false} ElementIndexed(vl: seq<YamlNode>, i: nat)
    requires GoodList(vl) && i < |ArrayLeaves(vl)|
    ensures ArrayLeaves(vl)[i].index >= 0
  {
    if !ScalarList(vl) {
      assert Good(vl, true);
      GoodParts(vl, true);
      var k := LeafOwner(vl, i);
    }
  }

  /** Putting a key without an array in it a second time changes nothing. */
  lemma {:induction false} InsertExisting(segs: Path, nodes: seq<YamlNode>, value: string, w: nat)
    requires segs != [] && NoIndex(segs) && Good(nodes, false) && w < |Leaves(nodes)| && Leaves(nodes)[w].path == segs
    ensures Insert(segs, nodes, false, -1, value) == nodes
    decreases |segs|
  {
    hide Leaves, Good, Update, Insert, Grow;
    var m := ExistingNode(segs, nodes, w);
    var n, rest := nodes[m], segs[1..];
    if rest != [] {
      GoodBelow(nodes, m);
      assert forall i :: 0 <= i < |rest| ==> rest[i] == segs[i + 1];
      var i :| 0 <= i < |Leaves(n.children)| && Leaves(n.children)[i].path == rest;
      InsertExisting(rest, n.children, value, i);
    }
    InsertAt(segs, nodes, value, m);
    GrowNothing(n, segs, value);
    assert nodes == nodes[..m] + [n] + nodes[m + 1..];
  }

  lemma {:induction false} GoodBelow(nodes: seq<YamlNode>, m: nat)
    requires Good(nodes, false) && m < |nodes| && !nodes[m].arrayFlag
    ensures Good(nodes[m].children, false)
  {
    assert GoodNode(nodes[m]);
  }

  lemma {:induction false} InsertAt(segs: Path, nodes: seq<YamlNode>, value: string, m: nat)
    requires segs != [] && segs[0].index == -1 && Good(nodes, false)
    requires m < |nodes| && nodes[m].name == segs[0].name && nodes[m].lastNodeIndex == -1 && !nodes[m].arrayFlag
    ensures Insert(segs, nodes, false, -1, value)
         == nodes[..m] + [Grow(nodes[m], segs[0], segs[1..], false, value)] + nodes[m + 1..]
  {
    hide Update, Grow;
    OneSame(nodes, segs[0], false, -1, m);
    assert Selected(nodes, segs[0], false, -1);
    UpdateOne(segs[0], segs[1..], nodes, false, -1, value, m);
  }

  lemma {:induction false} GrowNothing(n: YamlNode, segs: Path, value: string)
    requires segs != [] && segs[0].index == -1
    requires segs[1..] != [] ==> Insert(segs[1..], n.children, false, -1, value) == n.children
    ensures Grow(n, segs[0], segs[1..], false, value) == n
  {
  }

  /** Of a key that occurs twice in a consistent file and goes through no array, the
      first value stays. */
  lemma {:induction false} FirstValueStays(es: seq<Entry>, i: nat, value: string)
    requires Consistent(es) && i < |es| && NoIndex(es[i].path)
    ensures Build(es + [Entry(es[i].path, value)]) == Build(es)
  {
    BuildLeaves(es);
    var l := AsLeaves(es)[i];
    assert l in multiset(AsLeaves(es));
    var w :| 0 <= w < |Leaves(Build(es))| && Leaves(Build(es))[w] == l;
    InsertExisting(es[i].path, Build(es), value, w);
    assert (es + [Entry(es[i].path, value)])[..|es|] == es;
  }

  /** An array element that occurs twice becomes two elements. */
  lemma {:induction false} ElementTwice(name: string, first: string, second: string)
    ensures Build([Entry([Seg(name, 0)], first), Entry([Seg(name, 0)], second)])
            == [YamlNode(name, "", [], true, -1, [ScalarNode(first), ScalarNode(second)])]
  {
    var e, f := Entry([Seg(name, 0)], first), Entry([Seg(name, 0)], second);
    var one := YamlNode(name, "", [], true, -1, [ScalarNode(first)]);
    assert e.path[1..] == [] && [e, f][..1] == [e] && [e][..0] == [];
    assert Build([e]) == Insert(e.path, [], false, -1, first);
    assert !Selected([], Seg(name, 0), false, -1);
    assert Insert([], [], true, 0, first) == [ScalarNode(first)];
    assert Build([e]) == [one];
    assert Same([one][0], Seg(name, 0), false, -1);
    assert Selected([one], Seg(name, 0), false, -1);
    UpdateOne(Seg(name, 0), [], [one], false, -1, second, 0);
    assert Insert([], one.valueList, true, 0, second) == one.valueList + [ScalarNode(second)];
    var two := YamlNode(name, "", [], true, -1, [ScalarNode(first), ScalarNode(second)]);
    assert Grow(one, Seg(name, 0), [], false, second) == two;
    assert Build([e, f]) == Insert(f.path, [one], false, -1, second) == [one][..0] + [two] + [one][1..] == [two];
  }
}
