/** What holds of every properties file, also of one whose keys do not make one
    tree: a key with a value of its own and keys below it, or an array and a field of
    one name (wordToNode and formatPropertiesToYaml in service/cfg/codec.go). */
module Mixed {
  import opened Results
  import opened Sorting
  import opened Tree
  import opened Yaml
  import opened Resort
  import opened Printer

  // ----- inserting -----

  /** The nodes are all still there, in their places, each with its name, value, kind
      and index and with what was below it. */
  ghost predicate Extends(a: seq<YamlNode>, b: seq<YamlNode>)
    decreases a, 0
  {
    |a| <= |b| && forall i :: 0 <= i < |a| ==> ExtendsNode(a[i], b[i])
  }

  ghost predicate ExtendsNode(n: YamlNode, m: YamlNode)
    decreases n, 0
  {
    && m == n.(children := m.children, valueList := m.valueList)
    && Extends(n.children, m.children) && Extends(n.valueList, m.valueList)
  }

  lemma {:induction false} ExtendsSelf(a: seq<YamlNode>)
    ensures Extends(a, a)
    decreases a, 0
  {
    forall i | 0 <= i < |a| ensures ExtendsNode(a[i], a[i]) {
      ExtendsSelf(a[i].children);
      ExtendsSelf(a[i].valueList);
    }
  }

  /** No key takes anything away from what other keys have put there. */
  lemma {:induction false} InsertExtends(segs: Path, nodes: seq<YamlNode>, flag: bool, index: int, value: string)
    ensures Extends(nodes, Insert(segs, nodes, flag, index, value))
    decreases |segs|, 0
  {
    hide Selected, Fresh;
    ExtendsSelf(nodes);
    if segs != [] && Selected(nodes, segs[0], flag, index) {
      UpdateExtends(segs[0], segs[1..], nodes, flag, index, value);
    }
  }

  lemma {:induction false} UpdateExtends(seg: Seg, rest: Path, nodes: seq<YamlNode>, flag: bool, index: int,
      value: string)
    ensures Extends(nodes, Update(seg, rest, nodes, flag, index, value))
    decreases |rest|, |nodes| + 1
  {
    hide Same, Grow;
    ExtendsSelf(nodes);
    if nodes != [] {
      if Same(nodes[0], seg, flag, index) {
        GrowExtends(nodes[0], seg, rest, flag, value);
        UpdateExtends(seg, [], nodes[1..], flag, index, value);
      } else {
        UpdateExtends(seg, rest, nodes[1..], flag, index, value);
      }
    }
  }

  lemma {:induction false} GrowExtends(n: YamlNode, seg: Seg, rest: Path, flag: bool, value: string)
    ensures ExtendsNode(n, Grow(n, seg, rest, flag, value))
    decreases |rest|, 1
  {
    ExtendsSelf(n.children);
    ExtendsSelf(n.valueList);
    if seg.index != -1 {
      InsertExtends(rest, n.valueList, true, seg.index, value);
    } else {
      InsertExtends(rest, n.children, flag, -1, value);
    }
  }

  lemma {:induction false} ExtendsOn(a: seq<YamlNode>, b: seq<YamlNode>, c: seq<YamlNode>)
    requires Extends(a, b) && Extends(b, c)
    ensures Extends(a, c)
    decreases a, 0
  {
    forall i | 0 <= i < |a| ensures ExtendsNode(a[i], c[i]) {
      assert ExtendsNode(a[i], b[i]) && ExtendsNode(b[i], c[i]);
      ExtendsOn(a[i].children, b[i].children, c[i].children);
      ExtendsOn(a[i].valueList, b[i].valueList, c[i].valueList);
    }
  }

  /** So whatever lines follow, the tree of the first lines stays in the tree of all. */
  lemma {:induction false} BuildExtends(es: seq<Entry>, more: seq<Entry>)
    ensures Extends(Build(es), Build(es + more))
    decreases |more|
  {
    if more == [] {
      assert es + more == es;
      ExtendsSelf(Build(es));
    } else {
      var init, last := more[..|more| - 1], more[|more| - 1];
      assert (es + more)[..|es + more| - 1] == es + init;
      BuildExtends(es, init);
      InsertExtends(last.path, Build(es + init), false, -1, last.value);
      ExtendsOn(Build(es), Build(es + init), Build(es + more));
    }
  }

  // ----- printing -----

  /** Name and value of every node that is printed; below an array node that is its
      value list alone. */
  ghost function Seen(nodes: seq<YamlNode>): multiset<(string, string)>
    decreases nodes, 0
  {
    if nodes == [] then multiset{}
    else SeenNode(nodes[0]) + Seen(nodes[1..])
  }

  ghost function SeenNode(n: YamlNode): multiset<(string, string)>
    decreases n, 0
  {
    multiset{(n.name, n.value)} + if n.arrayFlag then Seen(n.valueList) else Seen(n.children)
  }

  function Said(l: Line): (string, string) { (if l.key.Some? then l.key.value else "", l.value) }

  ghost function SaidAll(ls: seq<Line>): multiset<(string, string)> {
    if ls == [] then multiset{} else multiset{Said(ls[0])} + SaidAll(ls[1..])
  }

  lemma {:induction false} SaidConcat(a: seq<Line>, b: seq<Line>)
    ensures SaidAll(a + b) == SaidAll(a) + SaidAll(b)
  {
    if a == [] {
      assert a + b == b;
    } else {
      assert (a + b)[1..] == a[1..] + b;
      SaidConcat(a[1..], b);
    }
  }

  lemma {:induction false} SeenConcat(a: seq<YamlNode>, b: seq<YamlNode>)
    ensures Seen(a + b) == Seen(a) + Seen(b)
    decreases |a|
  {
    if a == [] {
      assert a + b == b;
    } else {
      assert (a + b)[1..] == a[1..] + b;
      SeenConcat(a[1..], b);
    }
  }

  lemma {:induction false} SeenPerm(a: seq<YamlNode>, b: seq<YamlNode>)
    requires Perm(a, b)
    ensures Seen(a) == Seen(b)
    decreases |a|
  {
    hide SeenNode;
    if a == [] {
      assert |multiset(b)| == 0;
    } else {
      assert a == [a[0]] + a[1..];
      var j := PermRemove(a[0], a[1..], b);
      SeenPerm(a[1..], b[..j] + b[j + 1..]);
      SeenConcat(b[..j], b[j + 1..]);
      SeenConcat(b[..j], b[j..]);
      assert b == b[..j] + b[j..] && b[j..][1..] == b[j + 1..];
    }
  }

  lemma {:induction false} SeenResorted(o: Order, n: YamlNode)
    ensures SeenNode(Resorted(o, n)) == SeenNode(n)
    decreases n, 0
  {
    if n.arrayFlag && n.valueList != [] {
      SeenResortedAll(o, n.valueList);
      SortPerm(o, ResortedAll(o, n.valueList));
      SeenPerm(Sort(o, ResortedAll(o, n.valueList)), ResortedAll(o, n.valueList));
    }
  }

  lemma {:induction false} SeenResortedAll(o: Order, s: seq<YamlNode>)
    ensures Seen(ResortedAll(o, s)) == Seen(s)
    decreases s, 0
  {
    if s != [] {
      SeenResorted(o, s[0]);
      SeenResortedAll(o, s[1..]);
      assert ResortedAll(o, s)[1..] == ResortedAll(o, s[1..]);
    }
  }

  /** Every node is printed on one line with its name and its value, and nothing else
      is, for every tree and every sort. */
  lemma {:induction false} PrintedSaysAll(o: Order, nodes: seq<YamlNode>, inArray: bool, indent: nat, before: int)
    ensures SaidAll(Printed(o, nodes, inArray, indent, before)) == Seen(nodes)
    decreases SizeAll(nodes), 1
  {
    hide PrintedInside, Size, SaidAll, SeenNode, SizeAll;
    if nodes == [] {
      NothingSaid();
    } else {
      var below := if inArray then indent + 4 else indent + 2;
      var next := if inArray then nodes[0].lastNodeIndex else before;
      SizeRest(nodes);
      InsideSaysAll(o, nodes[0], below);
      PrintedSaysAll(o, nodes[1..], inArray, indent, next);
      SaidParts(Header(nodes[0], inArray, indent, before), PrintedInside(o, nodes[0], below),
          Printed(o, nodes[1..], inArray, indent, next));
    }
  }

  lemma {:induction false} NothingSaid()
    ensures SaidAll([]) == multiset{}
  {
  }

  lemma {:induction false} SizeRest(nodes: seq<YamlNode>)
    requires nodes != []
    ensures Size(nodes[0]) <= SizeAll(nodes) && SizeAll(nodes[1..]) < SizeAll(nodes)
  {
  }

  lemma {:induction false} SaidParts(head: Line, inside: seq<Line>, rest: seq<Line>)
    ensures SaidAll([head] + inside + rest) == multiset{Said(head)} + SaidAll(inside) + SaidAll(rest)
  {
    SaidConcat([head] + inside, rest);
    assert ([head] + inside)[1..] == inside;
  }

  lemma {:induction false} InsideSaysAll(o: Order, n: YamlNode, indent: nat)
    ensures SeenNode(n) == multiset{(n.name, n.value)} + SaidAll(PrintedInside(o, n, indent))
    decreases Size(n), 0
  {
    var r := Resorted(o, n);
    SizeResorted(o, n);
    SeenResorted(o, n);
    if r.arrayFlag {
      PrintedSaysAll(o, r.valueList, true, indent, -1);
    } else {
      PrintedSaysAll(o, r.children, false, indent, -1);
    }
  }
}
