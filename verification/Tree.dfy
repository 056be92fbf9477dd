/** The tree that PropertiesToYaml grows, one dotted key at a time
    (wordToNode and YamlNode in service/cfg/codec.go), on peeled words. */
module Tree {
  import opened Text

  /** One word of a dotted key: a name, and an array index or -1. */
  datatype Seg = Seg(name: string, index: int)

  type Path = seq<Seg>

  /** Without the parent pointer, which is passed on but never followed. */
  datatype YamlNode = YamlNode(
    name: string, value: string, children: seq<YamlNode>,
    arrayFlag: bool, lastNodeIndex: int, valueList: seq<YamlNode>)

  function ScalarNode(value: string): YamlNode { YamlNode("", value, [], false, -1, []) }

  // ----- peelArray -----

  /** The name and index that the pattern ^(.*)\[(\d*)\]$ finds: index -1 if it
      does not match or has no digits, and no name if the digits overflow an int. */
  function Peel(word: string): Seg {
    var b := LastIndexOf(word, '[');
    if b >= 0 && word[|word| - 1] == ']' && AllDigits(word[b + 1..|word| - 1]) && '\n' !in word[..b] then
      var digits := word[b + 1..|word| - 1];
      if digits == "" then Seg(word[..b], -1)
      else if Number(digits) < 0x8000_0000_0000_0000 then Seg(word[..b], Number(digits))
      else Seg("", -1)
    else
      Seg(word, -1)
  }

  function PeelAll(words: seq<string>): Path {
    seq(|words|, i requires 0 <= i < |words| => Peel(words[i]))
  }

  function PrintSeg(seg: Seg): string {
    if seg.index < 0 then seg.name else seg.name + "[" + Itoa(seg.index) + "]"
  }

  /** A name that is not itself taken for an indexed one, and an index an int can hold. */
  predicate PlainSeg(seg: Seg) {
    && seg.name != "" && '.' !in seg.name && '\n' !in seg.name && Peel(seg.name) == Seg(seg.name, -1)
    && -1 <= seg.index < 0x8000_0000_0000_0000
  }

  /** Peeling a printed word gives back its name and index. */
  lemma {:induction false} PeelPrint(seg: Seg)
    requires PlainSeg(seg)
    ensures Peel(PrintSeg(seg)) == seg && '.' !in PrintSeg(seg)
  {
    if seg.index >= 0 {
      PeelTakesLast(seg.name, seg.index);
    }
  }

  /** Only the last index is peeled: an element of an array inside an array is
      taken for an element of an array named after the inner one. */
  lemma {:induction false} PeelTakesLast(base: string, i: nat)
    requires '\n' !in base
    ensures Peel(base + "[" + Itoa(i) + "]") == if i < 0x8000_0000_0000_0000 then Seg(base, i) else Seg("", -1)
  {
    var d := Itoa(i);
    var word, b := base + "[" + d + "]", |base|;
    assert word[b] == '[' && word[b + 1..] == d + "]";
    LastIndexUnique(word, '[', b);
    assert word[..b] == base && word[b + 1..|word| - 1] == d;
    NumberItoa(i);
  }

  predicate Indexed(word: string, base: string, digits: string) {
    word == base + "[" + digits + "]" && AllDigits(digits)
  }

  /** Every word that ends in brackets with nothing but digits in them, */
  lemma {:induction false} PeelIndexed(word: string, base: string, digits: string)
    requires Indexed(word, base, digits)
    ensures Peel(word) ==
            if '\n' in base then Seg(word, -1)
            else if digits == "" then Seg(base, -1)
            else if Number(digits) < 0x8000_0000_0000_0000 then Seg(base, Number(digits))
            else Seg("", -1)
  {
    hide Number;
    var b := |base|;
    assert word[b] == '[' && word[b + 1..] == digits + "]";
    LastIndexUnique(word, '[', b);
    assert word[..b] == base && word[b + 1..|word| - 1] == digits;
  }

  /** and every other. */
  lemma {:induction false} PeelOther(word: string)
    ensures Peel(word) == Seg(word, -1) || exists base, digits :: Indexed(word, base, digits)
  {
    hide Number;
    var b := LastIndexOf(word, '[');
    if b >= 0 && word[|word| - 1] == ']' && AllDigits(word[b + 1..|word| - 1]) {
      LastIndexSound(word, '[');
      assert word == word[..b] + "[" + word[b + 1..|word| - 1] + "]";
      assert Indexed(word, word[..b], word[b + 1..|word| - 1]);
    }
  }

  // ----- wordToNode -----

  /** The test that decides whether a word continues an existing node. */
  predicate Same(n: YamlNode, seg: Seg, flag: bool, index: int) {
    && n.name == seg.name
    && (seg.index != -1 ==> n.arrayFlag)
    && ((seg.index == -1 && !flag) || n.lastNodeIndex == -1 || n.lastNodeIndex == index)
  }

  predicate Selected(nodes: seq<YamlNode>, seg: Seg, flag: bool, index: int) {
    exists i :: 0 <= i < |nodes| && Same(nodes[i], seg, flag, index)
  }

  function Insert(segs: Path, nodes: seq<YamlNode>, flag: bool, index: int, value: string): seq<YamlNode>
    decreases |segs|, 0
  {
    if segs == [] then
      if flag then nodes + [ScalarNode(value)] else nodes
    else if Selected(nodes, segs[0], flag, index) then
      Update(segs[0], segs[1..], nodes, flag, index, value)
    else
      nodes + [Fresh(segs[0], segs[1..], index, value)]
  }

  /** The loop over the existing nodes: the first match consumes the remaining
      words, any later match is entered with none left. */
  function Update(seg: Seg, rest: Path, nodes: seq<YamlNode>, flag: bool, index: int, value: string): (r: seq<YamlNode>)
    decreases |rest|, |nodes| + 1
  {
    if nodes == [] then []
    else if Same(nodes[0], seg, flag, index) then
      [Grow(nodes[0], seg, rest, flag, value)] + Update(seg, [], nodes[1..], flag, index, value)
    else
      [nodes[0]] + Update(seg, rest, nodes[1..], flag, index, value)
  }

  function Grow(n: YamlNode, seg: Seg, rest: Path, flag: bool, value: string): YamlNode
    decreases |rest|, 1
  {
    if seg.index != -1 then n.(valueList := Insert(rest, n.valueList, true, seg.index, value))
    else n.(children := Insert(rest, n.children, flag, -1, value))
  }

  function Fresh(seg: Seg, rest: Path, index: int, value: string): YamlNode
    decreases |rest|, 1
  {
    if seg.index != -1 then
      YamlNode(seg.name, "", [], true, index, Insert(rest, [], true, seg.index, value))
    else
      YamlNode(seg.name, if rest == [] then value else "", Insert(rest, [], false, -1, value), false, index, [])
  }

  /** wordToNode: the words left over, and the node list with the value put in. */
  method WordToNode(words: seq<string>, nodeList: seq<YamlNode>, lastNodeArrayFlag: bool, index: int, value: string)
    returns (left: seq<string>, nodes: seq<YamlNode>)
    ensures left == [] && nodes == Insert(PeelAll(words), nodeList, lastNodeArrayFlag, index, value)
    decreases |words|, 0
  {
    left, nodes := words, nodeList;
    if |words| == 0 {
      if lastNodeArrayFlag {
        nodes := nodes + [ScalarNode(value)];
      }
      return;
    }
    var seg := Peel(words[0]);
    left := words[1..];
    assert PeelAll(left) == PeelAll(words)[1..];
    var own := if |left| == 0 && seg.index == -1 then value else "";
    var node := YamlNode(seg.name, own, [], seg.index != -1, index, []);
    var hasEqualsName;
    left, nodes, hasEqualsName := ContinueNodes(left, nodeList, seg, lastNodeArrayFlag, index, value);
    if !hasEqualsName {
      left, node := GrowNode(left, node, seg, false, value);
      nodes := nodes + [node];
    }
  }

  /** wordToNode's loop over the existing nodes. */
  method ContinueNodes(words: seq<string>, nodeList: seq<YamlNode>, seg: Seg, flag: bool, index: int, value: string)
    returns (left: seq<string>, nodes: seq<YamlNode>, hasEqualsName: bool)
    ensures hasEqualsName == Selected(nodeList, seg, flag, index)
    ensures left == if hasEqualsName then [] else words
    ensures nodes == if hasEqualsName then Update(seg, PeelAll(words), nodeList, flag, index, value) else nodeList
    decreases |words|, 2
  {
    hide Grow, Same, Update;
    left, nodes, hasEqualsName := words, nodeList, false;
    ghost var updated := Update(seg, PeelAll(words), nodeList, flag, index, value);
    UpdateLength(seg, PeelAll(words), nodeList, flag, index, value);
    for i := 0 to |nodeList|
      invariant |nodes| == |nodeList| && left == (if hasEqualsName then [] else words)
      invariant hasEqualsName == Selected(nodeList[..i], seg, flag, index)
      invariant !hasEqualsName ==> nodes == nodeList
      invariant forall j :: 0 <= j < i ==> nodes[j] == updated[j]
      invariant forall j :: i <= j < |nodes| ==> nodes[j] == nodeList[j]
    {
      UpdateAt(seg, PeelAll(words), nodeList, flag, index, value, i);
      SelectedNext(nodeList, seg, flag, index, i);
      var n := nodes[i];
      if Same(n, seg, flag, index) {
        assert PeelAll([]) == [];
        hasEqualsName := true;
        left, n := GrowNode(left, n, seg, flag, value);
        nodes := nodes[i := n];
      }
    }
    assert nodeList[..|nodeList|] == nodeList;
  }

  lemma {:induction false} SelectedNext(nodes: seq<YamlNode>, seg: Seg, flag: bool, index: int, i: nat)
    requires i < |nodes|
    ensures Selected(nodes[..i + 1], seg, flag, index)
            <==> Selected(nodes[..i], seg, flag, index) || Same(nodes[i], seg, flag, index)
  {
    assert nodes[..i + 1] == nodes[..i] + [nodes[i]];
    assert (nodes[..i] + [nodes[i]])[i] == nodes[i];
    forall j | 0 <= j < i ensures (nodes[..i] + [nodes[i]])[j] == nodes[..i][j] { }
  }

  lemma {:induction false} UpdateLength(seg: Seg, rest: Path, nodes: seq<YamlNode>, flag: bool, index: int,
      value: string)
    ensures |Update(seg, rest, nodes, flag, index, value)| == |nodes|
    decreases |nodes|
  {
    if nodes != [] {
      UpdateLength(seg, if Same(nodes[0], seg, flag, index) then [] else rest, nodes[1..], flag, index, value);
    }
  }

  /** The loop's effect on one node. */
  lemma {:induction false} UpdateAt(seg: Seg, rest: Path, nodes: seq<YamlNode>, flag: bool, index: int, value: string,
      i: nat)
    requires i < |nodes|
    ensures |Update(seg, rest, nodes, flag, index, value)| == |nodes|
    ensures Update(seg, rest, nodes, flag, index, value)[i]
         == if !Same(nodes[i], seg, flag, index) then nodes[i]
            else Grow(nodes[i], seg, if Selected(nodes[..i], seg, flag, index) then [] else rest, flag, value)
    decreases |nodes|
  {
    hide Grow, Same, Selected;
    UpdateLength(seg, rest, nodes, flag, index, value);
    SelectedFirst(nodes[..i], seg, flag, index);
    if i > 0 {
      var rest' := if Same(nodes[0], seg, flag, index) then [] else rest;
      UpdateAt(seg, rest', nodes[1..], flag, index, value, i - 1);
      assert nodes[..i][1..] == nodes[1..][..i - 1] && nodes[1..][i - 1] == nodes[i];
      assert Update(seg, rest, nodes, flag, index, value)[1..] == Update(seg, rest', nodes[1..], flag, index, value);
      assert Update(seg, rest, nodes, flag, index, value)[i]
          == Update(seg, rest', nodes[1..], flag, index, value)[i - 1];
    }
  }

  lemma {:induction false} SelectedFirst(nodes: seq<YamlNode>, seg: Seg, flag: bool, index: int)
    ensures Selected(nodes, seg, flag, index)
            <==> nodes != [] && (Same(nodes[0], seg, flag, index) || Selected(nodes[1..], seg, flag, index))
  {
    hide Same;
    assert forall j :: 0 < j < |nodes| ==> nodes[j] == nodes[1..][j - 1];
  }

  /** The recursive call of wordToNode on the part of a node that a word selects. */
  method GrowNode(words: seq<string>, n: YamlNode, seg: Seg, flag: bool, value: string)
    returns (left: seq<string>, grown: YamlNode)
    ensures left == [] && grown == Grow(n, seg, PeelAll(words), flag, value)
    decreases |words|, 1
  {
    var nodes;
    if seg.index != -1 {
      left, nodes := WordToNode(words, n.valueList, true, seg.index, value);
      grown := n.(valueList := nodes);
    } else {
      left, nodes := WordToNode(words, n.children, flag, -1, value);
      grown := n.(children := nodes);
    }
  }

  // ----- what a tree denotes -----

  /** A value with its path; `index` places it in the array that holds the nodes. */
  datatype Leaf = Leaf(index: int, path: Path, value: string)

  function Under(index: int, name: string, l: Leaf): Leaf {
    Leaf(index, [Seg(name, l.index)] + l.path, l.value)
  }

  function UnderAll(index: int, name: string, ls: seq<Leaf>): seq<Leaf> {
    seq(|ls|, i requires 0 <= i < |ls| => Under(index, name, ls[i]))
  }

  function Leaves(nodes: seq<YamlNode>): seq<Leaf>
    decreases nodes, 0
  {
    if nodes == [] then [] else NodeLeaves(nodes[0]) + Leaves(nodes[1..])
  }

  function NodeLeaves(n: YamlNode): seq<Leaf>
    decreases n, 0
  {
    if n.arrayFlag then UnderAll(n.lastNodeIndex, n.name, ArrayLeaves(n.valueList))
    else if n.children == [] then [Leaf(n.lastNodeIndex, [Seg(n.name, -1)], n.value)]
    else UnderAll(n.lastNodeIndex, n.name, Leaves(n.children))
  }

  /** Scalar elements are placed by position, the nodes of map elements by index. */
  function ArrayLeaves(vl: seq<YamlNode>): seq<Leaf>
    decreases vl, 1
  {
    if vl != [] && vl[0].lastNodeIndex == -1 then seq(|vl|, i requires 0 <= i < |vl| => Leaf(i, [], vl[i].value))
    else Leaves(vl)
  }

  ghost predicate Perm<T>(a: seq<T>, b: seq<T>) { multiset(a) == multiset(b) }

  // ----- well-formed trees -----

  predicate ScalarList(vl: seq<YamlNode>) {
    forall i :: 0 <= i < |vl| ==> vl[i] == ScalarNode(vl[i].value)
  }

  /** Nodes with distinct names, or distinct names within one element of an array of maps. */
  predicate Good(nodes: seq<YamlNode>, inArray: bool)
    decreases nodes, 0
  {
    && (forall i :: 0 <= i < |nodes| ==>
          GoodNode(nodes[i]) && nodes[i].name != ""
              && (if inArray then nodes[i].lastNodeIndex >= 0 else nodes[i].lastNodeIndex == -1))
    && (forall i, j :: 0 <= i < j < |nodes| ==>
          nodes[i].name != nodes[j].name || nodes[i].lastNodeIndex != nodes[j].lastNodeIndex)
  }

  predicate GoodNode(n: YamlNode)
    decreases n, 0
  {
    if n.arrayFlag then n.value == "" && n.children == [] && n.valueList != [] && GoodList(n.valueList)
    else n.valueList == [] && Good(n.children, false) && (n.children != [] ==> n.value == "")
  }

  predicate GoodList(vl: seq<YamlNode>)
    decreases vl, 1
  {
    ScalarList(vl) || Good(vl, true)
  }

  // ----- consistent keys -----

  predicate NamedPath(p: Path) {
    forall i :: 0 <= i < |p| ==> p[i].name != "" && p[i].index >= -1
  }

  /** Two different keys may share a tree: neither extends the other, a name is
      plain in both or an array in both, array elements are scalars in both, in
      index order, or maps in both. */
  predicate Compatible(p: Path, q: Path)
    requires p != [] && q != []
    decreases |p|, 0
  {
    p[0].name == q[0].name ==>
      (p[0].index == -1 <==> q[0].index == -1) && Apart(p[0].index, p[1..], q[0].index, q[1..])
  }

  predicate Apart(i: int, p: Path, j: int, q: Path)
    decreases |p|, 1
  {
    if i == j then p != [] && q != [] && Compatible(p, q)
    else if p == [] || q == [] then p == q && i < j
    else true
  }

  /** The key of the array element just before, for a scalar element that is not the first. */
  function Previous(p: Path): Path
    requires p != []
  {
    p[..|p| - 1] + [p[|p| - 1].(index := p[|p| - 1].index - 1)]
  }

  ghost predicate Fits(ls: seq<Leaf>, index: int, p: Path) {
    forall i :: 0 <= i < |ls| ==> Apart(ls[i].index, ls[i].path, index, p)
  }

  ghost predicate HasPrevious(ls: seq<Leaf>, index: int, p: Path) {
    p != [] && p[|p| - 1].index > 0 ==>
      exists i :: 0 <= i < |ls| && ls[i].index == index && ls[i].path == Previous(p)
  }

  // ----- lemmas about leaves -----

  lemma {:induction false} LeavesConcat(a: seq<YamlNode>, b: seq<YamlNode>)
    ensures Leaves(a + b) == Leaves(a) + Leaves(b)
  {
    if a == [] {
      assert a + b == b;
    } else {
      assert (a + b)[1..] == a[1..] + b;
      LeavesConcat(a[1..], b);
    }
  }

  lemma {:induction false} LeavesAt(nodes: seq<YamlNode>, m: nat)
    requires m < |nodes|
    ensures Leaves(nodes) == Leaves(nodes[..m]) + NodeLeaves(nodes[m]) + Leaves(nodes[m + 1..])
  {
    assert nodes == nodes[..m] + nodes[m..];
    LeavesConcat(nodes[..m], nodes[m..]);
  }

  lemma {:induction false} PermRemove<T>(x: T, a: seq<T>, b: seq<T>) returns (j: nat)
    requires Perm([x] + a, b)
    ensures j < |b| && b[j] == x && Perm(a, b[..j] + b[j + 1..])
  {
    assert x in multiset([x] + a);
    assert x in multiset(b);
    j :| 0 <= j < |b| && b[j] == x;
    assert b == b[..j] + [x] + b[j + 1..];
    calc {
      multiset(a);
      multiset([x] + a) - multiset{x};
      multiset(b) - multiset{x};
      multiset(b[..j] + b[j + 1..]);
    }
  }

  lemma {:induction false} UnderAllPerm(index: int, name: string, a: seq<Leaf>, b: seq<Leaf>)
    requires Perm(a, b)
    ensures Perm(UnderAll(index, name, a), UnderAll(index, name, b))
  {
    hide Under;
    UnderAllAt(index, name, a);
    UnderAllAt(index, name, b);
    if a == [] {
      assert |multiset(b)| == 0;
    } else {
      assert a == [a[0]] + a[1..];
      var j := PermRemove(a[0], a[1..], b);
      UnderAllPerm(index, name, a[1..], b[..j] + b[j + 1..]);
      var ua, ub := UnderAll(index, name, a), UnderAll(index, name, b);
      assert ua == [ua[0]] + UnderAll(index, name, a[1..]);
      assert UnderAll(index, name, b[..j] + b[j + 1..]) == ub[..j] + ub[j + 1..];
      PermInsert(ua[0], UnderAll(index, name, a[1..]), ub, j);
    }
  }

  lemma {:induction false} PermInsert<T>(x: T, a: seq<T>, b: seq<T>, j: nat)
    requires j < |b| && b[j] == x && Perm(a, b[..j] + b[j + 1..])
    ensures Perm([x] + a, b)
  {
    assert b == b[..j] + [b[j]] + b[j + 1..];
  }

  lemma {:induction false} NodeHasLeaf(n: YamlNode)
    requires GoodNode(n)
    ensures |NodeLeaves(n)| > 0
    ensures forall i :: 0 <= i < |NodeLeaves(n)| ==>
      NodeLeaves(n)[i].index == n.lastNodeIndex && NodeLeaves(n)[i].path != []
          && NodeLeaves(n)[i].path[0].name == n.name
    decreases n
  {
    if n.arrayFlag {
      if !ScalarList(n.valueList) {
        assert Good(n.valueList, true);
        NodeHasLeaf(n.valueList[0]);
        assert ArrayLeaves(n.valueList) == NodeLeaves(n.valueList[0]) + Leaves(n.valueList[1..]);
      }
    } else if n.children != [] {
      NodeHasLeaf(n.children[0]);
    }
  }

  /** At most one node continues a word, so the loop changes that one alone. */
  lemma {:induction false} UpdateOne(seg: Seg, rest: Path, nodes: seq<YamlNode>, flag: bool, index: int,
      value: string, m: nat)
    requires m <= |nodes|
    requires forall i :: 0 <= i < |nodes| && i != m ==> !Same(nodes[i], seg, flag, index)
    requires m < |nodes| ==> Same(nodes[m], seg, flag, index)
    ensures Update(seg, rest, nodes, flag, index, value) ==
            if m == |nodes| then nodes
            else nodes[..m] + [Grow(nodes[m], seg, rest, flag, value)] + nodes[m + 1..]
    decreases |nodes|
  {
    hide Grow, Same;
    if nodes != [] {
      if m == 0 {
        UpdateOne(seg, [], nodes[1..], flag, index, value, |nodes| - 1);
      } else {
        UpdateOne(seg, rest, nodes[1..], flag, index, value, m - 1);
      }
    }
  }

  // ----- insertion adds exactly one leaf -----

  lemma {:induction false} InsertLeaves(segs: Path, nodes: seq<YamlNode>, flag: bool, index: int, value: string)
    requires segs != [] && NamedPath(segs) && index >= -1 && (!flag ==> index == -1)
    requires Good(nodes, index >= 0)
    requires Fits(Leaves(nodes), index, segs) && HasPrevious(Leaves(nodes), index, segs)
    ensures Good(Insert(segs, nodes, flag, index, value), index >= 0)
    ensures Perm(Leaves(Insert(segs, nodes, flag, index, value)), [Leaf(index, segs, value)] + Leaves(nodes))
    decreases |segs|, 2
  {
    if m :| 0 <= m < |nodes| && nodes[m].name == segs[0].name && nodes[m].lastNodeIndex == index {
      SubtreeKind(segs, nodes, index, m);
      OneSame(nodes, segs[0], flag, index, m);
      GrownLeaves(segs, nodes, flag, index, value, m);
      UpdateOne(segs[0], segs[1..], nodes, flag, index, value, m);
      assert Selected(nodes, segs[0], flag, index);
    } else {
      FreshLeaves(segs, nodes, index, value);
      NoneSame(nodes, segs[0], flag, index);
      AppendGood(nodes, Fresh(segs[0], segs[1..], index, value), index >= 0);
      AppendLeaves(nodes, Fresh(segs[0], segs[1..], index, value), Leaf(index, segs, value));
    }
  }

  lemma {:induction false} OneSame(nodes: seq<YamlNode>, seg: Seg, flag: bool, index: int, m: nat)
    requires m < |nodes| && Good(nodes, index >= 0) && index >= -1 && (!flag ==> index == -1)
    requires nodes[m].name == seg.name && nodes[m].lastNodeIndex == index && (nodes[m].arrayFlag <==> seg.index != -1)
    ensures forall i :: 0 <= i < |nodes| ==> (Same(nodes[i], seg, flag, index) <==> i == m)
  {
  }

  lemma {:induction false} NoneSame(nodes: seq<YamlNode>, seg: Seg, flag: bool, index: int)
    requires Good(nodes, index >= 0) && index >= -1 && (!flag ==> index == -1)
    requires forall m :: 0 <= m < |nodes| ==> nodes[m].name != seg.name || nodes[m].lastNodeIndex != index
    ensures !Selected(nodes, seg, flag, index)
  {
  }

  lemma {:induction false} GrownLeaves(segs: Path, nodes: seq<YamlNode>, flag: bool, index: int, value: string, m: nat)
    requires segs != [] && NamedPath(segs) && m < |nodes| && Good(nodes, index >= 0)
    requires nodes[m].name == segs[0].name && nodes[m].lastNodeIndex == index
    requires nodes[m].arrayFlag <==> segs[0].index != -1
    requires !nodes[m].arrayFlag ==> nodes[m].children != [] && segs[1..] != []
    requires Fits(Leaves(nodes), index, segs) && HasPrevious(Leaves(nodes), index, segs)
    ensures var after := nodes[..m] + [Grow(nodes[m], segs[0], segs[1..], flag, value)] + nodes[m + 1..];
            Good(after, index >= 0) && Perm(Leaves(after), [Leaf(index, segs, value)] + Leaves(nodes))
    decreases |segs|, 1
  {
    SubtreeFits(segs, nodes, index, m);
    SubtreePrevious(segs, nodes, index, m);
    GrowLeaves(nodes[m], segs, flag, value);
    ReplaceGood(nodes, m, Grow(nodes[m], segs[0], segs[1..], flag, value), index >= 0);
    ReplaceLeaves(nodes, m, Grow(nodes[m], segs[0], segs[1..], flag, value), Leaf(index, segs, value));
  }

  lemma {:induction false} PermSplice<T>(a: seq<T>, b: seq<T>, b': seq<T>, c: seq<T>, x: T)
    requires Perm(b', [x] + b)
    ensures Perm(a + b' + c, [x] + (a + b + c))
  {
  }

  lemma {:induction false} ReplaceGood(nodes: seq<YamlNode>, m: nat, n: YamlNode, inArray: bool)
    requires m < |nodes| && Good(nodes, inArray) && GoodNode(n)
    requires n.name == nodes[m].name && n.lastNodeIndex == nodes[m].lastNodeIndex
    ensures Good(nodes[..m] + [n] + nodes[m + 1..], inArray)
  {
    ReplaceAt(nodes, m, n);
    SameGood(nodes, nodes[..m] + [n] + nodes[m + 1..], m, inArray);
  }

  lemma {:induction false} ReplaceAt<T>(s: seq<T>, m: nat, x: T)
    requires m < |s|
    ensures var r := s[..m] + [x] + s[m + 1..];
            |r| == |s| && r[m] == x && forall i :: 0 <= i < |s| && i != m ==> r[i] == s[i]
  {
  }

  lemma {:induction false} SameGood(nodes: seq<YamlNode>, after: seq<YamlNode>, m: nat, inArray: bool)
    requires m < |nodes| == |after| && Good(nodes, inArray) && GoodNode(after[m])
    requires forall i :: 0 <= i < |nodes| && i != m ==> after[i] == nodes[i]
    requires after[m].name == nodes[m].name && after[m].lastNodeIndex == nodes[m].lastNodeIndex
    ensures Good(after, inArray)
  {
    assert forall i :: 0 <= i < |nodes| ==>
             after[i].name == nodes[i].name && after[i].lastNodeIndex == nodes[i].lastNodeIndex;
    assert forall i :: 0 <= i < |nodes| && i != m ==> GoodNode(nodes[i]);
  }

  lemma {:induction false} ReplaceLeaves(nodes: seq<YamlNode>, m: nat, n: YamlNode, x: Leaf)
    requires m < |nodes| && Perm(NodeLeaves(n), [x] + NodeLeaves(nodes[m]))
    ensures Perm(Leaves(nodes[..m] + [n] + nodes[m + 1..]), [x] + Leaves(nodes))
  {
    var after := nodes[..m] + [n] + nodes[m + 1..];
    LeavesAt(nodes, m);
    LeavesAt(after, m);
    assert after[..m] == nodes[..m] && after[m + 1..] == nodes[m + 1..];
    PermSplice(Leaves(nodes[..m]), NodeLeaves(nodes[m]), NodeLeaves(n), Leaves(nodes[m + 1..]), x);
  }

  lemma {:induction false} AppendGood(nodes: seq<YamlNode>, n: YamlNode, inArray: bool)
    requires Good(nodes, inArray) && GoodNode(n) && n.name != ""
    requires if inArray then n.lastNodeIndex >= 0 else n.lastNodeIndex == -1
    requires forall i :: 0 <= i < |nodes| ==> nodes[i].name != n.name || nodes[i].lastNodeIndex != n.lastNodeIndex
    ensures Good(nodes + [n], inArray)
  {
    var all := nodes + [n];
    assert forall i :: 0 <= i < |nodes| ==> all[i] == nodes[i];
  }

  lemma {:induction false} AppendLeaves(nodes: seq<YamlNode>, n: YamlNode, x: Leaf)
    requires NodeLeaves(n) == [x]
    ensures Perm(Leaves(nodes + [n]), [x] + Leaves(nodes))
  {
    LeavesConcat(nodes, [n]);
    assert Leaves([n]) == [x] + Leaves([]) == [x];
    PermEnd(Leaves(nodes), x);
  }

  lemma {:induction false} PermEnd<T>(a: seq<T>, x: T)
    ensures Perm(a + [x], [x] + a)
  {
  }

  /** The leaves below the node that a key continues. */
  function Below(n: YamlNode): seq<Leaf> {
    if n.arrayFlag then ArrayLeaves(n.valueList) else Leaves(n.children)
  }

  /** below is a section of all, from o on, but for the first word of each path. */
  ghost predicate Section(all: seq<Leaf>, below: seq<Leaf>, o: nat, index: int, name: string) {
    o + |below| <= |all| && forall i :: 0 <= i < |below| ==> all[o + i] == Under(index, name, below[i])
  }

  lemma {:induction false} SectionAt(nodes: seq<YamlNode>, m: nat)
    requires m < |nodes| && (nodes[m].arrayFlag || nodes[m].children != [])
    ensures Section(Leaves(nodes), Below(nodes[m]), |Leaves(nodes[..m])|, nodes[m].lastNodeIndex, nodes[m].name)
    ensures |Below(nodes[m])| == |NodeLeaves(nodes[m])|
  {
    hide Leaves, NodeLeaves, Below, UnderAll, Under;
    var n, o := nodes[m], |Leaves(nodes[..m])|;
    LeavesAt(nodes, m);
    NodeOverBelow(n);
    UnderAllAt(n.lastNodeIndex, n.name, Below(n));
    forall i | 0 <= i < |Below(n)| ensures Leaves(nodes)[o + i] == Under(n.lastNodeIndex, n.name, Below(n)[i]) {
      MiddleAt(Leaves(nodes[..m]), NodeLeaves(n), Leaves(nodes[m + 1..]), i);
    }
  }

  lemma {:induction false} UnderAllAt(index: int, name: string, ls: seq<Leaf>)
    ensures |UnderAll(index, name, ls)| == |ls|
    ensures forall i :: 0 <= i < |ls| ==> UnderAll(index, name, ls)[i] == Under(index, name, ls[i])
  {
  }

  lemma {:induction false} MiddleAt<T>(a: seq<T>, b: seq<T>, c: seq<T>, i: nat)
    requires i < |b|
    ensures (a + b + c)[|a| + i] == b[i]
  {
  }

  lemma {:induction false} SectionFits(all: seq<Leaf>, below: seq<Leaf>, o: nat, index: int, segs: Path)
    requires segs != [] && Section(all, below, o, index, segs[0].name) && Fits(all, index, segs)
    ensures Fits(below, segs[0].index, segs[1..])
    ensures forall i :: 0 <= i < |below| ==> (below[i].index == -1 <==> segs[0].index == -1)
  {
    forall i | 0 <= i < |below|
      ensures Apart(below[i].index, below[i].path, segs[0].index, segs[1..])
      ensures below[i].index == -1 <==> segs[0].index == -1
    {
      var l := all[o + i];
      assert l == Under(index, segs[0].name, below[i]);
      assert Apart(l.index, l.path, index, segs);
      ApartNext(index, l.path, segs);
      assert l.path[1..] == below[i].path;
    }
  }

  /** One word further: the kinds agree, and neither key ends here if the word is plain. */
  lemma {:induction false} ApartNext(index: int, p: Path, q: Path)
    requires p != [] && q != [] && Apart(index, p, index, q) && p[0].name == q[0].name
    ensures p[0].index == -1 <==> q[0].index == -1
    ensures p[0].index == -1 ==> |p| > 1 && |q| > 1
    ensures Apart(p[0].index, p[1..], q[0].index, q[1..])
  {
    assert Compatible(p, q);
    assert Apart(p[0].index, p[1..], q[0].index, q[1..]);
  }

  lemma {:induction false} SectionPrevious(all: seq<Leaf>, below: seq<Leaf>, o: nat, index: int, segs: Path, w: nat)
    requires segs != [] && NamedPath(segs) && Section(all, below, o, index, segs[0].name) && o <= w < o + |below|
    requires segs[|segs| - 1].index > 0 && all[w].path == Previous(segs)
    ensures HasPrevious(below, segs[0].index, segs[1..]) && HasScalarBefore(below, segs[0].index, segs[1..])
  {
    var l := below[w - o];
    assert all[w] == Under(index, segs[0].name, l);
    assert l.path == Previous(segs)[1..] && l.index == Previous(segs)[0].index;
    if segs[1..] != [] {
      assert Previous(segs)[1..] == Previous(segs[1..]);
    }
  }

  /** A fitting key finds a node of its own kind... */
  lemma {:induction false} SubtreeKind(segs: Path, nodes: seq<YamlNode>, index: int, m: nat)
    requires segs != [] && m < |nodes| && GoodNode(nodes[m])
    requires nodes[m].name == segs[0].name && nodes[m].lastNodeIndex == index
    requires Fits(Leaves(nodes), index, segs)
    ensures nodes[m].arrayFlag <==> segs[0].index != -1
    ensures !nodes[m].arrayFlag ==> nodes[m].children != [] && segs[1..] != []
  {
    var n, o := nodes[m], |Leaves(nodes[..m])|;
    LeavesAt(nodes, m);
    NodeHasLeaf(n);
    var l := Leaves(nodes)[o];
    assert l == NodeLeaves(n)[0];
    assert Apart(l.index, l.path, index, segs);
    ApartNext(index, l.path, segs);
    if n.arrayFlag || n.children != [] {
      BelowKind(n);
      SectionAt(nodes, m);
      assert l == Under(index, n.name, Below(n)[0]);
    }
  }

  lemma {:induction false} BelowKind(n: YamlNode)
    requires GoodNode(n) && (n.arrayFlag || n.children != [])
    ensures Below(n) != [] && (Below(n)[0].index == -1 <==> !n.arrayFlag)
    ensures !n.arrayFlag ==> Below(n)[0].path != []
  {
    NodeHasLeaf(n);
    if n.arrayFlag {
      KindOfBelow(n);
    } else {
      LeavesIndexed(n.children, false);
    }
  }

  /** ...and its remaining words fit below it, */
  lemma {:induction false} SubtreeFits(segs: Path, nodes: seq<YamlNode>, index: int, m: nat)
    requires segs != [] && m < |nodes|
    requires nodes[m].name == segs[0].name && nodes[m].lastNodeIndex == index
    requires nodes[m].arrayFlag || nodes[m].children != []
    requires Fits(Leaves(nodes), index, segs)
    ensures Fits(Below(nodes[m]), segs[0].index, segs[1..])
  {
    SectionAt(nodes, m);
    SectionFits(Leaves(nodes), Below(nodes[m]), |Leaves(nodes[..m])|, index, segs);
  }

  /** ...where its predecessor is, if it has one. */
  lemma {:induction false} SubtreePrevious(segs: Path, nodes: seq<YamlNode>, index: int, m: nat)
    requires segs != [] && NamedPath(segs) && m < |nodes| && Good(nodes, index >= 0)
    requires nodes[m].name == segs[0].name && nodes[m].lastNodeIndex == index
    requires nodes[m].arrayFlag || nodes[m].children != []
    requires HasPrevious(Leaves(nodes), index, segs)
    ensures HasPrevious(Below(nodes[m]), segs[0].index, segs[1..])
    ensures HasScalarBefore(Below(nodes[m]), segs[0].index, segs[1..])
  {
    if segs[|segs| - 1].index > 0 {
      var w := PreviousAt(Leaves(nodes), index, segs);
      GoodPlace(nodes, index >= 0, m, w);
      PreviousBelow(segs, nodes, index, m, w);
    } else {
      NoPrevious(Below(nodes[m]), segs);
    }
  }

  /** The same in a well-formed list. */
  lemma {:induction false} GoodPlace(nodes: seq<YamlNode>, inArray: bool, m: nat, w: nat)
    requires Good(nodes, inArray) && m < |nodes| && w < |Leaves(nodes)|
    requires Leaves(nodes)[w].path != []
    requires Leaves(nodes)[w].path[0].name == nodes[m].name && Leaves(nodes)[w].index == nodes[m].lastNodeIndex
    ensures |Leaves(nodes[..m])| <= w < |Leaves(nodes[..m])| + |NodeLeaves(nodes[m])|
  {
    GoodParts(nodes, inArray);
    LeafPlace(nodes, m, w);
  }

  lemma {:induction false} GoodParts(nodes: seq<YamlNode>, inArray: bool)
    requires Good(nodes, inArray)
    ensures forall i :: 0 <= i < |nodes| ==> GoodNode(nodes[i])
    ensures forall i, j :: 0 <= i < j < |nodes| ==>
              nodes[i].name != nodes[j].name || nodes[i].lastNodeIndex != nodes[j].lastNodeIndex
  {
  }

  lemma {:induction false} NoPrevious(below: seq<Leaf>, segs: Path)
    requires segs != [] && segs[|segs| - 1].index <= 0
    ensures HasPrevious(below, segs[0].index, segs[1..]) && HasScalarBefore(below, segs[0].index, segs[1..])
  {
  }

  lemma {:induction false} PreviousBelow(segs: Path, nodes: seq<YamlNode>, index: int, m: nat, w: nat)
    requires segs != [] && NamedPath(segs) && m < |nodes| && segs[|segs| - 1].index > 0
    requires nodes[m].name == segs[0].name && nodes[m].lastNodeIndex == index
    requires nodes[m].arrayFlag || nodes[m].children != []
    requires |Leaves(nodes[..m])| <= w < |Leaves(nodes[..m])| + |NodeLeaves(nodes[m])|
    requires w < |Leaves(nodes)| && Leaves(nodes)[w].path == Previous(segs)
    ensures HasPrevious(Below(nodes[m]), segs[0].index, segs[1..])
    ensures HasScalarBefore(Below(nodes[m]), segs[0].index, segs[1..])
  {
    SectionAt(nodes, m);
    SectionPrevious(Leaves(nodes), Below(nodes[m]), |Leaves(nodes[..m])|, index, segs, w);
  }

  lemma {:induction false} PreviousAt(ls: seq<Leaf>, index: int, p: Path) returns (w: nat)
    requires p != [] && p[|p| - 1].index > 0 && HasPrevious(ls, index, p)
    ensures w < |ls| && ls[w].index == index && ls[w].path == Previous(p) && ls[w].path != []
    ensures ls[w].path[0].name == p[0].name
  {
    w :| 0 <= w < |ls| && ls[w].index == index && ls[w].path == Previous(p);
  }

  ghost predicate HasScalarBefore(ls: seq<Leaf>, index: int, rest: Path) {
    rest == [] && index > 0 ==> exists i :: 0 <= i < |ls| && ls[i].index == index - 1 && ls[i].path == []
  }

  lemma {:induction false} KindOfBelow(n: YamlNode)
    requires GoodNode(n) && n.arrayFlag
    ensures forall i :: 0 <= i < |ArrayLeaves(n.valueList)| ==> ArrayLeaves(n.valueList)[i].index >= 0
    ensures forall i :: 0 <= i < |ArrayLeaves(n.valueList)| ==>
      (ArrayLeaves(n.valueList)[i].path == [] <==> ScalarList(n.valueList))
  {
    if !ScalarList(n.valueList) {
      LeavesIndexed(n.valueList, true);
    }
  }

  lemma {:induction false} LeavesIndexed(nodes: seq<YamlNode>, inArray: bool)
    requires Good(nodes, inArray)
    ensures forall i :: 0 <= i < |Leaves(nodes)| ==>
      Leaves(nodes)[i].path != [] && (if inArray then Leaves(nodes)[i].index >= 0 else Leaves(nodes)[i].index == -1)
  {
    if nodes != [] {
      NodeHasLeaf(nodes[0]);
      LeavesIndexed(nodes[1..], inArray);
    }
  }

  /** A leaf with the name and index of nodes[m] lies below nodes[m]. */
  lemma {:induction false} LeafPlace(nodes: seq<YamlNode>, m: nat, w: nat)
    requires m < |nodes| && w < |Leaves(nodes)|
    requires forall i :: 0 <= i < |nodes| ==> GoodNode(nodes[i])
    requires forall i, j :: 0 <= i < j < |nodes| ==>
               nodes[i].name != nodes[j].name || nodes[i].lastNodeIndex != nodes[j].lastNodeIndex
    requires Leaves(nodes)[w].path != []
    requires Leaves(nodes)[w].path[0].name == nodes[m].name && Leaves(nodes)[w].index == nodes[m].lastNodeIndex
    ensures |Leaves(nodes[..m])| <= w < |Leaves(nodes[..m])| + |NodeLeaves(nodes[m])|
  {
    NodeHasLeaf(nodes[0]);
    if m == 0 {
      if w >= |NodeLeaves(nodes[0])| {
        var i := LeafOwner(nodes[1..], w - |NodeLeaves(nodes[0])|);
      }
    } else {
      assert nodes[..m][1..] == nodes[1..][..m - 1];
      assert Leaves(nodes[..m]) == NodeLeaves(nodes[0]) + Leaves(nodes[1..][..m - 1]);
      assert nodes[1..][m - 1] == nodes[m];
      if w >= |NodeLeaves(nodes[0])| {
        LeafPlace(nodes[1..], m - 1, w - |NodeLeaves(nodes[0])|);
      }
    }
  }

  lemma {:induction false} LeafOwner(nodes: seq<YamlNode>, w: nat) returns (i: nat)
    requires w < |Leaves(nodes)| && forall i :: 0 <= i < |nodes| ==> GoodNode(nodes[i])
    ensures i < |nodes| && Leaves(nodes)[w].path != []
    ensures Leaves(nodes)[w].path[0].name == nodes[i].name && Leaves(nodes)[w].index == nodes[i].lastNodeIndex
  {
    NodeHasLeaf(nodes[0]);
    if w < |NodeLeaves(nodes[0])| {
      i := 0;
    } else {
      i := LeafOwner(nodes[1..], w - |NodeLeaves(nodes[0])|);
      i := i + 1;
    }
  }

  lemma {:induction false} GrowLeaves(n: YamlNode, segs: Path, flag: bool, value: string)
    requires segs != [] && NamedPath(segs) && GoodNode(n) && n.name == segs[0].name
    requires n.arrayFlag <==> segs[0].index != -1
    requires !n.arrayFlag ==> n.children != [] && segs[1..] != []
    requires Fits(Below(n), segs[0].index, segs[1..]) && HasPrevious(Below(n), segs[0].index, segs[1..])
    requires HasScalarBefore(Below(n), segs[0].index, segs[1..])
    ensures GoodNode(Grow(n, segs[0], segs[1..], flag, value))
    ensures Grow(n, segs[0], segs[1..], flag, value).(children := n.children, valueList := n.valueList) == n
    ensures Perm(NodeLeaves(Grow(n, segs[0], segs[1..], flag, value)),
                 [Leaf(n.lastNodeIndex, segs, value)] + NodeLeaves(n))
    decreases |segs|, 0, 1
  {
    hide NamedPath, Fits, HasPrevious, HasScalarBefore, Perm, GoodNode, Grow;
    var n', x := Grow(n, segs[0], segs[1..], flag, value), Leaf(segs[0].index, segs[1..], value);
    assert Under(n.lastNodeIndex, n.name, x) == Leaf(n.lastNodeIndex, segs, value);
    GrowBelow(n, segs, flag, value);
    UnderAllPerm(n.lastNodeIndex, n.name, Below(n'), [x] + Below(n));
    assert UnderAll(n.lastNodeIndex, n.name, [x] + Below(n)) == [Under(n.lastNodeIndex, n.name, x)]
        + UnderAll(n.lastNodeIndex, n.name, Below(n));
    NodeOverBelow(n);
    NodeOverBelow(n');
  }

  lemma {:induction false} NodeOverBelow(n: YamlNode)
    requires n.arrayFlag || n.children != []
    ensures NodeLeaves(n) == UnderAll(n.lastNodeIndex, n.name, Below(n))
  {
  }

  lemma {:induction false} GrowBelow(n: YamlNode, segs: Path, flag: bool, value: string)
    requires segs != [] && NamedPath(segs) && GoodNode(n) && n.name == segs[0].name
    requires n.arrayFlag <==> segs[0].index != -1
    requires !n.arrayFlag ==> n.children != [] && segs[1..] != []
    requires Fits(Below(n), segs[0].index, segs[1..]) && HasPrevious(Below(n), segs[0].index, segs[1..])
    requires HasScalarBefore(Below(n), segs[0].index, segs[1..])
    ensures var n' := Grow(n, segs[0], segs[1..], flag, value);
            && GoodNode(n') && n'.(children := n.children, valueList := n.valueList) == n
            && (n'.arrayFlag || n'.children != [])
            && Perm(Below(n'), [Leaf(segs[0].index, segs[1..], value)] + Below(n))
    decreases |segs|, 0, 0
  {
    hide Fits, HasPrevious, HasScalarBefore, Perm;
    var rest := segs[1..];
    assert forall i :: 0 <= i < |rest| ==> rest[i] == segs[i + 1];
    if n.arrayFlag {
      ElementLeaves(rest, n.valueList, segs[0].index, value);
    } else {
      InsertLeaves(rest, n.children, flag, -1, value);
      InsertNonempty(rest, n.children, flag, -1, value);
    }
  }

  lemma {:induction false} InsertNonempty(segs: Path, nodes: seq<YamlNode>, flag: bool, index: int, value: string)
    requires segs != []
    ensures Insert(segs, nodes, flag, index, value) != []
  {
    if i :| 0 <= i < |nodes| && Same(nodes[i], segs[0], flag, index) {
      assert Update(segs[0], segs[1..], nodes, flag, index, value) != [];
    }
  }

  /** The same for the value list of an array, where the words may be used up. */
  lemma {:induction false} ElementLeaves(rest: Path, vl: seq<YamlNode>, i: int, value: string)
    requires NamedPath(rest) && i >= 0 && GoodList(vl)
    requires Fits(ArrayLeaves(vl), i, rest) && HasPrevious(ArrayLeaves(vl), i, rest)
    requires HasScalarBefore(ArrayLeaves(vl), i, rest)
    ensures var vl' := Insert(rest, vl, true, i, value);
            vl' != [] && GoodList(vl') && Perm(ArrayLeaves(vl'), [Leaf(i, rest, value)] + ArrayLeaves(vl))
    decreases |rest|, 3
  {
    var vl', before := Insert(rest, vl, true, i, value), ArrayLeaves(vl);
    SameKind(vl, i, rest);
    if rest == [] {
      assert i == |vl|;
      assert vl' == vl + [ScalarNode(value)];
      assert ArrayLeaves(vl') == before + [Leaf(i, rest, value)];
    } else {
      InsertLeaves(rest, vl, true, i, value);
      InsertNonempty(rest, vl, true, i, value);
      assert ArrayLeaves(vl') == Leaves(vl');
    }
  }

  lemma {:induction false} FitsAt(ls: seq<Leaf>, i: int, rest: Path, k: int)
    requires Fits(ls, i, rest)
    ensures 0 <= k < |ls| ==> Apart(ls[k].index, ls[k].path, i, rest)
  {
  }

  /** A key that fits an array with elements is of the array's kind. */
  lemma {:induction false} SameKind(vl: seq<YamlNode>, i: int, rest: Path)
    requires i >= 0 && GoodList(vl) && Fits(ArrayLeaves(vl), i, rest)
    requires HasScalarBefore(ArrayLeaves(vl), i, rest)
    ensures rest == [] ==> ScalarList(vl) && i == |vl|
    ensures rest != [] ==> Good(vl, true) && ArrayLeaves(vl) == Leaves(vl)
  {
    var ls := ArrayLeaves(vl);
    if vl != [] && !ScalarList(vl) {
      LeavesIndexed(vl, true);
      NodeHasLeaf(vl[0]);
      assert Leaves(vl) == NodeLeaves(vl[0]) + Leaves(vl[1..]);
    }
    FitsAt(ls, i, rest, 0);
    FitsAt(ls, i, rest, |ls| - 1);
  }

  /** A key whose first word is new has no predecessor. */
  lemma {:induction false} NewNodeIsFirst(segs: Path, nodes: seq<YamlNode>, index: int)
    requires segs != [] && HasPrevious(Leaves(nodes), index, segs)
    requires forall i :: 0 <= i < |nodes| ==> GoodNode(nodes[i])
    requires forall m :: 0 <= m < |nodes| ==> nodes[m].name != segs[0].name || nodes[m].lastNodeIndex != index
    ensures segs[|segs| - 1].index <= 0
  {
    if segs[|segs| - 1].index > 0 {
      var w := PreviousAt(Leaves(nodes), index, segs);
      var o := LeafOwner(nodes, w);
    }
  }

  lemma {:induction false} FreshLeaves(segs: Path, nodes: seq<YamlNode>, index: int, value: string)
    requires segs != [] && NamedPath(segs) && index >= -1 && Good(nodes, index >= 0)
    requires HasPrevious(Leaves(nodes), index, segs)
    requires forall m :: 0 <= m < |nodes| ==> nodes[m].name != segs[0].name || nodes[m].lastNodeIndex != index
    ensures var n := Fresh(segs[0], segs[1..], index, value);
            n.name == segs[0].name && n.lastNodeIndex == index && GoodNode(n)
                && NodeLeaves(n) == [Leaf(index, segs, value)]
    decreases |segs|, 0
  {
    var rest, i := segs[1..], segs[0].index;
    var n := Fresh(segs[0], rest, index, value);
    var x := Leaf(i, rest, value);
    assert Under(index, n.name, x) == Leaf(index, segs, value);
    NewNodeIsFirst(segs, nodes, index);
    assert Leaves([]) == [];
    if i != -1 {
      assert ArrayLeaves([]) == [];
      ElementLeaves(rest, [], i, value);
      PermOne(ArrayLeaves(n.valueList), x);
    } else if rest != [] {
      InsertLeaves(rest, [], false, -1, value);
      InsertNonempty(rest, [], false, -1, value);
      PermOne(Leaves(n.children), x);
    }
    assert UnderAll(index, n.name, [x]) == [Leaf(index, segs, value)];
    assert i == -1 && rest == [] ==> segs == [Seg(n.name, -1)];
  }

  lemma {:induction false} PermOne<T>(a: seq<T>, x: T)
    requires Perm(a, [x] + [])
    ensures a == [x]
  {
    assert |multiset(a)| == |a|;
    assert |a| == 1 && a[0] in multiset(a);
  }

  // ----- the whole file -----

  datatype Entry = Entry(path: Path, value: string)

  function Build(es: seq<Entry>): seq<YamlNode> {
    if es == [] then []
    else Insert(es[|es| - 1].path, Build(es[..|es| - 1]), false, -1, es[|es| - 1].value)
  }

  /** The keys of a file that describes one tree. */
  ghost predicate Consistent(es: seq<Entry>) {
    && (forall i :: 0 <= i < |es| ==> es[i].path != [] && NamedPath(es[i].path))
    && (forall i, j :: 0 <= i < j < |es| ==> Compatible(es[i].path, es[j].path))
    && (forall j :: 0 <= j < |es| && es[j].path[|es[j].path| - 1].index > 0 ==> Preceded(es, j, Previous(es[j].path)))
  }

  ghost predicate Preceded(es: seq<Entry>, j: nat, p: Path) {
    exists i :: 0 <= i < j && i < |es| && es[i].path == p
  }

  function AsLeaves(es: seq<Entry>): seq<Leaf> {
    seq(|es|, i requires 0 <= i < |es| => Leaf(-1, es[i].path, es[i].value))
  }

  /** Whatever the order of the lines, the tree holds exactly the entries. */
  lemma {:induction false} BuildLeaves(es: seq<Entry>)
    requires Consistent(es)
    ensures Good(Build(es), false)
    ensures Perm(Leaves(Build(es)), AsLeaves(es))
  {
    if es != [] {
      var init, last := es[..|es| - 1], es[|es| - 1];
      InitConsistent(es);
      AsLeavesLast(es);
      BuildLeaves(init);
      EntryFits(es, Leaves(Build(init)));
      InsertLeaves(last.path, Build(init), false, -1, last.value);
      PermAppend(Leaves(Build(es)), Leaves(Build(init)), AsLeaves(init), Leaf(-1, last.path, last.value));
    }
  }

  lemma {:induction false} InitConsistent(es: seq<Entry>)
    requires es != [] && Consistent(es)
    ensures Consistent(es[..|es| - 1])
  {
    var init := es[..|es| - 1];
    forall j | 0 <= j < |init| && init[j].path[|init[j].path| - 1].index > 0
      ensures Preceded(init, j, Previous(init[j].path))
    {
      InitPreceded(es, j, Previous(es[j].path));
    }
  }

  lemma {:induction false} InitPreceded(es: seq<Entry>, j: nat, p: Path)
    requires j < |es| && Preceded(es, j, p)
    ensures Preceded(es[..|es| - 1], j, p)
  {
    var i :| 0 <= i < j && i < |es| && es[i].path == p;
    assert es[..|es| - 1][i] == es[i];
  }

  lemma {:induction false} AsLeavesLast(es: seq<Entry>)
    requires es != []
    ensures AsLeaves(es) == AsLeaves(es[..|es| - 1]) + [Leaf(-1, es[|es| - 1].path, es[|es| - 1].value)]
  {
  }

  lemma {:induction false} PermAppend<T>(a': seq<T>, a: seq<T>, b: seq<T>, x: T)
    requires Perm(a', [x] + a) && Perm(a, b)
    ensures Perm(a', b + [x])
  {
  }

  lemma {:induction false} EntryFits(es: seq<Entry>, ls: seq<Leaf>)
    requires es != [] && Consistent(es) && Perm(ls, AsLeaves(es[..|es| - 1]))
    ensures Fits(ls, -1, es[|es| - 1].path) && HasPrevious(ls, -1, es[|es| - 1].path)
  {
    var n := |es| - 1;
    var init, last := AsLeaves(es[..n]), es[n];
    forall i | 0 <= i < |ls| ensures Apart(ls[i].index, ls[i].path, -1, last.path) {
      assert ls[i] in multiset(init);
      var j :| 0 <= j < n && init[j] == ls[i];
      assert Compatible(es[j].path, es[n].path);
    }
    if last.path[|last.path| - 1].index > 0 {
      var i :| 0 <= i < n && es[i].path == Previous(last.path);
      assert init[i] in multiset(ls);
    }
  }
}
