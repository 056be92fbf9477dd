/** The text of the YAML lines: formatPropertiesToYaml and resortValue as they
    loop over nodes, and a reader of the printed text. */
module Printer {
  import opened Sorting
  import opened Tree
  import opened Yaml
  import opened Resort

  function Spaces(n: nat): string { seq(n, _ => ' ') }

  predicate Bracketed(v: string) { v != "" && v[0] == '[' && v[|v| - 1] == ']' }

  /** stringValueWrap. */
  function Wrap(v: string): string {
    if Bracketed(v) then "'" + v + "'" else v
  }

  function Dashes(n: nat): string { if n == 0 then "" else "- " + Dashes(n - 1) }

  function Render(l: Line): string {
    Spaces(l.indent) + Dashes(l.dashes) +
    (if l.key.Some? then l.key.value + ":" + (if l.value == "" then "" else " " + Wrap(l.value)) else Wrap(l.value))
  }

  function RenderAll(ls: seq<Line>): seq<string> {
    seq(|ls|, i requires 0 <= i < |ls| => Render(ls[i]))
  }

  // ----- resortValue -----

  /** resortValue descends through value lists only. */
  function Resorted(o: Order, n: YamlNode): YamlNode
    decreases n, 0
  {
    if !n.arrayFlag || n.valueList == [] then n else n.(valueList := Sort(o, ResortedAll(o, n.valueList)))
  }

  function ResortedAll(o: Order, nodes: seq<YamlNode>): seq<YamlNode>
    decreases nodes, 0
  {
    seq(|nodes|, i requires 0 <= i < |nodes| => Resorted(o, nodes[i]))
  }

  method ResortValue(o: Order, n: YamlNode) returns (r: YamlNode)
    ensures r == Resorted(o, n)
    decreases n
  {
    if !n.arrayFlag || n.valueList == [] {
      return n;
    }
    var vl := Sort(o, n.valueList);
    ghost var sorted := vl;
    for i := 0 to |vl|
      invariant |vl| == |sorted|
      invariant forall j :: 0 <= j < |vl| ==> vl[j] == if j < i then Resorted(o, sorted[j]) else sorted[j]
    {
      SortMember(o, n.valueList, i);
      var node := ResortValue(o, vl[i]);
      vl := vl[i := node];
    }
    SortResorted(o, n.valueList);
    assert vl == ResortedAll(o, sorted);
    r := n.(valueList := vl);
  }

  /** Sorting looks at the indexes alone, so it commutes with what keeps them. */
  lemma {:induction false} SortResorted(o: Order, s: seq<YamlNode>)
    ensures Sort(o, ResortedAll(o, s)) == ResortedAll(o, Sort(o, s))
  {
    assert Indexes(ResortedAll(o, s)) == Indexes(s);
  }

  lemma {:induction false} SortDeepSorted(o: Order, s: seq<YamlNode>)
    ensures Sort(o, DeepSortAll(o, s)) == DeepSortAll(o, Sort(o, s))
  {
    assert Indexes(DeepSortAll(o, s)) == Indexes(s);
  }

  /** Resorting first changes nothing about the deeply sorted tree. */
  lemma {:induction false} DeepSortResorted(o: Order, n: YamlNode)
    requires Sorts(o) && GoodNode(n)
    ensures DeepSort(o, Resorted(o, n)) == DeepSort(o, n)
    ensures n.arrayFlag ==> DeepSortAll(o, Resorted(o, n).valueList) == DeepSort(o, n).valueList
    decreases n, 0
  {
    if n.arrayFlag {
      var vl := n.valueList;
      ListUniform(vl);
      DeepSortResortedAll(o, vl);
      SortDeepSorted(o, ResortedAll(o, vl));
      assert Indexes(DeepSortAll(o, vl)) == Indexes(vl);
      SortTwice(o, DeepSortAll(o, vl));
    }
  }

  lemma {:induction false} ListUniform(vl: seq<YamlNode>)
    requires GoodList(vl)
    ensures Uniform(Indexes(vl)) && forall i :: 0 <= i < |vl| ==> GoodNode(vl[i])
  {
    if ScalarList(vl) {
      assert forall i :: 0 <= i < |vl| ==> Indexes(vl)[i] == -1;
    } else {
      GoodUniform(vl);
    }
  }

  lemma {:induction false} DeepSortResortedAll(o: Order, nodes: seq<YamlNode>)
    requires Sorts(o) && forall i :: 0 <= i < |nodes| ==> GoodNode(nodes[i])
    ensures DeepSortAll(o, ResortedAll(o, nodes)) == DeepSortAll(o, nodes)
    decreases nodes, 0
  {
    forall i | 0 <= i < |nodes| ensures DeepSort(o, Resorted(o, nodes[i])) == DeepSort(o, nodes[i]) {
      DeepSortResorted(o, nodes[i]);
    }
  }

  lemma {:induction false} ResortedGood(o: Order, n: YamlNode)
    requires Sorts(o) && GoodNode(n)
    ensures GoodNode(Resorted(o, n))
    decreases n, 0
  {
    if n.arrayFlag {
      var vl := n.valueList;
      ListUniform(vl);
      if ScalarList(vl) {
        assert ResortedAll(o, vl) == vl;
        SortScalars(o, vl);
      } else {
        ResortedAllGood(o, vl);
        SortGood(o, ResortedAll(o, vl));
      }
    }
  }

  lemma {:induction false} ResortedAllGood(o: Order, vl: seq<YamlNode>)
    requires Sorts(o) && Good(vl, true)
    ensures Good(ResortedAll(o, vl), true)
    decreases vl, 0
  {
    forall i | 0 <= i < |vl| ensures GoodNode(Resorted(o, vl[i])) {
      ResortedGood(o, vl[i]);
    }
  }

  // ----- formatPropertiesToYaml -----

  /** The number of nodes, a measure that resorting keeps. */
  function Size(n: YamlNode): nat
    decreases n, 0
  {
    1 + SizeAll(n.children) + SizeAll(n.valueList)
  }

  function SizeAll(nodes: seq<YamlNode>): nat
    decreases nodes, 0
  {
    if nodes == [] then 0 else Size(nodes[0]) + SizeAll(nodes[1..])
  }

  lemma {:induction false} SizeConcat(a: seq<YamlNode>, b: seq<YamlNode>)
    ensures SizeAll(a + b) == SizeAll(a) + SizeAll(b)
    decreases |a|
  {
    if a == [] {
      assert a + b == b;
    } else {
      assert (a + b)[1..] == a[1..] + b;
      SizeConcat(a[1..], b);
    }
  }

  lemma {:induction false} SizePerm(a: seq<YamlNode>, b: seq<YamlNode>)
    requires Perm(a, b)
    ensures SizeAll(a) == SizeAll(b)
    decreases |a|
  {
    if a == [] {
      assert |multiset(b)| == 0;
    } else {
      assert a == [a[0]] + a[1..];
      var j := PermRemove(a[0], a[1..], b);
      SizePerm(a[1..], b[..j] + b[j + 1..]);
      SizeConcat(b[..j], b[j + 1..]);
      SizeConcat(b[..j], b[j..]);
      assert b == b[..j] + b[j..] && b[j..][1..] == b[j + 1..];
    }
  }

  lemma {:induction false} SizeResorted(o: Order, n: YamlNode)
    ensures Size(Resorted(o, n)) == Size(n)
    decreases n, 0
  {
    if n.arrayFlag && n.valueList != [] {
      SizeResortedAll(o, n.valueList);
      SortPerm(o, ResortedAll(o, n.valueList));
      SizePerm(Sort(o, ResortedAll(o, n.valueList)), ResortedAll(o, n.valueList));
    }
  }

  lemma {:induction false} SizeResortedAll(o: Order, s: seq<YamlNode>)
    ensures SizeAll(ResortedAll(o, s)) == SizeAll(s)
    decreases s, 0
  {
    if s != [] {
      SizeResorted(o, s[0]);
      SizeResortedAll(o, s[1..]);
      assert ResortedAll(o, s)[1..] == ResortedAll(o, s[1..]);
    }
  }

  lemma {:induction false} SizeMember(nodes: seq<YamlNode>, i: nat)
    requires i < |nodes|
    ensures Size(nodes[i]) <= SizeAll(nodes)
  {
    if i > 0 {
      SizeMember(nodes[1..], i - 1);
    }
  }

  /** The lines of some nodes, each resorted before its inside is printed. */
  function Printed(o: Order, nodes: seq<YamlNode>, inArray: bool, indent: nat, before: int): seq<Line>
    decreases SizeAll(nodes), 1
  {
    if nodes == [] then []
    else
      [Header(nodes[0], inArray, indent, before)]
      + PrintedInside(o, nodes[0], if inArray then indent + 4 else indent + 2)
      + Printed(o, nodes[1..], inArray, indent, if inArray then nodes[0].lastNodeIndex else before)
  }

  function PrintedInside(o: Order, n: YamlNode, indent: nat): seq<Line>
    decreases Size(n), 0
  {
    var r := Resorted(o, n);
    SizeResorted(o, n);
    if r.arrayFlag then Printed(o, r.valueList, true, indent, -1) else Printed(o, r.children, false, indent, -1)
  }

  /** In a well-formed tree these are the lines of the tree sorted throughout. */
  lemma {:induction false} PrintedSorted(o: Order, nodes: seq<YamlNode>, inArray: bool, indent: nat, before: int)
    requires Sorts(o) && forall i :: 0 <= i < |nodes| ==> GoodNode(nodes[i])
    ensures Printed(o, nodes, inArray, indent, before) == Format(DeepSortAll(o, nodes), inArray, indent, before)
    decreases SizeAll(nodes), 1
  {
    hide GoodNode, Sorts, Inner, PrintedInside;
    if nodes != [] {
      InsideSorted(o, nodes[0], if inArray then indent + 4 else indent + 2);
      PrintedSorted(o, nodes[1..], inArray, indent, if inArray then nodes[0].lastNodeIndex else before);
      DeepSortRest(o, nodes);
    }
  }

  lemma {:induction false} DeepSortRest(o: Order, nodes: seq<YamlNode>)
    requires nodes != []
    ensures DeepSortAll(o, nodes)[0] == DeepSort(o, nodes[0])
        && DeepSortAll(o, nodes)[1..] == DeepSortAll(o, nodes[1..])
  {
  }

  lemma {:induction false} InsideSorted(o: Order, n: YamlNode, indent: nat)
    requires Sorts(o) && GoodNode(n)
    ensures PrintedInside(o, n, indent) == Inner(DeepSort(o, n), indent)
    decreases Size(n), 0
  {
    var r := Resorted(o, n);
    SizeResorted(o, n);
    ResortedGood(o, n);
    DeepSortResorted(o, n);
    if r.arrayFlag {
      ListUniform(r.valueList);
      PrintedSorted(o, r.valueList, true, indent, -1);
    } else {
      assert Good(r.children, false);
      PrintedSorted(o, r.children, false, indent, -1);
    }
  }

  /** No list below has comparable indexes out of order, so no sort moves anything. */
  ghost predicate Steady(nodes: seq<YamlNode>)
    decreases nodes, 0
  {
    forall i :: 0 <= i < |nodes| ==> SteadyNode(nodes[i])
  }

  ghost predicate SteadyNode(n: YamlNode)
    decreases n, 0
  {
    NoInversion(Indexes(n.valueList)) && Steady(n.valueList) && Steady(n.children)
  }

  lemma {:induction false} SteadyStays(o: Order, n: YamlNode)
    requires Sorts(o) && SteadyNode(n)
    ensures Resorted(o, n) == n
    decreases n, 0
  {
    if n.arrayFlag && n.valueList != [] {
      forall i | 0 <= i < |n.valueList| ensures Resorted(o, n.valueList[i]) == n.valueList[i] {
        SteadyStays(o, n.valueList[i]);
      }
      assert ResortedAll(o, n.valueList) == n.valueList;
      SortStays(o, n.valueList);
    }
  }

  lemma {:induction false} PrintedSteady(o: Order, nodes: seq<YamlNode>, inArray: bool, indent: nat, before: int)
    requires Sorts(o) && Steady(nodes)
    ensures Printed(o, nodes, inArray, indent, before) == Format(nodes, inArray, indent, before)
    decreases SizeAll(nodes), 1
  {
    if nodes != [] {
      InsideSteady(o, nodes[0], if inArray then indent + 4 else indent + 2);
      PrintedSteady(o, nodes[1..], inArray, indent, if inArray then nodes[0].lastNodeIndex else before);
    }
  }

  lemma {:induction false} InsideSteady(o: Order, n: YamlNode, indent: nat)
    requires Sorts(o) && SteadyNode(n)
    ensures PrintedInside(o, n, indent) == Inner(n, indent)
    decreases Size(n), 0
  {
    SteadyStays(o, n);
    if n.arrayFlag {
      PrintedSteady(o, n.valueList, true, indent, -1);
    } else {
      PrintedSteady(o, n.children, false, indent, -1);
    }
  }

  lemma {:induction false} PrintedConcat(o: Order, a: seq<YamlNode>, b: seq<YamlNode>, inArray: bool, indent: nat,
      before: int)
    ensures Printed(o, a + b, inArray, indent, before) ==
            Printed(o, a, inArray, indent, before)
            + Printed(o, b, inArray, indent, if inArray && a != [] then a[|a| - 1].lastNodeIndex else before)
    decreases |a|
  {
    if a == [] {
      assert a + b == b;
    } else {
      assert (a + b)[1..] == a[1..] + b;
      PrintedConcat(o, a[1..], b, inArray, indent, if inArray then a[0].lastNodeIndex else before);
    }
  }

  /** formatPropertiesToYaml: prints the nodes, resorting each before it is entered. */
  method FormatPropertiesToYaml(o: Order, yamlLineList: seq<string>, yamlNodes: seq<YamlNode>, lastNodeArrayFlag: bool,
                                blanks: string, ghost indent: nat)
    returns (lines: seq<string>)
    requires blanks == Spaces(indent)
    ensures lines == yamlLineList + RenderAll(Printed(o, yamlNodes, lastNodeArrayFlag, indent, -1))
    decreases SizeAll(yamlNodes), 1
  {
    lines := yamlLineList;
    var beforeNodeIndex := -1;
    for i := 0 to |yamlNodes|
      invariant lines == yamlLineList + RenderAll(Printed(o, yamlNodes[..i], lastNodeArrayFlag, indent, -1))
      invariant beforeNodeIndex == if lastNodeArrayFlag && i > 0 then yamlNodes[i - 1].lastNodeIndex else -1
    {
      SizeMember(yamlNodes, i);
      lines := FormatNode(o, lines, yamlNodes[i], lastNodeArrayFlag, beforeNodeIndex, blanks, indent);
      PrintedLast(o, yamlNodes, i, lastNodeArrayFlag, indent, beforeNodeIndex, yamlLineList);
      if lastNodeArrayFlag {
        beforeNodeIndex := yamlNodes[i].lastNodeIndex;
      }
    }
    assert yamlNodes[..|yamlNodes|] == yamlNodes;
  }

  /** The body of its loop: one node's line, then what the resorted node holds. */
  method FormatNode(o: Order, yamlLineList: seq<string>, yamlNode: YamlNode, lastNodeArrayFlag: bool,
      beforeNodeIndex: int, blanks: string, ghost indent: nat)
    returns (lines: seq<string>)
    requires blanks == Spaces(indent)
    ensures lines == yamlLineList + [Render(Header(yamlNode, lastNodeArrayFlag, indent, beforeNodeIndex))]
                     + RenderAll(PrintedInside(o, yamlNode, if lastNodeArrayFlag then indent + 4 else indent + 2))
    decreases Size(yamlNode), 0
  {
    var line := HeaderText(yamlNode, lastNodeArrayFlag, beforeNodeIndex, blanks, indent);
    lines := yamlLineList + [line];
    var node := ResortValue(o, yamlNode);
    SizeResorted(o, yamlNode);
    SpacesConcat(2, indent);
    SpacesConcat(4, indent);
    var inner := if lastNodeArrayFlag then "    " + blanks else "  " + blanks;
    ghost var k := if lastNodeArrayFlag then indent + 4 else indent + 2;
    if node.arrayFlag {
      lines := FormatPropertiesToYaml(o, lines, node.valueList, true, inner, k);
    } else {
      lines := FormatPropertiesToYaml(o, lines, node.children, false, inner, k);
    }
  }

  method HeaderText(yamlNode: YamlNode, lastNodeArrayFlag: bool, beforeNodeIndex: int, blanks: string,
      ghost indent: nat)
    returns (line: string)
    requires blanks == Spaces(indent)
    ensures line == Render(Header(yamlNode, lastNodeArrayFlag, indent, beforeNodeIndex))
  {
    SpacesConcat(indent, 2);
    var name, value := yamlNode.name, yamlNode.value;
    var equalSign := if value != "" then ": " else ":";
    if lastNodeArrayFlag {
      if name == "" {
        line := blanks + "- " + Wrap(value);
      } else if -1 != beforeNodeIndex && beforeNodeIndex == yamlNode.lastNodeIndex {
        line := blanks + "  " + name + equalSign + Wrap(value);
      } else {
        line := blanks + "- " + name + equalSign + Wrap(value);
      }
    } else {
      line := blanks + name + equalSign + Wrap(value);
    }
    RenderHeader(yamlNode, lastNodeArrayFlag, beforeNodeIndex, indent, equalSign);
  }

  lemma {:induction false} RenderHeader(n: YamlNode, inArray: bool, before: int, indent: nat, equalSign: string)
    requires equalSign == if n.value != "" then ": " else ":"
    ensures Render(Header(n, inArray, indent, before)) ==
            var blanks := Spaces(indent);
            if !inArray then blanks + n.name + equalSign + Wrap(n.value)
            else if n.name == "" then blanks + "- " + Wrap(n.value)
            else if before != -1 && before == n.lastNodeIndex then blanks + "  " + n.name + equalSign + Wrap(n.value)
            else blanks + "- " + n.name + equalSign + Wrap(n.value)
  {
    hide Bracketed, Wrap, Spaces;
    var l := Header(n, inArray, indent, before);
    WrapNothing(n.value);
    SpacesAndTwo(indent);
    assert Dashes(0) == "" && Dashes(1) == "- " + Dashes(0) == "- ";
    if l.key.Some? {
      KeyText(Spaces(l.indent) + Dashes(l.dashes), n.name, Wrap(n.value));
    }
  }

  lemma {:induction false} KeyText(front: string, name: string, value: string)
    ensures front + (name + ":" + (" " + value)) == front + name + ": " + value
    ensures front + (name + ":" + "") == front + name + ":" + ""
  {
  }

  lemma {:induction false} WrapNothing(v: string)
    ensures v == "" ==> Wrap(v) == ""
  {
  }

  lemma {:induction false} SpacesAndTwo(indent: nat)
    ensures Spaces(indent + 2) == Spaces(indent) + "  "
  {
  }

  lemma {:induction false} SpacesConcat(a: nat, b: nat)
    ensures Spaces(a) + Spaces(b) == Spaces(a + b)
    ensures Spaces(2) == "  " && Spaces(4) == "    "
  {
  }

  lemma {:induction false} PrintedNext(o: Order, nodes: seq<YamlNode>, i: nat, inArray: bool, indent: nat, before: int)
    requires i < |nodes| && before == if inArray && i > 0 then nodes[i - 1].lastNodeIndex else -1
    ensures Printed(o, nodes[..i + 1], inArray, indent, -1)
            == Printed(o, nodes[..i], inArray, indent, -1)
               + ([Header(nodes[i], inArray, indent, before)]
                  + PrintedInside(o, nodes[i], if inArray then indent + 4 else indent + 2))
  {
    assert nodes[..i + 1] == nodes[..i] + [nodes[i]];
    PrintedConcat(o, nodes[..i], [nodes[i]], inArray, indent, -1);
    PrintedOne(o, nodes[i], inArray, indent, before);
  }

  lemma {:induction false} PrintedOne(o: Order, n: YamlNode, inArray: bool, indent: nat, before: int)
    ensures Printed(o, [n], inArray, indent, before)
            == [Header(n, inArray, indent, before)] + PrintedInside(o, n, if inArray then indent + 4 else indent + 2)
  {
  }

  lemma {:induction false} RenderMore(first: seq<string>, a: seq<Line>, h: Line, b: seq<Line>)
    ensures first + RenderAll(a + ([h] + b)) == first + RenderAll(a) + [Render(h)] + RenderAll(b)
  {
    assert RenderAll(a + ([h] + b)) == RenderAll(a) + ([Render(h)] + RenderAll(b));
  }

  lemma {:induction false} PrintedLast(o: Order, nodes: seq<YamlNode>, i: nat, inArray: bool, indent: nat, before: int,
                                       first: seq<string>)
    requires i < |nodes| && before == if inArray && i > 0 then nodes[i - 1].lastNodeIndex else -1
    ensures first + RenderAll(Printed(o, nodes[..i + 1], inArray, indent, -1))
            == first + RenderAll(Printed(o, nodes[..i], inArray, indent, -1))
               + [Render(Header(nodes[i], inArray, indent, before))]
               + RenderAll(PrintedInside(o, nodes[i], if inArray then indent + 4 else indent + 2))
  {
    PrintedNext(o, nodes, i, inArray, indent, before);
    RenderMore(first, Printed(o, nodes[..i], inArray, indent, -1), Header(nodes[i], inArray, indent, before),
               PrintedInside(o, nodes[i], if inArray then indent + 4 else indent + 2));
  }
}
