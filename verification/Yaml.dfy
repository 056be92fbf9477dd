/** Printing the tree as YAML lines (formatPropertiesToYaml and resortValue in
    service/cfg/codec.go), and an independent reader of such lines by
    indentation and dash (block mappings and sequences, YAML 1.2 section 8.2). */
module Yaml {
  import opened Results
  import opened Sorting
  import opened Tree
  import opened Data

  // ----- resortValue -----

  function Indexes(nodes: seq<YamlNode>): seq<int> {
    seq(|nodes|, i requires 0 <= i < |nodes| => nodes[i].lastNodeIndex)
  }

  /** sort.Slice by index, the index -1 being neither less nor greater than any. */
  function Sort(o: Order, s: seq<YamlNode>): (r: seq<YamlNode>)
    ensures |r| == |s|
  {
    var p := o(Indexes(s));
    if Permutes(p, |s|) then Picked(s, p) else s
  }

  /** The tree once every value list in it has been resorted. */
  function DeepSort(o: Order, n: YamlNode): YamlNode
    decreases n, 0
  {
    n.(children := DeepSortAll(o, n.children), valueList := Sort(o, DeepSortAll(o, n.valueList)))
  }

  function DeepSortAll(o: Order, nodes: seq<YamlNode>): seq<YamlNode>
    decreases nodes, 0
  {
    seq(|nodes|, i requires 0 <= i < |nodes| => DeepSort(o, nodes[i]))
  }

  // ----- lines -----

  /** A printed line: blanks, some dashes, perhaps a key, and a value. */
  datatype Line = Line(indent: nat, dashes: nat, key: Option<string>, value: string)

  function Header(n: YamlNode, inArray: bool, indent: nat, before: int): Line {
    if !inArray then Line(indent, 0, Some(n.name), n.value)
    else if n.name == "" then Line(indent, 1, None, n.value)
    else if before != -1 && before == n.lastNodeIndex then Line(indent + 2, 0, Some(n.name), n.value)
    else Line(indent, 1, Some(n.name), n.value)
  }

  /** formatPropertiesToYaml on a sorted tree; `before` is the index of the previous node. */
  function Format(nodes: seq<YamlNode>, inArray: bool, indent: nat, before: int): seq<Line>
    decreases nodes, 0
  {
    if nodes == [] then []
    else
      [Header(nodes[0], inArray, indent, before)]
      + Inner(nodes[0], if inArray then indent + 4 else indent + 2)
      + Format(nodes[1..], inArray, indent, if inArray then nodes[0].lastNodeIndex else before)
  }

  function Inner(n: YamlNode, indent: nat): seq<Line>
    decreases n, 0
  {
    if n.arrayFlag then Format(n.valueList, true, indent, -1) else Format(n.children, false, indent, -1)
  }

  // ----- reading lines back -----

  function DeeperLen(lines: seq<Line>, c: nat): (k: nat)
    ensures k <= |lines|
  {
    if lines != [] && lines[0].indent > c then 1 + DeeperLen(lines[1..], c) else 0
  }

  /** The fields of a block mapping whose keys stand at column c. */
  function ReadFields(lines: seq<Line>, c: nat): Option<seq<Field>>
    decreases |lines|, 0, 0
  {
    if lines == [] then Some([])
    else
      var head, k := lines[0], DeeperLen(lines[1..], c);
      if head.dashes != 0 || head.indent != c || head.key == None then None
      else
        var d, rest := ReadValue(head.value, lines[1..1 + k]), ReadFields(lines[1 + k..], c);
        if d.Some? && rest.Some? then Some([Field(head.key.value, d.value)] + rest.value) else None
  }

  function ReadValue(value: string, body: seq<Line>): Option<Data>
    decreases |body|, 2, 0
  {
    if body == [] then Some(Scalar(value))
    else if value != "" then None
    else if body[0].dashes > 0 then
      var elems := ReadItems(body, body[0].indent);
      if elems.Some? then Some(List(elems.value)) else None
    else
      var fields := ReadFields(body, body[0].indent);
      if fields.Some? then Some(Map(fields.value)) else None
  }

  /** The items of a block sequence whose dashes stand at column c. */
  function ReadItems(lines: seq<Line>, c: nat): Option<seq<Data>>
    decreases |lines|, 1, if lines == [] then 0 else 2 * lines[0].dashes
  {
    if lines == [] then Some([])
    else
      var head, k := lines[0], DeeperLen(lines[1..], c);
      if head.dashes == 0 || head.indent != c then None
      else
        var item, rest := ReadItem(head, lines[1..1 + k]), ReadItems(lines[1 + k..], c);
        if item.Some? && rest.Some? then Some([item.value] + rest.value) else None
  }

  /** One item: a further dash opens a sequence two columns in, a key a mapping. */
  function ReadItem(head: Line, body: seq<Line>): Option<Data>
    requires head.dashes > 0
    decreases |body| + 1, 1, 2 * head.dashes - 1
  {
    if head.dashes > 1 then
      var elems := ReadItems([head.(indent := head.indent + 2, dashes := head.dashes - 1)] + body, head.indent + 2);
      if elems.Some? then Some(List(elems.value)) else None
    else if head.key.Some? then
      var fields := ReadFields([head.(indent := head.indent + 2, dashes := 0)] + body, head.indent + 2);
      if fields.Some? then Some(Map(fields.value)) else None
    else
      ReadValue(head.value, body)
  }

  // ----- the data a sorted tree stands for -----

  function ToFields(nodes: seq<YamlNode>): seq<Field>
    decreases nodes, 0
  {
    seq(|nodes|, i requires 0 <= i < |nodes| => Field(nodes[i].name, ToData(nodes[i])))
  }

  function ToData(n: YamlNode): Data
    decreases n, 0
  {
    if n.arrayFlag then List(ToElems(n.valueList))
    else if n.children == [] then Scalar(n.value)
    else Map(ToFields(n.children))
  }

  /** A scalar is an element; so are consecutive nodes with one index. */
  function ToElems(vl: seq<YamlNode>): seq<Data>
    decreases vl, 1
  {
    if vl == [] then []
    else if vl[0].lastNodeIndex == -1 then [Scalar(vl[0].value)] + ToElems(vl[1..])
    else
      var k := GroupLen(vl, vl[0].lastNodeIndex);
      [Map(ToFields(vl)[..k])] + ToElems(vl[k..])
  }

  function GroupLen(vl: seq<YamlNode>, index: int): (k: nat)
    ensures k <= |vl| && (vl != [] && vl[0].lastNodeIndex == index ==> k > 0)
    ensures forall i :: 0 <= i < k ==> vl[i].lastNodeIndex == index
    ensures k < |vl| ==> vl[k].lastNodeIndex != index
  {
    if vl != [] && vl[0].lastNodeIndex == index then 1 + GroupLen(vl[1..], index) else 0
  }

  // ----- reading what was printed -----

  lemma {:induction false} FormatConcat(a: seq<YamlNode>, b: seq<YamlNode>, inArray: bool, indent: nat, before: int)
    ensures Format(a + b, inArray, indent, before) ==
            Format(a, inArray, indent, before)
            + Format(b, inArray, indent, if inArray && a != [] then a[|a| - 1].lastNodeIndex else before)
    decreases |a|
  {
    if a == [] {
      assert a + b == b;
    } else {
      assert (a + b)[1..] == a[1..] + b;
      FormatConcat(a[1..], b, inArray, indent, if inArray then a[0].lastNodeIndex else before);
    }
  }

  /** The further keys of one element print as a mapping two columns in. */
  lemma {:induction false} GroupPrintsAsMap(g: seq<YamlNode>, indent: nat, index: int)
    requires index != -1 && forall i :: 0 <= i < |g| ==> g[i].lastNodeIndex == index && g[i].name != ""
    ensures Format(g, true, indent, index) == Format(g, false, indent + 2, -1)
    decreases |g|
  {
    if g != [] {
      GroupPrintsAsMap(g[1..], indent, index);
    }
  }

  ghost predicate AllDeeper(lines: seq<Line>, c: int) {
    forall i :: 0 <= i < |lines| ==> lines[i].indent > c
  }

  lemma {:induction false} FormatIndented(nodes: seq<YamlNode>, inArray: bool, indent: nat, before: int)
    ensures AllDeeper(Format(nodes, inArray, indent, before), indent - 1)
    decreases nodes, 0
  {
    if nodes != [] {
      InnerIndented(nodes[0], if inArray then indent + 4 else indent + 2);
      FormatIndented(nodes[1..], inArray, indent, if inArray then nodes[0].lastNodeIndex else before);
    }
  }

  lemma {:induction false} InnerIndented(n: YamlNode, indent: nat)
    ensures AllDeeper(Inner(n, indent), indent - 1)
    decreases n, 0
  {
    if n.arrayFlag {
      FormatIndented(n.valueList, true, indent, -1);
    } else {
      FormatIndented(n.children, false, indent, -1);
    }
  }

  lemma {:induction false} DeeperExact(body: seq<Line>, tail: seq<Line>, c: nat)
    requires AllDeeper(body, c) && (tail != [] ==> tail[0].indent <= c)
    ensures DeeperLen(body + tail, c) == |body|
    decreases |body|
  {
    if body == [] {
      assert body + tail == tail;
    } else {
      assert (body + tail)[1..] == body[1..] + tail;
      DeeperExact(body[1..], tail, c);
    }
  }

  lemma {:induction false} Sections<T>(x: T, a: seq<T>, b: seq<T>)
    ensures var s := [x] + a + b; s[1..] == a + b && s[1..1 + |a|] == a && s[1 + |a|..] == b
  {
  }

  /** A mapping's first field and the rest, split where the body ends. */
  lemma {:induction false} ReadFieldsCons(head: Line, body: seq<Line>, tail: seq<Line>, c: nat, d: Data,
      rest: seq<Field>)
    requires head.dashes == 0 && head.indent == c && head.key.Some?
    requires AllDeeper(body, c) && (tail != [] ==> tail[0].indent <= c)
    requires ReadValue(head.value, body) == Some(d) && ReadFields(tail, c) == Some(rest)
    ensures ReadFields([head] + body + tail, c) == Some([Field(head.key.value, d)] + rest)
  {
    DeeperExact(body, tail, c);
    Sections(head, body, tail);
  }

  /** A sequence's first item and the rest. */
  lemma {:induction false} ReadItemsCons(head: Line, body: seq<Line>, tail: seq<Line>, c: nat, d: Data, rest: seq<Data>)
    requires head.dashes > 0 && head.indent == c
    requires AllDeeper(body, c) && (tail != [] ==> tail[0].indent <= c)
    requires ReadItem(head, body) == Some(d) && ReadItems(tail, c) == Some(rest)
    ensures ReadItems([head] + body + tail, c) == Some([d] + rest)
  {
    DeeperExact(body, tail, c);
    Sections(head, body, tail);
  }

  // ----- trees whose lines can be read -----

  predicate IsScalarNode(n: YamlNode) { n == ScalarNode(n.value) }

  predicate ReadableAll(nodes: seq<YamlNode>)
    decreases nodes, 0
  {
    forall i :: 0 <= i < |nodes| ==> nodes[i].name != "" && ReadableNode(nodes[i])
  }

  predicate ReadableNode(n: YamlNode)
    decreases n, 0
  {
    if n.arrayFlag then n.value == "" && n.valueList != [] && ReadableList(n.valueList)
    else ReadableAll(n.children) && (n.children != [] ==> n.value == "")
  }

  /** Scalars and nodes of map elements, in any mixture. */
  predicate ReadableList(vl: seq<YamlNode>)
    decreases vl, 0
  {
    forall i :: 0 <= i < |vl| ==>
      IsScalarNode(vl[i]) || (vl[i].name != "" && vl[i].lastNodeIndex >= 0 && ReadableNode(vl[i]))
  }

  lemma {:induction false} GoodReadable(n: YamlNode)
    requires GoodNode(n)
    ensures ReadableNode(n)
    decreases n, 0
  {
    if n.arrayFlag {
      if !ScalarList(n.valueList) {
        assert Good(n.valueList, true);
        GoodAllReadable(n.valueList, true);
      }
    } else {
      GoodAllReadable(n.children, false);
    }
  }

  lemma {:induction false} GoodAllReadable(nodes: seq<YamlNode>, inArray: bool)
    requires Good(nodes, inArray)
    ensures forall i :: 0 <= i < |nodes| ==> nodes[i].name != "" && ReadableNode(nodes[i])
    decreases nodes, 0
  {
    forall i | 0 <= i < |nodes| ensures ReadableNode(nodes[i]) {
      GoodReadable(nodes[i]);
    }
  }

  lemma {:induction false} ReadFormat(nodes: seq<YamlNode>, indent: nat)
    requires ReadableAll(nodes)
    ensures ReadFields(Format(nodes, false, indent, -1), indent) == Some(ToFields(nodes))
    decreases nodes, 0
  {
    if nodes == [] {
      assert ToFields(nodes) == [];
    } else {
      var n, rest := nodes[0], nodes[1..];
      ReadFormat(rest, indent);
      ReadInner(n, indent + 2);
      PrintsField(n, rest, indent);
      ReadFieldsCons(Header(n, false, indent, -1), Inner(n, indent
          + 2), Format(rest, false, indent, -1), indent, ToData(n), ToFields(rest));
      FormatFirst(nodes, false, indent, -1);
      assert nodes == [n] + rest;
    }
  }

  lemma {:induction false} FormatFirst(nodes: seq<YamlNode>, inArray: bool, indent: nat, before: int)
    requires nodes != []
    ensures Format(nodes, inArray, indent, before)
            == [Header(nodes[0], inArray, indent, before)]
               + Inner(nodes[0], if inArray then indent + 4 else indent + 2)
               + Format(nodes[1..], inArray, indent, if inArray then nodes[0].lastNodeIndex else before)
  {
  }

  lemma {:induction false} PrintsField(n: YamlNode, rest: seq<YamlNode>, indent: nat)
    ensures AllDeeper(Inner(n, indent + 2), indent)
    ensures var tail := Format(rest, false, indent, -1); tail != [] ==> tail[0].indent == indent
    ensures ToFields([n] + rest) == [Field(n.name, ToData(n))] + ToFields(rest)
  {
    InnerIndented(n, indent + 2);
  }

  lemma {:induction false} ReadInner(n: YamlNode, indent: nat)
    requires ReadableNode(n)
    ensures ReadValue(n.value, Inner(n, indent)) == Some(ToData(n))
    decreases n, 0
  {
    if n.arrayFlag {
      ReadElems(n.valueList, indent, -1);
      StartsWithDash(n.valueList, indent, -1);
    } else if n.children != [] {
      ReadFormat(n.children, indent);
      assert Inner(n, indent)[0] == Header(n.children[0], false, indent, -1);
    }
  }

  lemma {:induction false} StartsWithDash(vl: seq<YamlNode>, indent: nat, before: int)
    requires vl != [] && (vl[0].name == "" || before == -1 || before != vl[0].lastNodeIndex)
    ensures Format(vl, true, indent, before) != []
    ensures Format(vl, true, indent, before)[0].dashes == 1 && Format(vl, true, indent, before)[0].indent == indent
  {
  }

  lemma {:induction false} ReadElems(vl: seq<YamlNode>, indent: nat, before: int)
    requires ReadableList(vl) && (vl != [] && vl[0].lastNodeIndex >= 0 ==> before != vl[0].lastNodeIndex)
    ensures ReadItems(Format(vl, true, indent, before), indent) == Some(ToElems(vl))
    decreases vl, 1
  {
    hide ReadFields, ReadableAll, ReadItem;
    if vl != [] {
      if IsScalarNode(vl[0]) {
        ReadElems(vl[1..], indent, -1);
        ReadTextElem(vl, indent, before);
      } else {
        var k := GroupLen(vl, vl[0].lastNodeIndex);
        var g, rest := vl[..k], vl[k..];
        ReadElems(rest, indent, vl[0].lastNodeIndex);
        if k == |vl| { assert g == vl; }
        GroupParts(vl, g, rest);
        ReadFormat(g, indent + 2);
        ReadElement(vl, g, rest, indent, before, ToElems(rest));
        assert ToFields(vl)[..k] == ToFields(g);
      }
    }
  }

  lemma {:induction false} ReadTextElem(vl: seq<YamlNode>, indent: nat, before: int)
    requires vl != [] && IsScalarNode(vl[0])
    requires ReadableList(vl) && ReadItems(Format(vl[1..], true, indent, -1), indent) == Some(ToElems(vl[1..]))
    ensures ReadItems(Format(vl, true, indent, before), indent) == Some(ToElems(vl))
  {
    var n, rest := vl[0], vl[1..];
    FormatFirst(vl, true, indent, before);
    assert Inner(n, indent + 4) == [];
    if rest != [] {
      StartsWithDash(rest, indent, -1);
    }
    ReadItemsCons(Header(n, true, indent, before), [], Format(rest, true, indent, -1), indent, Scalar(n.value),
        ToElems(rest));
  }

  /** The nodes of one element, and those after them. */
  lemma {:induction false} GroupParts(vl: seq<YamlNode>, g: seq<YamlNode>, rest: seq<YamlNode>)
    requires vl != [] && !IsScalarNode(vl[0]) && ReadableList(vl)
    requires |g| == GroupLen(vl, vl[0].lastNodeIndex) && g == vl[..|g|] && rest == vl[|g|..]
    ensures vl == g + rest && g != [] && g[0] == vl[0] && ReadableAll(g)
    ensures forall i :: 0 <= i < |g| ==> g[i].lastNodeIndex == g[0].lastNodeIndex && g[i].name != ""
    ensures rest != [] ==> rest[0].lastNodeIndex != g[0].lastNodeIndex
  {
  }

  lemma {:induction false} ReadElement(vl: seq<YamlNode>, g: seq<YamlNode>, rest: seq<YamlNode>, indent: nat,
      before: int, elems: seq<Data>)
    requires vl == g + rest
    requires g != [] && g[0].lastNodeIndex >= 0 && before != g[0].lastNodeIndex
    requires forall i :: 0 <= i < |g| ==> g[i].lastNodeIndex == g[0].lastNodeIndex && g[i].name != ""
    requires rest != [] ==> rest[0].lastNodeIndex != g[0].lastNodeIndex
    requires ReadFields(Format(g, false, indent + 2, -1), indent + 2) == Some(ToFields(g))
    requires ReadItems(Format(rest, true, indent, g[0].lastNodeIndex), indent) == Some(elems)
    ensures ReadItems(Format(vl, true, indent, before), indent) == Some([Map(ToFields(g))] + elems)
  {
    hide ReadFields, ToFields, Header, ReadItems;
    PrintsElement(g, rest, indent, before);
    ReadItemsCons(Header(g[0], true, indent, before), ElementBody(g, indent),
                  Format(rest, true, indent, g[0].lastNodeIndex), indent, Map(ToFields(g)), elems);
  }

  function ElementBody(g: seq<YamlNode>, indent: nat): seq<Line>
    requires g != []
  {
    Inner(g[0], indent + 4) + Format(g[1..], false, indent + 2, -1)
  }

  /** One element prints as a dash line and a body that, with the dash line read
      as a key two columns in, is the printed mapping. */
  lemma {:induction false} PrintsElement(g: seq<YamlNode>, rest: seq<YamlNode>, indent: nat, before: int)
    requires g != [] && g[0].lastNodeIndex >= 0 && before != g[0].lastNodeIndex
    requires forall i :: 0 <= i < |g| ==> g[i].lastNodeIndex == g[0].lastNodeIndex && g[i].name != ""
    requires rest != [] ==> rest[0].lastNodeIndex != g[0].lastNodeIndex
    ensures var i := g[0].lastNodeIndex;
            var head, body := Header(g[0], true, indent, before), ElementBody(g, indent);
            && Format(g + rest, true, indent, before) == [head] + body + Format(rest, true, indent, i)
            && Format(g, false, indent + 2, -1) == [Line(indent + 2, 0, head.key, head.value)] + body
            && AllDeeper(body, indent) && head == Line(indent, 1, Some(g[0].name), g[0].value)
            && (rest != [] ==> Format(rest, true, indent, i)[0].indent == indent)
  {
    PrintsDash(g, indent, before);
    FormatConcat(g, rest, true, indent, before);
    InnerIndented(g[0], indent + 4);
    FormatIndented(g[1..], false, indent + 2, -1);
    if rest != [] {
      StartsWithDash(rest, indent, g[0].lastNodeIndex);
    }
  }

  lemma {:induction false} PrintsDash(g: seq<YamlNode>, indent: nat, before: int)
    requires g != [] && g[0].lastNodeIndex >= 0 && before != g[0].lastNodeIndex
    requires forall i :: 0 <= i < |g| ==> g[i].lastNodeIndex == g[0].lastNodeIndex && g[i].name != ""
    ensures Format(g, true, indent, before) == [Line(indent, 1, Some(g[0].name), g[0].value)] + ElementBody(g, indent)
    ensures Format(g, false, indent + 2, -1) == [Line(indent + 2, 0, Some(g[0].name), g[0].value)]
        + ElementBody(g, indent)
  {
    GroupPrintsAsMap(g[1..], indent, g[0].lastNodeIndex);
  }
}
