/** A reader of YAML text by layout: block mappings and sequences by indentation
    and dash (YAML 1.2, section 8.2), with plain and single-quoted scalars on one
    line (sections 7.3.2 and 7.3.3), and the proof that it undoes the printer. */
module YamlText {
  import opened Text
  import opened Results
  import opened Tree
  import opened Data
  import opened Yaml
  import opened Printer

  predicate Blank(c: char) { c == ' ' || c == '\t' }

  /** Indentation is made of spaces alone. */
  function Blanks(s: string): (n: nat)
    ensures n <= |s|
  {
    if s != "" && s[0] == ' ' then 1 + Blanks(s[1..]) else 0
  }

  /** The colon that ends a key: one followed by a blank or by the end. */
  function KeyEnd(s: string): (i: int)
    ensures -1 <= i < |s|
  {
    if s == "" then -1
    else if s[0] == ':' && (|s| == 1 || Blank(s[1])) then 0
    else
      var i := KeyEnd(s[1..]);
      if i < 0 then -1 else i + 1
  }

  // ----- scalars -----

  function Strip(s: string): string {
    if s != "" && Blank(s[0]) then Strip(s[1..])
    else if s != "" && Blank(s[|s| - 1]) then Strip(s[..|s| - 1])
    else s
  }

  /** The text cannot begin a plain scalar. */
  predicate Indicator(s: string)
    requires s != ""
  {
    || s[0] in ",[]{}#&*!|>'\"%@`"
    || (s[0] in "-?:" && (|s| == 1 || Blank(s[1])))
  }

  predicate HasComment(s: string) {
    exists i :: 0 < i < |s| && s[i] == '#' && Blank(s[i - 1])
  }

  predicate Plain(s: string) {
    && s != "" && !Indicator(s) && !Blank(s[0]) && !Blank(s[|s| - 1])
    && KeyEnd(s) < 0 && !HasComment(s) && '\n' !in s && '\r' !in s
  }

  predicate Quoted(s: string) {
    |s| >= 2 && s[0] == '\'' && s[|s| - 1] == '\'' && '\'' !in s[1..|s| - 1] && '\n' !in s && '\r' !in s
  }

  function ReadScalar(text: string): Option<string> {
    var s := Strip(text);
    if s == "" then Some("")
    else if Quoted(s) then Some(s[1..|s| - 1])
    else if Plain(s) then Some(s)
    else None
  }

  // ----- lines -----

  predicate StartsDash(s: string) { s != "" && s[0] == '-' && (|s| == 1 || s[1] == ' ') }

  function AfterDash(s: string): string
    requires StartsDash(s)
  {
    if |s| == 1 then "" else s[2..]
  }

  /** Dashes are layout, however many stand before the key or value. */
  function ParseDashes(indent: nat, dashes: nat, s: string): Option<Line>
    decreases |s|
  {
    if StartsDash(s) then ParseDashes(indent, dashes + 1, AfterDash(s)) else ParseBody(indent, dashes, s)
  }

  function ParseBody(indent: nat, dashes: nat, s: string): Option<Line> {
    if s != "" && s[0] == ' ' then None
    else
      var e := if s != "" && s[0] == '\'' then -1 else KeyEnd(s);
      var value := ReadScalar(s[e + 1..]);
      if value == None then None
      else if e < 0 then Some(Line(indent, dashes, None, value.value))
      else if Plain(s[..e]) then Some(Line(indent, dashes, Some(s[..e]), value.value))
      else None
  }

  /** The line starts or ends a document (section 9.1). */
  predicate Marker(s: string) {
    |s| >= 3 && (s[..3] == "---" || s[..3] == "...") && (|s| == 3 || Blank(s[3]))
  }

  function ParseLine(s: string): Option<Line> {
    if Marker(s) then None else ParseDashes(Blanks(s), 0, s[Blanks(s)..])
  }

  function ParseLines(lines: seq<string>): Option<seq<Line>> {
    if lines == [] then Some([])
    else if Blanks(lines[0]) == |lines[0]| then ParseLines(lines[1..])
    else
      var l, rest := ParseLine(lines[0]), ParseLines(lines[1..]);
      if l.Some? && rest.Some? then Some([l.value] + rest.value) else None
  }

  /** The top-level mapping of a document; blank lines do not count. */
  function ReadYaml(text: string): Option<seq<Field>> {
    var lines := ParseLines(Split(text, '\n'));
    if lines.Some? then ReadFields(lines.value, 0) else None
  }

  // ----- what can be printed and read back -----

  predicate YamlKey(name: string) { Plain(name) && !Marker(name) }

  /** Nothing, a plain scalar, or one that is printed in quotes and holds none. */
  predicate YamlValue(v: string) {
    || v == "" || Plain(v)
    || (v[0] == '[' && v[|v| - 1] == ']' && '\'' !in v && '\n' !in v && '\r' !in v)
  }

  predicate CleanLine(l: Line) {
    (l.key.Some? ==> YamlKey(l.key.value)) && (l.key == None ==> l.dashes > 0) && YamlValue(l.value)
  }

  lemma {:induction false} ReadWrapped(v: string)
    requires YamlValue(v)
    ensures ReadScalar(Wrap(v)) == Some(v) && ReadScalar(" " + Wrap(v)) == Some(v)
  {
    var w := Wrap(v);
    assert (" " + w)[1..] == w;
    assert Strip(" " + w) == Strip(w);
    if Bracketed(v) {
      assert w[1..|w| - 1] == v;
    }
  }

  lemma {:induction false} KeyEndOf(name: string, rest: string)
    requires KeyEnd(name) < 0 && (rest == "" || rest[0] == ' ')
    ensures KeyEnd(name + ":" + rest) == |name|
  {
    var s := name + ":" + rest;
    if name == "" {
      assert s == ":" + rest;
    } else {
      assert s[1..] == name[1..] + ":" + rest;
      KeyEndOf(name[1..], rest);
    }
  }

  lemma {:induction false} BlanksOf(n: nat, s: string)
    requires s == "" || s[0] != ' '
    ensures Blanks(Spaces(n) + s) == n
  {
    if n == 0 {
      assert Spaces(n) + s == s;
    } else {
      assert (Spaces(n) + s)[1..] == Spaces(n - 1) + s;
      BlanksOf(n - 1, s);
    }
  }

  function Body(l: Line): string {
    if l.key.Some? then l.key.value + ":" + Tail(l.value) else Wrap(l.value)
  }

  function Tail(value: string): string { if value == "" then "" else " " + Wrap(value) }

  lemma {:induction false} KeyedStart(key: string, tail: string)
    requires YamlKey(key)
    ensures var s := key + ":" + tail; s[0] == key[0] && s[0] != ' ' && s[0] != '\'' && !StartsDash(s)
  {
    assert (key + ":" + tail)[1] == if |key| > 1 then key[1] else ':';
  }

  lemma {:induction false} ParseKeyed(indent: nat, dashes: nat, s: string, e: nat, value: string)
    requires s != "" && s[0] != ' ' && s[0] != '\'' && KeyEnd(s) == e
    requires e < |s| && ReadScalar(s[e + 1..]) == Some(value) && Plain(s[..e])
    ensures ParseBody(indent, dashes, s) == Some(Line(indent, dashes, Some(s[..e]), value))
  {
    hide ReadScalar, KeyEnd, Plain;
  }

  lemma {:induction false} KeyedBody(indent: nat, dashes: nat, key: string, value: string)
    requires YamlKey(key) && YamlValue(value)
    ensures ParseBody(indent, dashes, key + ":" + Tail(value)) == Some(Line(indent, dashes, Some(key), value))
  {
    hide ParseBody, ReadScalar, KeyEnd;
    var s := key + ":" + Tail(value);
    KeyedStart(key, Tail(value));
    KeyEndOf(key, Tail(value));
    ReadWrapped(value);
    assert s[..|key|] == key && s[|key| + 1..] == Tail(value);
    ParseKeyed(indent, dashes, s, |key|, value);
  }

  lemma {:induction false} LoneStart(value: string)
    requires YamlValue(value)
    ensures !StartsDash(Wrap(value)) && (Wrap(value) != "" ==> Wrap(value)[0] != ' ')
    ensures Wrap(value) == "" || Wrap(value)[0] == '\'' || KeyEnd(Wrap(value)) < 0
  {
  }

  lemma {:induction false} ParseLone(indent: nat, dashes: nat, s: string, value: string)
    requires s != "" ==> s[0] != ' ' && (s[0] == '\'' || KeyEnd(s) < 0)
    requires ReadScalar(s) == Some(value)
    ensures ParseBody(indent, dashes, s) == Some(Line(indent, dashes, None, value))
  {
    hide ReadScalar, KeyEnd, Plain;
    assert s[0..] == s;
  }

  /** A clean line without its blanks and dashes. */
  lemma {:induction false} ParseBodyOf(l: Line)
    requires CleanLine(l)
    ensures !StartsDash(Body(l)) && ParseBody(l.indent, l.dashes, Body(l)) == Some(l)
    ensures Body(l) != "" ==> Body(l)[0] != ' '
    ensures l.dashes == 0 ==> Body(l) != ""
  {
    if l.key.Some? {
      KeyedStart(l.key.value, Tail(l.value));
      KeyedBody(l.indent, l.dashes, l.key.value, l.value);
    } else {
      LoneStart(l.value);
      ReadWrapped(l.value);
      ParseLone(l.indent, l.dashes, Wrap(l.value), l.value);
    }
  }

  lemma {:induction false} ParseDashesOf(indent: nat, from: nat, n: nat, body: string)
    requires !StartsDash(body)
    ensures ParseDashes(indent, from, Dashes(n) + body) == ParseBody(indent, from + n, body)
    decreases n
  {
    hide ParseDashes, ParseBody, StartsDash;
    if n == 0 {
      assert Dashes(n) + body == body;
      NoDash(indent, from, body);
    } else {
      ParseDashesOf(indent, from + 1, n - 1, body);
      FirstDash(indent, from, Dashes(n - 1) + body);
      assert Dashes(n) + body == "- " + (Dashes(n - 1) + body);
    }
  }

  lemma {:induction false} NoDash(indent: nat, from: nat, s: string)
    requires !StartsDash(s)
    ensures ParseDashes(indent, from, s) == ParseBody(indent, from, s)
  {
    hide ParseBody;
  }

  lemma {:induction false} FirstDash(indent: nat, from: nat, s: string)
    ensures ParseDashes(indent, from, "- " + s) == ParseDashes(indent, from + 1, s)
  {
    hide ParseBody;
    var all := "- " + s;
    assert all[2..] == s;
  }

  /** Blanks, dashes and body, put together and taken apart. */
  lemma {:induction false} ParseParts(s: string, indent: nat, n: nat, body: string)
    requires s == Spaces(indent) + (Dashes(n) + body)
    requires !StartsDash(body) && (body != "" ==> body[0] != ' ') && (n == 0 ==> body != "") && !Marker(s)
    ensures ParseLine(s) == ParseBody(indent, n, body) && Blanks(s) < |s|
  {
    hide ParseDashes, ParseBody;
    var rest := Dashes(n) + body;
    ParseDashesOf(indent, 0, n, body);
    DashesStart(n, body);
    BlanksOf(indent, rest);
    assert s[indent..] == rest;
  }

  lemma {:induction false} DashesStart(n: nat, body: string)
    requires n > 0 || body != ""
    ensures var s := Dashes(n) + body; s != "" && s[0] == if n > 0 then '-' else body[0]
  {
  }

  lemma {:induction false} ParseRender(l: Line)
    requires CleanLine(l)
    ensures ParseLine(Render(l)) == Some(l) && Blanks(Render(l)) < |Render(l)|
  {
    ParseBodyOf(l);
    RenderParts(l);
    NoMarker(l);
    ParseParts(Render(l), l.indent, l.dashes, Body(l));
  }

  /** A printed line starts with a blank, with a dash and a blank, or with its key. */
  lemma {:induction false} NoMarker(l: Line)
    requires CleanLine(l)
    ensures !Marker(Render(l))
  {
    hide YamlValue, Plain, Marker, Render, Dashes;
    RenderParts(l);
    var rest := Dashes(l.dashes) + Body(l);
    if l.indent > 0 {
      BlankNoMarker(Spaces(l.indent - 1) + rest);
      assert Spaces(l.indent) + rest == " " + (Spaces(l.indent - 1) + rest);
    } else {
      assert Spaces(0) + rest == rest;
      if l.dashes > 0 {
        DashNoMarker(l.dashes, Body(l));
      } else {
        KeyNoMarker(l.key.value, Tail(l.value));
        assert Body(l) == l.key.value + ":" + Tail(l.value);
      }
      assert Render(l) == rest;
    }
  }

  lemma {:induction false} MarkerChars(s: string)
    ensures Marker(s) ==> |s| >= 3 && s[0] in "-." && s[1] in "-." && s[2] in "-."
  {
    assert Marker(s) ==> s[..3][0] in "-." && s[..3][1] in "-." && s[..3][2] in "-.";
  }

  lemma {:induction false} BlankNoMarker(s: string)
    ensures !Marker(" " + s)
  {
    MarkerChars(" " + s);
    assert (" " + s)[0] == ' ';
  }

  lemma {:induction false} DashNoMarker(n: nat, body: string)
    requires n > 0
    ensures !Marker(Dashes(n) + body)
  {
    var s := Dashes(n) + body;
    assert s == "- " + (Dashes(n - 1) + body);
    assert s[1] == ' ';
  }

  lemma {:induction false} KeyNoMarker(key: string, tail: string)
    requires !Marker(key)
    ensures !Marker(Dashes(0) + (key + ":" + tail))
  {
    var s := key + ":" + tail;
    assert Dashes(0) + s == s;
    assert s[|key|] == ':';
    if |key| >= 3 {
      assert s[..3] == key[..3] && (|key| > 3 ==> s[3] == key[3]);
    } else {
      MarkerChars(s);
    }
  }

  lemma {:induction false} RenderParts(l: Line)
    ensures Render(l) == Spaces(l.indent) + (Dashes(l.dashes) + Body(l))
  {
  }

  lemma {:induction false} DashesHaveNoNewline(n: nat)
    ensures '\n' !in Dashes(n)
  {
    if n > 0 {
      DashesHaveNoNewline(n - 1);
    }
  }

  lemma {:induction false} BodyHasNoNewline(l: Line)
    requires CleanLine(l)
    ensures '\n' !in Body(l)
  {
    assert '\n' !in Wrap(l.value);
  }

  lemma {:induction false} RenderHasNoNewline(l: Line)
    requires CleanLine(l)
    ensures '\n' !in Render(l)
  {
    DashesHaveNoNewline(l.dashes);
    RenderParts(l);
    BodyHasNoNewline(l);
  }

  lemma {:induction false} ParseRenderAll(ls: seq<Line>)
    requires forall i :: 0 <= i < |ls| ==> CleanLine(ls[i])
    ensures ParseLines(RenderAll(ls) + ["", ""]) == Some(ls)
    ensures ParseLines(RenderAll(ls) + [""]) == Some(ls)
  {
    if ls == [] {
      assert [""][1..] == [] && ["", ""][1..] == [""];
      assert ParseLines([""]) == Some([]);
      assert ParseLines(["", ""]) == ParseLines([""]);
      assert RenderAll(ls) + ["", ""] == ["", ""] && RenderAll(ls) + [""] == [""];
    } else {
      ParseRender(ls[0]);
      ParseRenderAll(ls[1..]);
      ParseCons(ls, [""]);
      ParseCons(ls, ["", ""]);
    }
  }

  lemma {:induction false} ParseCons(ls: seq<Line>, tail: seq<string>)
    requires ls != [] && ParseLine(Render(ls[0])) == Some(ls[0]) && Blanks(Render(ls[0])) < |Render(ls[0])|
    requires ParseLines(RenderAll(ls[1..]) + tail) == Some(ls[1..])
    ensures ParseLines(RenderAll(ls) + tail) == Some(ls)
  {
    hide ParseLine, Blanks, Render;
    assert RenderAll(ls) + tail == [Render(ls[0])] + (RenderAll(ls[1..]) + tail);
    ParseFirst(Render(ls[0]), RenderAll(ls[1..]) + tail, ls[0], ls[1..]);
    assert [ls[0]] + ls[1..] == ls;
  }

  lemma {:induction false} ParseFirst(s: string, rest: seq<string>, l: Line, ls: seq<Line>)
    requires ParseLine(s) == Some(l) && Blanks(s) < |s| && ParseLines(rest) == Some(ls)
    ensures ParseLines([s] + rest) == Some([l] + ls)
  {
    hide ParseLine, Blanks;
    assert ([s] + rest)[1..] == rest;
  }

  /** The lines of the whole text: PropertiesToYaml joins them by newlines and ends with one. */
  lemma {:induction false} ReadPrinted(ls: seq<Line>)
    requires forall i :: 0 <= i < |ls| ==> CleanLine(ls[i])
    ensures ReadYaml(Join(RenderAll(ls), "\n") + "\n") == ReadFields(ls, 0)
  {
    var parts := RenderAll(ls);
    forall i | 0 <= i < |parts| ensures '\n' !in parts[i] {
      RenderHasNoNewline(ls[i]);
    }
    ParseRenderAll(ls);
    if parts == [] {
      assert Join(parts, "\n") + "\n" == "" + ['\n'] + "";
      SplitAt("", '\n', "");
      assert [""] + [""] == parts + ["", ""];
    } else {
      JoinIsLines(parts);
      SplitLines(parts, '\n');
    }
  }

  lemma {:induction false} JoinIsLines(parts: seq<string>)
    requires parts != []
    ensures Join(parts, "\n") + "\n" == Lines(parts, '\n')
  {
    if |parts| > 1 {
      JoinIsLines(parts[1..]);
    }
  }

  // ----- the lines of a clean tree are clean -----

  predicate CleanAll(nodes: seq<YamlNode>)
    decreases nodes, 0
  {
    forall i :: 0 <= i < |nodes| ==> CleanNode(nodes[i])
  }

  predicate CleanNode(n: YamlNode)
    decreases n, 0
  {
    (IsScalarNode(n) || YamlKey(n.name)) && YamlValue(n.value) && CleanAll(n.children) && CleanAll(n.valueList)
  }

  lemma {:induction false} CleanFormat(nodes: seq<YamlNode>, inArray: bool, indent: nat, before: int)
    requires CleanAll(nodes) && if inArray then ReadableList(nodes) else ReadableAll(nodes)
    ensures forall i :: 0 <= i < |Format(nodes, inArray, indent, before)| ==>
              CleanLine(Format(nodes, inArray, indent, before)[i])
    decreases nodes, 1
  {
    if nodes != [] {
      CleanInner(nodes[0], if inArray then indent + 4 else indent + 2);
      CleanFormat(nodes[1..], inArray, indent, if inArray then nodes[0].lastNodeIndex else before);
      FormatFirst(nodes, inArray, indent, before);
    }
  }

  lemma {:induction false} CleanInner(n: YamlNode, indent: nat)
    requires CleanNode(n) && (IsScalarNode(n) || ReadableNode(n))
    ensures forall i :: 0 <= i < |Inner(n, indent)| ==> CleanLine(Inner(n, indent)[i])
    decreases n, 0
  {
    if n.arrayFlag {
      CleanFormat(n.valueList, true, indent, -1);
    } else if n.children != [] {
      CleanFormat(n.children, false, indent, -1);
    }
  }

  // ----- clean leaves make a clean tree -----

  predicate CleanLeaf(l: Leaf) {
    YamlValue(l.value) && forall i :: 0 <= i < |l.path| ==> YamlKey(l.path[i].name)
  }

  ghost predicate CleanLeaves(ls: seq<Leaf>) {
    forall i :: 0 <= i < |ls| ==> CleanLeaf(ls[i])
  }

  lemma {:induction false} CleanUnder(index: int, name: string, ls: seq<Leaf>)
    requires CleanLeaves(UnderAll(index, name, ls))
    ensures CleanLeaves(ls) && (ls != [] ==> YamlKey(name))
  {
    hide YamlValue, YamlKey;
    var us := UnderAll(index, name, ls);
    if ls != [] {
      assert CleanLeaf(us[0]) && us[0].path[0].name == name;
    }
    forall i | 0 <= i < |ls| ensures CleanLeaf(ls[i]) {
      assert CleanLeaf(us[i]);
      assert forall k :: 0 <= k < |ls[i].path| ==> ls[i].path[k] == us[i].path[k + 1];
    }
  }

  lemma {:induction false} LeavesCleanAll(nodes: seq<YamlNode>)
    requires (forall i :: 0 <= i < |nodes| ==> GoodNode(nodes[i])) && CleanLeaves(Leaves(nodes))
    ensures CleanAll(nodes)
    decreases nodes, 1
  {
    if nodes != [] {
      var a, b := NodeLeaves(nodes[0]), Leaves(nodes[1..]);
      assert forall i :: 0 <= i < |a| ==> a[i] == Leaves(nodes)[i];
      assert forall i :: 0 <= i < |b| ==> b[i] == Leaves(nodes)[|a| + i];
      LeavesClean(nodes[0]);
      LeavesCleanAll(nodes[1..]);
    }
  }

  lemma {:induction false} LeavesClean(n: YamlNode)
    requires GoodNode(n) && CleanLeaves(NodeLeaves(n))
    ensures CleanNode(n)
    decreases n, 0
  {
    NodeHasLeaf(n);
    assert CleanLeaf(NodeLeaves(n)[0]);
    if n.arrayFlag {
      CleanUnder(n.lastNodeIndex, n.name, ArrayLeaves(n.valueList));
      LeavesCleanList(n.valueList);
    } else if n.children != [] {
      assert Good(n.children, false);
      CleanUnder(n.lastNodeIndex, n.name, Leaves(n.children));
      LeavesCleanAll(n.children);
    }
  }

  lemma {:induction false} LeavesCleanList(vl: seq<YamlNode>)
    requires GoodList(vl) && CleanLeaves(ArrayLeaves(vl))
    ensures CleanAll(vl)
    decreases vl, 2
  {
    if ScalarList(vl) {
      forall i | 0 <= i < |vl| ensures CleanNode(vl[i]) {
        assert vl[i] == ScalarNode(vl[i].value);
        assert CleanLeaf(ArrayLeaves(vl)[i]);
      }
    } else {
      assert Good(vl, true) && ArrayLeaves(vl) == Leaves(vl);
      LeavesCleanAll(vl);
    }
  }
}
