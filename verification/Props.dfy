/** Flattening data to property lines, and reading property text back
    (doMapToProperties, MapToProperties, GetPropertiesItemLineList,
    PropertiesToMap and PropertiesToYaml in service/cfg/codec.go). */
module Props {
  import opened Text
  import opened Results
  import opened Sorting
  import opened Tree
  import opened Data
  import opened Printer

  // ----- doMapToProperties and MapToProperties -----

  function WithDot(prefix: string): string {
    if prefix == "" then "" else prefix + "."
  }

  /** strings.ReplaceAll(s, "\n", "\\\n"). */
  function EscapeNewlines(s: string): string {
    if s == "" then "" else (if s[0] == '\n' then "\\\n" else [s[0]]) + EscapeNewlines(s[1..])
  }

  /** Each line of a value but the last gets a backslash at its end. */
  lemma {:induction false} EscapeExact(parts: seq<string>)
    requires forall i :: 0 <= i < |parts| ==> '\n' !in parts[i]
    ensures EscapeNewlines(Join(parts, "\n")) == Join(parts, "\\\n")
  {
    if |parts| == 1 {
      EscapePlain(parts[0], "");
      assert parts[0] + "" == parts[0];
    } else if |parts| > 1 {
      EscapeExact(parts[1..]);
      EscapePlain(parts[0], "\n" + Join(parts[1..], "\n"));
      assert ("\n" + Join(parts[1..], "\n"))[1..] == Join(parts[1..], "\n");
      assert parts[0] + "\n" + Join(parts[1..], "\n") == parts[0] + ("\n" + Join(parts[1..], "\n"));
    }
  }

  lemma {:induction false} EscapePlain(s: string, rest: string)
    requires '\n' !in s
    ensures EscapeNewlines(s + rest) == s + EscapeNewlines(rest)
  {
    if s == "" {
      assert s + rest == rest;
    } else {
      assert (s + rest)[1..] == s[1..] + rest;
      EscapePlain(s[1..], rest);
    }
  }

  /** The text a leaf's value becomes; nil counts as the empty string. */
  function LeafText(d: Data): string {
    if d.Scalar? then EscapeNewlines(d.text) else ""
  }

  /** What a walk over the data comes upon: a leaf's line, or an empty nested map. */
  datatype Visit = LeafLine(line: string) | EmptyMap

  function Visits(d: Data, prefix: string): seq<Visit>
    decreases d, 1
  {
    match d
    case Map(fields) => if fields == [] then [EmptyMap] else FieldVisits(fields, prefix)
    case List(elems) => ElemVisits(elems, prefix, 0)
    case _ => [LeafLine(prefix + "=" + LeafText(d))]
  }

  function FieldVisits(fields: seq<Field>, prefix: string): seq<Visit>
    decreases fields, 0
  {
    if fields == [] then []
    else Visits(fields[0].data, WithDot(prefix) + fields[0].key) + FieldVisits(fields[1..], prefix)
  }

  function ElemVisits(elems: seq<Data>, prefix: string, from: nat): seq<Visit>
    decreases elems, 0
  {
    if elems == [] then []
    else Visits(elems[0], prefix + "[" + Itoa(from) + "]") + ElemVisits(elems[1..], prefix, from + 1)
  }

  /** A line is appended; an empty map throws away everything collected so far. */
  function Collect(acc: seq<string>, visits: seq<Visit>): seq<string>
    decreases |visits|
  {
    if visits == [] then acc
    else Collect(if visits[0].EmptyMap? then [] else acc + [visits[0].line], visits[1..])
  }

  function LinesOf(visits: seq<Visit>): seq<string> {
    if visits == [] then []
    else (if visits[0].EmptyMap? then [] else [visits[0].line]) + LinesOf(visits[1..])
  }

  method DoMapToProperties(propertyStrList: seq<string>, value: Data, prefix: string) returns (lines: seq<string>)
    ensures lines == Collect(propertyStrList, Visits(value, prefix))
    decreases value, 1
  {
    match value
    case Map(fields) =>
      if |fields| == 0 {
        return [];
      }
      lines := DoFields(propertyStrList, fields, prefix);
    case List(elems) =>
      lines := DoElems(propertyStrList, elems, prefix);
    case _ =>
      lines := propertyStrList + [prefix + "=" + LeafText(value)];
  }

  /** Its loop over a map. */
  method DoFields(propertyStrList: seq<string>, fields: seq<Field>, prefix: string) returns (lines: seq<string>)
    ensures lines == Collect(propertyStrList, FieldVisits(fields, prefix))
    decreases fields, 0
  {
    lines := propertyStrList;
    for i := 0 to |fields|
      invariant Collect(lines, FieldVisits(fields[i..], prefix))
          == Collect(propertyStrList, FieldVisits(fields, prefix))
    {
      FieldStep(lines, fields, prefix, i);
      lines := DoMapToProperties(lines, fields[i].data, WithDot(prefix) + fields[i].key);
    }
    assert fields[|fields|..] == [];
  }

  /** Its loop over an array. */
  method DoElems(propertyStrList: seq<string>, elems: seq<Data>, prefix: string) returns (lines: seq<string>)
    ensures lines == Collect(propertyStrList, ElemVisits(elems, prefix, 0))
    decreases elems, 0
  {
    lines := propertyStrList;
    for i := 0 to |elems|
      invariant Collect(lines, ElemVisits(elems[i..], prefix, i))
          == Collect(propertyStrList, ElemVisits(elems, prefix, 0))
    {
      ElemStep(lines, elems, prefix, i);
      lines := DoMapToProperties(lines, elems[i], prefix + "[" + Itoa(i) + "]");
    }
    assert elems[|elems|..] == [];
  }

  lemma {:induction false} FieldStep(lines: seq<string>, fields: seq<Field>, prefix: string, i: nat)
    requires i < |fields|
    ensures Collect(lines, FieldVisits(fields[i..], prefix))
         == Collect(Collect(lines, Visits(fields[i].data, WithDot(prefix) + fields[i].key)),
                    FieldVisits(fields[i + 1..], prefix))
  {
    hide Collect, Visits;
    CollectConcat(lines, Visits(fields[i].data, WithDot(prefix) + fields[i].key), FieldVisits(fields[i + 1..], prefix));
    assert fields[i..][1..] == fields[i + 1..];
  }

  lemma {:induction false} ElemStep(lines: seq<string>, elems: seq<Data>, prefix: string, i: nat)
    requires i < |elems|
    ensures Collect(lines, ElemVisits(elems[i..], prefix, i))
         == Collect(Collect(lines, Visits(elems[i], prefix + "[" + Itoa(i) + "]")),
                    ElemVisits(elems[i + 1..], prefix, i + 1))
  {
    hide Collect, Visits, Itoa;
    CollectConcat(lines, Visits(elems[i], prefix + "[" + Itoa(i) + "]"), ElemVisits(elems[i + 1..], prefix, i + 1));
    assert elems[i..][1..] == elems[i + 1..];
  }

  predicate NullAtTop(fields: seq<Field>) {
    exists i :: 0 <= i < |fields| && fields[i].data.Null?
  }

  /** None for a panic: the kind of a nil value at the top is asked for. */
  function ToProperties(fields: seq<Field>): Option<string> {
    if NullAtTop(fields) then None else Some(Flattened(fields))
  }

  method MapToProperties(fields: seq<Field>) returns (text: Option<string>)
    ensures text == ToProperties(fields)
  {
    var lines: seq<string> := [];
    for i := 0 to |fields|
      invariant forall j :: 0 <= j < i ==> !fields[j].data.Null?
      invariant Collect(lines, FieldVisits(fields[i..], "")) == Collect([], FieldVisits(fields, ""))
    {
      if fields[i].data.Null? {
        return None;
      }
      FieldStep(lines, fields, "", i);
      lines := DoMapToProperties(lines, fields[i].data, "" + fields[i].key);
    }
    assert fields[|fields|..] == [];
    var resultStr := ConcatLines(lines);
    text := Some(resultStr);
  }

  method ConcatLines(lines: seq<string>) returns (resultStr: string)
    ensures resultStr == Lines(lines, '\n')
  {
    resultStr := "";
    for i := 0 to |lines|
      invariant resultStr + Lines(lines[i..], '\n') == Lines(lines, '\n')
    {
      assert lines[i..][1..] == lines[i + 1..];
      resultStr := resultStr + lines[i] + "\n";
    }
    assert lines[|lines|..] == [];
  }

  function Flattened(fields: seq<Field>): string {
    Lines(Collect([], FieldVisits(fields, "")), '\n')
  }

  lemma {:induction false} CollectConcat(acc: seq<string>, a: seq<Visit>, b: seq<Visit>)
    ensures Collect(acc, a + b) == Collect(Collect(acc, a), b)
    decreases |a|
  {
    if a == [] {
      assert a + b == b;
    } else {
      assert (a + b)[1..] == a[1..] + b;
      CollectConcat(if a[0].EmptyMap? then [] else acc + [a[0].line], a[1..], b);
    }
  }

  lemma {:induction false} LinesConcat(a: seq<Visit>, b: seq<Visit>)
    ensures LinesOf(a + b) == LinesOf(a) + LinesOf(b)
  {
    if a == [] {
      assert a + b == b;
    } else {
      assert (a + b)[1..] == a[1..] + b;
      LinesConcat(a[1..], b);
    }
  }

  // ----- when flattening loses lines -----

  ghost predicate EmptyAfterLine(visits: seq<Visit>) {
    exists i, j :: 0 <= i < j < |visits| && visits[i].LeafLine? && visits[j].EmptyMap?
  }

  ghost predicate SomeEmpty(visits: seq<Visit>) {
    exists j :: 0 <= j < |visits| && visits[j].EmptyMap?
  }

  lemma {:induction false} CollectShorter(acc: seq<string>, visits: seq<Visit>)
    ensures |Collect(acc, visits)| <= |acc| + |LinesOf(visits)|
    ensures acc != [] && SomeEmpty(visits) ==> |Collect(acc, visits)| < |acc| + |LinesOf(visits)|
    decreases |visits|
  {
    if visits != [] {
      var next := if visits[0].EmptyMap? then [] else acc + [visits[0].line];
      CollectShorter(next, visits[1..]);
      if j :| 0 < j < |visits| && visits[j].EmptyMap? {
        assert visits[1..][j - 1].EmptyMap?;
      }
    }
  }

  lemma {:induction false} CollectAll(acc: seq<string>, visits: seq<Visit>)
    requires !SomeEmpty(visits)
    ensures Collect(acc, visits) == acc + LinesOf(visits)
    decreases |visits|
  {
    if visits != [] {
      assert visits[0].LeafLine?;
      assert forall j :: 0 <= j < |visits[1..]| ==> visits[1..][j] == visits[j + 1];
      CollectAll(acc + [visits[0].line], visits[1..]);
    }
  }

  /** Flattening keeps every leaf's line exactly when no empty nested map is
      visited after a leaf, in whatever order the maps are iterated. */
  lemma {:induction false} FlattenKeepsAll(visits: seq<Visit>)
    ensures Collect([], visits) == LinesOf(visits) <==> !EmptyAfterLine(visits)
    decreases |visits|
  {
    if visits != [] {
      var rest := visits[1..];
      assert forall j :: 0 <= j < |rest| ==> rest[j] == visits[j + 1];
      if visits[0].EmptyMap? {
        FlattenKeepsAll(rest);
        if EmptyAfterLine(visits) {
          var i, j :| 0 <= i < j < |visits| && visits[i].LeafLine? && visits[j].EmptyMap?;
          assert rest[i - 1].LeafLine? && rest[j - 1].EmptyMap?;
        }
      } else if SomeEmpty(rest) {
        CollectShorter([] + [visits[0].line], rest);
        var j :| 0 <= j < |rest| && rest[j].EmptyMap?;
        assert visits[0].LeafLine? && visits[j + 1].EmptyMap?;
      } else {
        CollectAll([visits[0].line], rest);
        assert [] + [visits[0].line] == [visits[0].line];
        assert forall j :: 0 < j < |visits| ==> visits[j] == rest[j - 1];
      }
    }
  }

  // ----- GetPropertiesItemLineList -----

  /** Only a backslash at the end of the whole content joins lines, and then all of them. */
  function ItemLines(content: string): seq<string> {
    if content == "" || content[|content| - 1] == '\\' then [] else Split(content, '\n')
  }

  method GetPropertiesItemLineList(content: string) returns (items: seq<string>)
    ensures items == ItemLines(content)
  {
    items := [];
    if content == "" {
      return;
    }
    var lineList := Split(content, '\n');
    var stringAppender := "";
    for i := 0 to |lineList|
      invariant content[|content| - 1] == '\\' ==> items == []
      invariant content[|content| - 1] != '\\' ==> items == lineList[..i] && stringAppender == ""
    {
      if content[|content| - 1] == '\\' {
        stringAppender := stringAppender + lineList[i] + "\n";
      } else {
        stringAppender := stringAppender + lineList[i];
        assert stringAppender == lineList[i];
        items := items + [stringAppender];
        stringAppender := "";
      }
    }
  }

  /** What a continuation is for: a line that ends in a backslash goes on in the next one. */
  function Continued(lines: seq<string>, appender: string): seq<string> {
    if lines == [] then []
    else if Ends(lines[0]) then Continued(lines[1..], appender + lines[0] + "\n")
    else [appender + lines[0]] + Continued(lines[1..], "")
  }

  predicate Ends(line: string) { line != "" && line[|line| - 1] == '\\' }

  function Unended(lines: seq<string>): nat {
    if lines == [] then 0 else (if Ends(lines[0]) then 0 else 1) + Unended(lines[1..])
  }

  lemma {:induction false} CountContinued(lines: seq<string>, appender: string)
    ensures |Continued(lines, appender)| == Unended(lines) <= |lines|
    ensures Unended(lines) == |lines| <==> forall i :: 0 <= i < |lines| ==> !Ends(lines[i])
    ensures Unended(lines) == 0 <==> forall i :: 0 <= i < |lines| ==> Ends(lines[i])
  {
    if lines != [] {
      CountContinued(lines[1..], if Ends(lines[0]) then appender + lines[0] + "\n" else "");
      assert lines == [lines[0]] + lines[1..];
    }
  }

  lemma {:induction false} NoneContinued(lines: seq<string>)
    requires forall i :: 0 <= i < |lines| ==> !Ends(lines[i])
    ensures Continued(lines, "") == lines
  {
    if lines != [] {
      NoneContinued(lines[1..]);
      assert "" + lines[0] == lines[0];
    }
  }

  lemma {:induction false} LastLine(content: string)
    ensures var lines := Split(content, '\n'); Ends(content) <==> Ends(lines[|lines| - 1])
  {
    hide Ends;
    var i := IndexOf(content, '\n');
    IndexSound(content, '\n');
    if i >= 0 {
      LastLine(content[i + 1..]);
      EndsAfter(content, i);
    }
  }

  lemma {:induction false} EndsAfter(content: string, i: nat)
    requires i < |content| && content[i] == '\n'
    ensures Ends(content) <==> Ends(content[i + 1..])
  {
  }

  /** The code tests the end of the content, not of the line, so continued lines
      come out as meant exactly when no line is continued or every line is. */
  lemma {:induction false} ContinuationExact(content: string)
    ensures var lines := Split(content, '\n');
            content != "" ==> (ItemLines(content) == Continued(lines, "")
              <==>
              (forall i :: 0 <= i < |lines| ==> !Ends(lines[i])) || (forall i :: 0 <= i < |lines| ==> Ends(lines[i])))
  {
    var lines := Split(content, '\n');
    CountContinued(lines, "");
    LastLine(content);
    if forall i :: 0 <= i < |lines| ==> !Ends(lines[i]) {
      NoneContinued(lines);
    }
  }

  // ----- PropertiesToYaml -----

  /** The entry a line holds, if it is not blank, a comment, or without '='. */
  function LineEntry(line: string): Option<Entry> {
    var l := TrimSpace(line);
    var index := IndexOf(l, '=');
    if l == "" || l[0] == '#' || index < 0 then None
    else Some(Entry(PeelAll(Split(l[..index], '.')), l[index + 1..]))
  }

  /** A line holds an entry exactly when, without the blanks at its ends, it is a key,
      an '=' and a value and does not start with '#'. */
  lemma {:induction false} LineEntryExact(line: string, e: Entry)
    ensures LineEntry(line) == Some(e) <==>
              exists key: string ::
                && TrimSpace(line) == key + "=" + e.value && '=' !in key
                && TrimSpace(line)[0] != '#' && e.path == PeelAll(Split(key, '.'))
  {
    hide LineEntry, TrimSpace, PeelAll, Split, IndexOf;
    if LineEntry(line) == Some(e) {
      var key := EntryKey(line, e);
    }
    if key: string :|
      TrimSpace(line) == key + "=" + e.value && '=' !in key
          && TrimSpace(line)[0] != '#' && e.path == PeelAll(Split(key, '.')) {
      KeyEntry(line, key, e.value);
    }
  }

  lemma {:induction false} EntryKey(line: string, e: Entry) returns (key: string)
    requires LineEntry(line) == Some(e)
    ensures TrimSpace(line) == key + "=" + e.value && '=' !in key
    ensures TrimSpace(line)[0] != '#' && e.path == PeelAll(Split(key, '.'))
  {
    hide TrimSpace, PeelAll, Split, IndexOf;
    var l := TrimSpace(line);
    IndexSound(l, '=');
    key := l[..IndexOf(l, '=')];
  }

  lemma {:induction false} KeyEntry(line: string, key: string, value: string)
    requires TrimSpace(line) == key + "=" + value && '=' !in key && TrimSpace(line)[0] != '#'
    ensures LineEntry(line) == Some(Entry(PeelAll(Split(key, '.')), value))
  {
    hide TrimSpace, PeelAll, Split, IndexOf;
    var l := TrimSpace(line);
    assert l[|key|] == '=' && l[..|key|] == key && l[|key| + 1..] == value;
    IndexUnique(l, '=', |key|);
  }

  lemma {:induction false} LineEntriesConcat(a: seq<string>, b: seq<string>)
    ensures LineEntries(a + b) == LineEntries(a) + LineEntries(b)
    decreases |b|
  {
    hide LineEntry;
    if b == [] {
      assert a + b == a;
    } else {
      assert (a + b)[..|a + b| - 1] == a + b[..|b| - 1];
      LineEntriesConcat(a, b[..|b| - 1]);
    }
  }

  function LineEntries(lines: seq<string>): seq<Entry> {
    if lines == [] then []
    else
      var e := LineEntry(lines[|lines| - 1]);
      LineEntries(lines[..|lines| - 1]) + (if e.Some? then [e.value] else [])
  }

  function YamlOf(o: Order, es: seq<Entry>): string {
    Join(RenderAll(Printed(o, Build(es), false, 0, -1)), "\n") + "\n"
  }

  method PropertiesToYaml(o: Order, content: string) returns (yaml: string)
    ensures yaml == YamlOf(o, LineEntries(ItemLines(content)))
  {
    var items := GetPropertiesItemLineList(content);
    var yamlNodes := AddLines(items);
    assert "" == Spaces(0);
    var lines := FormatPropertiesToYaml(o, [], yamlNodes, false, "", 0);
    assert lines == RenderAll(Printed(o, yamlNodes, false, 0, -1));
    yaml := Join(lines, "\n") + "\n";
  }

  /** Its loop over the lines. */
  method AddLines(items: seq<string>) returns (yamlNodes: seq<YamlNode>)
    ensures yamlNodes == Build(LineEntries(items))
  {
    yamlNodes := [];
    for i := 0 to |items|
      invariant yamlNodes == Build(LineEntries(items[..i]))
    {
      assert items[..i + 1][..i] == items[..i];
      yamlNodes := AddLine(yamlNodes, items[i], LineEntries(items[..i]));
    }
    assert items[..|items|] == items;
  }

  /** The body of that loop. */
  method AddLine(yamlNodes: seq<YamlNode>, item: string, ghost es: seq<Entry>) returns (nodes: seq<YamlNode>)
    requires yamlNodes == Build(es)
    ensures nodes == Build(es + if LineEntry(item).Some? then [LineEntry(item).value] else [])
  {
    nodes := yamlNodes;
    assert es + [] == es;
    var line := TrimSpace(item);
    if line != "" && line[0] != '#' {
      var index := IndexOf(line, '=');
      if index > -1 {
        var key, value := line[..index], line[index + 1..];
        var words := Split(key, '.');
        BuildLast(es, Entry(PeelAll(words), value));
        var left;
        left, nodes := WordToNode(words, yamlNodes, false, -1, value);
      }
    }
  }

  lemma {:induction false} BuildLast(es: seq<Entry>, e: Entry)
    ensures Build(es + [e]) == Insert(e.path, Build(es), false, -1, e.value)
  {
    assert (es + [e])[..|es|] == es;
  }

  /** No value that reaches the tree holds a newline, so none takes the form the
      multi-line printing looks for. */
  lemma {:induction false} ValuesAreSingleLine(content: string, i: nat)
    requires i < |LineEntries(ItemLines(content))|
    ensures '\n' !in LineEntries(ItemLines(content))[i].value
  {
    SplitParts(content, '\n');
    SingleLine(ItemLines(content), i);
  }

  lemma {:induction false} SingleLine(items: seq<string>, i: nat)
    requires i < |LineEntries(items)| && forall j :: 0 <= j < |items| ==> '\n' !in items[j]
    ensures '\n' !in LineEntries(items)[i].value
  {
    var n := |items| - 1;
    if i < |LineEntries(items[..n])| {
      SingleLine(items[..n], i);
    } else {
      TrimKeeps(items[n], '\n');
    }
  }

  lemma {:induction false} TrimKeeps(s: string, c: char)
    requires c !in s
    ensures c !in TrimSpace(s)
  {
    TrimLeftKeeps(s, c);
    TrimRightKeeps(TrimLeft(s), c);
  }

  lemma {:induction false} TrimLeftKeeps(s: string, c: char)
    requires c !in s
    ensures c !in TrimLeft(s)
  {
    if s != "" && IsSpace(s[0]) {
      TrimLeftKeeps(s[1..], c);
    }
  }

  lemma {:induction false} TrimRightKeeps(s: string, c: char)
    requires c !in s
    ensures c !in TrimRight(s)
  {
    if s != "" && IsSpace(s[|s| - 1]) {
      TrimRightKeeps(s[..|s| - 1], c);
    }
  }

  // ----- PropertiesToMap -----

  /** What one line does to the map; a line with text but no '=' panics. */
  function MapLine(before: map<string, string>, item: string): Parsed {
    var l := TrimSpace(item);
    var index := IndexOf(l, '=');
    if l == "" then Ok(before)
    else if index < 0 then Panic
    else Ok(before[l[..index] := l[index + 1..]])
  }

  function LineMap(lines: seq<string>): Parsed {
    if lines == [] then Ok(map[])
    else
      var before := LineMap(lines[..|lines| - 1]);
      if before.Ok? then MapLine(before.entries, lines[|lines| - 1]) else before
  }

  lemma {:induction false} LineMapNext(lines: seq<string>, i: nat, m: map<string, string>)
    requires i < |lines| && LineMap(lines[..i]) == Ok(m)
    ensures LineMap(lines[..i + 1]) == MapLine(m, lines[i])
  {
    assert lines[..i + 1][..i] == lines[..i];
  }

  function MapOf(content: string): Parsed {
    if '=' !in content then Illegal else LineMap(ItemLines(content))
  }

  method PropertiesToMap(content: string) returns (parsed: Parsed)
    ensures parsed == MapOf(content)
    ensures parsed == Illegal <==> '=' !in content
    ensures '=' in content && content[|content| - 1] == '\\' ==> parsed == Ok(map[])
    ensures '=' in content && content[|content| - 1] != '\\' ==>
              var lines := Split(content, '\n');
              && (parsed == Panic <==> exists i :: 0 <= i < |lines| && Unset(lines[i]))
              && (parsed.Ok? ==> forall k, v :: At(parsed.entries, k) == Some(v) <==> LastSets(lines, k, v))
  {
    hide Unset, LastSets;
    MapOfExact(content);
    if '=' !in content {
      return Illegal;
    }
    var resultMap: map<string, string> := map[];
    var items := GetPropertiesItemLineList(content);
    for i := 0 to |items|
      invariant LineMap(items[..i]) == Ok(resultMap)
    {
      LineMapNext(items, i, resultMap);
      var line := TrimSpace(items[i]);
      if line == "" {
        continue;
      }
      var index := IndexOf(line, '=');
      if index < 0 {
        PanicStays(items, i + 1);
        return Panic;
      }
      resultMap := resultMap[line[..index] := line[index + 1..]];
    }
    assert items[..|items|] == items;
    parsed := Ok(resultMap);
  }

  /** The line sets k to v: what is left of its first '=' and what is right of it,
      without the blanks at its ends. */
  predicate Sets(line: string, k: string, v: string) {
    TrimSpace(line) == k + "=" + v && '=' !in k
  }

  predicate Unset(line: string) { TrimSpace(line) != "" && '=' !in TrimSpace(line) }

  /** The last line that sets k sets it to v. */
  ghost predicate LastSets(lines: seq<string>, k: string, v: string) {
    exists i :: 0 <= i < |lines| && Sets(lines[i], k, v) && forall j, u :: i < j < |lines| ==> !Sets(lines[j], k, u)
  }

  lemma {:induction false} SetsExact(line: string, k: string, v: string)
    ensures var l := TrimSpace(line);
            var i := IndexOf(l, '=');
            Sets(line, k, v) <==> i >= 0 && k == l[..i] && v == l[i + 1..]
  {
    var l := TrimSpace(line);
    IndexSound(l, '=');
    if Sets(line, k, v) {
      SplitAt(k, '=', v);
      assert l == k + ['='] + v;
    } else if IndexOf(l, '=') >= 0 {
      var i := IndexOf(l, '=');
      assert l == l[..i] + "=" + l[i + 1..];
    }
  }

  lemma {:induction false} LastSetsNext(lines: seq<string>, k: string, v: string)
    requires lines != []
    ensures var n := |lines| - 1;
            LastSets(lines, k, v)
            <==> Sets(lines[n], k, v) || (LastSets(lines[..n], k, v) && forall u :: !Sets(lines[n], k, u))
  {
    hide Sets;
    var n := |lines| - 1;
    var init := lines[..n];
    assert forall i :: 0 <= i < n ==> init[i] == lines[i];
    if LastSets(lines, k, v) {
      var i :| 0 <= i < |lines| && Sets(lines[i], k, v) && forall j, u :: i < j < |lines| ==> !Sets(lines[j], k, u);
      if i < n {
        assert Sets(init[i], k, v);
        assert forall u :: !Sets(lines[n], k, u);
      }
    }
    if LastSets(init, k, v) && forall u :: !Sets(lines[n], k, u) {
      var i :| 0 <= i < n && Sets(init[i], k, v) && forall j, u :: i < j < n ==> !Sets(init[j], k, u);
      assert Sets(lines[i], k, v);
      forall j, u | i < j < |lines| ensures !Sets(lines[j], k, u) {
        if j < n {
          assert !Sets(init[j], k, u);
        }
      }
    }
  }

  lemma {:induction false} LineMapExact(lines: seq<string>)
    ensures !LineMap(lines).Illegal?
    ensures LineMap(lines).Panic? <==> exists i :: 0 <= i < |lines| && Unset(lines[i])
    ensures LineMap(lines).Ok? ==> forall k, v :: At(LineMap(lines).entries, k) == Some(v) <==> LastSets(lines, k, v)
  {
    hide Unset, Sets, LastSets, MapLine;
    if lines != [] {
      var n := |lines| - 1;
      var init := lines[..n];
      LineMapExact(init);
      assert forall i :: 0 <= i < n ==> init[i] == lines[i];
      if LineMap(init).Ok? {
        forall k, v
          ensures LineMap(lines).Ok? ==> (At(LineMap(lines).entries, k) == Some(v) <==> LastSets(lines, k, v))
        {
          LastSetsNext(lines, k, v);
          MapLineExact(LineMap(init).entries, lines[n], k, v);
        }
        MapLineExact(LineMap(init).entries, lines[n], "", "");
      }
    } else {
      NothingSet();
    }
  }

  lemma {:induction false} NothingSet()
    ensures forall k, v :: !LastSets([], k, v)
  {
  }

  lemma {:induction false} MapLineExact(before: map<string, string>, line: string, k: string, v: string)
    ensures MapLine(before, line).Panic? <==> Unset(line)
    ensures MapLine(before, line).Ok? || MapLine(before, line).Panic?
    ensures MapLine(before, line).Ok? ==>
              (At(MapLine(before, line).entries, k) == Some(v)
               <==> Sets(line, k, v) || (At(before, k) == Some(v) && forall u :: !Sets(line, k, u)))
  {
    hide Sets, TrimSpace;
    var l := TrimSpace(line);
    var i := IndexOf(l, '=');
    IndexSound(l, '=');
    forall u ensures Sets(line, k, u) <==> i >= 0 && k == l[..i] && u == l[i + 1..] {
      SetsExact(line, k, u);
    }
    if i >= 0 && k == l[..i] {
      assert Sets(line, k, l[i + 1..]);
    }
  }

  /** What the map of a properties text is: text without any '=' is refused; text that
      ends in a backslash gives no entry; otherwise a line with text and no '=' panics,
      and if there is none each key has the value of the last line that sets it. */
  lemma {:induction false} MapOfExact(content: string)
    ensures MapOf(content) == Illegal <==> '=' !in content
    ensures '=' in content && content[|content| - 1] == '\\' ==> MapOf(content) == Ok(map[])
    ensures '=' in content && content[|content| - 1] != '\\' ==>
              var lines := Split(content, '\n');
              && (MapOf(content) == Panic <==> exists i :: 0 <= i < |lines| && Unset(lines[i]))
              && (MapOf(content).Ok? ==>
                    forall k, v :: At(MapOf(content).entries, k) == Some(v) <==> LastSets(lines, k, v))
  {
    hide Unset, LastSets;
    if '=' in content {
      LineMapExact(ItemLines(content));
    }
  }

  // ----- YamlToKvList and YamlToFlatMap -----

  /** The flat map of a text, given the data it is parsed into, if it can be. */
  function FlatMapOf(content: string, parsed: Option<seq<Field>>): Parsed {
    if ':' !in content && '-' !in content then Ok(map[])
    else if parsed == None then Illegal
    else if ToProperties(parsed.value) == None then Panic
    else LineMap(ItemLines(ToProperties(parsed.value).value))
  }

  datatype KvList = Pairs(list: seq<(string, string)>) | Failed | Crashed

  /** The map that setting the pairs in turn makes. */
  function MapOfPairs(list: seq<(string, string)>): map<string, string> {
    if list == [] then map[] else MapOfPairs(list[..|list| - 1])[list[|list| - 1].0 := list[|list| - 1].1]
  }

  function Outcome(pairs: KvList): Parsed {
    match pairs
    case Pairs(list) => Ok(MapOfPairs(list))
    case Failed => Illegal
    case Crashed => Panic
  }

  /** One pair per line with text, in the order of the lines. */
  function LinePairs(lines: seq<string>): KvList {
    if lines == [] then Pairs([])
    else AddPair(LinePairs(lines[..|lines| - 1]), lines[|lines| - 1])
  }

  function AddPair(before: KvList, line: string): KvList {
    var l := TrimSpace(line);
    var index := IndexOf(l, '=');
    if !before.Pairs? || l == "" then before
    else if index < 0 then Crashed
    else Pairs(before.list + [(l[..index], l[index + 1..])])
  }

  lemma {:induction false} PairsNext(lines: seq<string>, i: nat)
    requires i < |lines|
    ensures LinePairs(lines[..i + 1]) == AddPair(LinePairs(lines[..i]), lines[i])
  {
    assert lines[..i + 1][..i] == lines[..i];
  }

  function KvListOf(content: string, parsed: Option<seq<Field>>): KvList {
    if ':' !in content && '-' !in content then Pairs([])
    else if parsed == None then Failed
    else if ToProperties(parsed.value) == None then Crashed
    else LinePairs(ItemLines(ToProperties(parsed.value).value))
  }

  /** The map of the pairs is the map of the lines. */
  lemma {:induction false} PairsMap(lines: seq<string>)
    ensures Outcome(LinePairs(lines)) == LineMap(lines)
    ensures LinePairs(lines) != Failed
  {
    hide AddPair, MapLine;
    if lines != [] {
      var n := |lines| - 1;
      PairsMap(lines[..n]);
      AddPairMap(LinePairs(lines[..n]), lines[n]);
    }
  }

  lemma {:induction false} AddPairMap(before: KvList, line: string)
    requires before != Failed
    ensures AddPair(before, line) != Failed
    ensures Outcome(AddPair(before, line)) == if before.Pairs? then MapLine(MapOfPairs(before.list), line) else Panic
  {
    hide TrimSpace, IndexOf;
    if before.Pairs? && AddPair(before, line).Pairs? {
      assert AddPair(before, line).list[..|before.list|] == before.list;
    }
  }

  /** Text that cannot be decoded is refused, unless it is not looked into at all. */
  lemma {:induction false} RefusedExact(content: string, parsed: Option<seq<Field>>)
    ensures KvListOf(content, parsed) == Failed <==> (':' in content || '-' in content) && parsed == None
    ensures ':' !in content && '-' !in content ==> KvListOf(content, parsed) == Pairs([])
  {
    hide LinePairs, ItemLines, ToProperties;
    if parsed.Some? && ToProperties(parsed.value).Some? {
      PairsMap(ItemLines(ToProperties(parsed.value).value));
    }
  }

  lemma {:induction false} CrashStays(lines: seq<string>, i: nat)
    requires i <= |lines| && LinePairs(lines[..i]) == Crashed
    ensures LinePairs(lines) == Crashed
    decreases |lines|
  {
    if i == |lines| {
      assert lines[..i] == lines;
    } else {
      assert lines[..|lines| - 1][..i] == lines[..i];
      CrashStays(lines[..|lines| - 1], i);
    }
  }

  method YamlToKvList(content: string, parsed: Option<seq<Field>>) returns (pairs: KvList)
    ensures pairs == KvListOf(content, parsed)
  {
    if ':' !in content && '-' !in content {
      return Pairs([]);
    }
    if parsed == None {
      return Failed;
    }
    var property := MapToProperties(parsed.value);
    if property == None {
      return Crashed;
    }
    var items := GetPropertiesItemLineList(property.value);
    var list: seq<(string, string)> := [];
    for i := 0 to |items|
      invariant LinePairs(items[..i]) == Pairs(list)
    {
      hide LinePairs, TrimSpace, IndexOf;
      PairsNext(items, i);
      var element := TrimSpace(items[i]);
      if element == "" {
        continue;
      }
      var index := IndexOf(element, '=');
      if index < 0 {
        CrashStays(items, i + 1);
        return Crashed;
      }
      list := list + [(element[..index], element[index + 1..])];
    }
    assert items[..|items|] == items;
    pairs := Pairs(list);
  }

  lemma {:induction false} KvListMap(content: string, parsed: Option<seq<Field>>)
    ensures Outcome(KvListOf(content, parsed)) == FlatMapOf(content, parsed)
  {
    if parsed.Some? && ToProperties(parsed.value).Some? {
      PairsMap(ItemLines(ToProperties(parsed.value).value));
    }
  }

  lemma {:induction false} NextPair(list: seq<(string, string)>, i: nat)
    requires i < |list|
    ensures MapOfPairs(list[..i + 1]) == MapOfPairs(list[..i])[list[i].0 := list[i].1]
  {
    assert list[..i + 1][..i] == list[..i];
  }

  method YamlToFlatMap(content: string, parsed: Option<seq<Field>>) returns (flat: Parsed)
    ensures flat == FlatMapOf(content, parsed)
  {
    var kvs := YamlToKvList(content, parsed);
    KvListMap(content, parsed);
    if kvs.Failed? {
      return Illegal;
    }
    if kvs.Crashed? {
      return Panic;
    }
    var result: map<string, string> := map[];
    for i := 0 to |kvs.list|
      invariant result == MapOfPairs(kvs.list[..i])
    {
      hide MapOfPairs;
      NextPair(kvs.list, i);
      result := result[kvs.list[i].0 := kvs.list[i].1];
    }
    assert kvs.list[..|kvs.list|] == kvs.list;
    flat := Ok(result);
  }

  lemma {:induction false} PanicStays(items: seq<string>, i: nat)
    requires i <= |items| && LineMap(items[..i]) == Panic
    ensures LineMap(items) == Panic
    decreases |items| - i
  {
    if i == |items| {
      assert items[..i] == items;
    } else {
      assert items[..i + 1][..i] == items[..i];
      PanicStays(items, i + 1);
    }
  }
}
