/** Well-formed data survives flattening: to YAML and back it comes out the same,
    and its flat map has one entry per leaf. */
module RoundTrip {
  import opened Text
  import opened Results
  import opened Sorting
  import opened Tree
  import opened Data
  import opened Alike
  import opened Yaml
  import opened Resort
  import opened Dense
  import opened Printer
  import opened YamlText
  import opened Props
  import opened Iteration
  import opened Codec
  import opened DataTree

  // ----- the leaves of good data -----

  /** The relative leaves below a key: an index an int can hold, or -1. */
  ghost predicate GoodBelow(ls: seq<Leaf>) {
    forall i :: 0 <= i < |ls| ==> GoodRelative(ls[i])
  }

  predicate GoodRelative(l: Leaf) {
    && GoodValue(l.value) && -1 <= l.index < 0x8000_0000_0000_0000
    && (forall k :: 0 <= k < |l.path| ==> PlainSeg(l.path[k]) && GoodKey(l.path[k].name))
  }

  lemma {:induction false} UnderRelative(key: string, l: Leaf)
    requires GoodKey(key) && GoodRelative(l)
    ensures GoodRelative(Under(-1, key, l)) && GoodPath(Under(-1, key, l).path)
  {
    var u := Under(-1, key, l);
    assert forall k :: 0 < k < |u.path| ==> u.path[k] == l.path[k - 1];
    assert PlainSeg(u.path[0]);
  }

  lemma {:induction false} UnderGood(key: string, ls: seq<Leaf>)
    requires GoodKey(key) && GoodBelow(ls)
    ensures GoodLeaves(UnderAll(-1, key, ls)) && GoodBelow(UnderAll(-1, key, ls))
  {
    forall i | 0 <= i < |ls|
      ensures GoodRelative(UnderAll(-1, key, ls)[i]) && GoodPath(UnderAll(-1, key, ls)[i].path)
    {
      UnderRelative(key, ls[i]);
    }
  }

  lemma {:induction false} FieldsGood(fields: seq<Field>)
    requires Tidy(fields)
    ensures GoodLeaves(FieldLeaves(fields)) && GoodBelow(FieldLeaves(fields))
    decreases fields, 0
  {
    if fields != [] {
      TidySplit(fields);
      ValueGood(fields[0].key, fields[0].data);
      FieldsGood(fields[1..]);
    }
  }

  lemma {:induction false} ValueGood(key: string, d: Data)
    requires GoodKey(key) && TidyData(d)
    ensures GoodLeaves(ValueLeaves(key, d)) && GoodBelow(ValueLeaves(key, d))
    decreases d, 1
  {
    match d
    case Map(fields) =>
      FieldsGood(fields);
      UnderGood(key, FieldLeaves(fields));
    case List(elems) =>
      ElemsGood(elems, 0);
      UnderGood(key, ElemLeaves(elems, 0));
    case _ =>
      UnderRelative(key, Leaf(-1, [], TextOf(d)));
      assert ValueLeaves(key, d)[0] == Under(-1, key, Leaf(-1, [], TextOf(d)));
  }

  lemma {:induction false} ElemsGood(elems: seq<Data>, from: nat)
    requires TidyElems(elems) && from + |elems| <= 0x8000_0000_0000_0000
    ensures GoodBelow(ElemLeaves(elems, from))
    decreases elems, 0
  {
    if elems != [] {
      assert TidyData(elems[0]) && TidyElems(elems[1..]);
      ElemGood(elems[0], from);
      ElemsGood(elems[1..], from + 1);
    }
  }

  lemma {:induction false} ElemGood(d: Data, i: nat)
    requires TidyData(d) && (d.List? ==> d.elems == []) && i < 0x8000_0000_0000_0000
    ensures GoodBelow(OneElem(d, i))
    decreases d, 0
  {
    if d.Map? {
      FieldsGood(d.fields);
      forall k | 0 <= k < |FieldLeaves(d.fields)| ensures GoodRelative(FieldLeaves(d.fields)[k].(index := i)) {
        assert GoodRelative(FieldLeaves(d.fields)[k]);
      }
    }
  }

  // ----- no two leaves have one path -----

  ghost predicate Distinct(ls: seq<Leaf>) {
    forall i, j :: 0 <= i < j < |ls| ==> ls[i].index != ls[j].index || ls[i].path != ls[j].path
  }

  lemma {:induction false} UnderDistinct(index: int, key: string, ls: seq<Leaf>)
    requires Distinct(ls)
    ensures Distinct(UnderAll(index, key, ls))
  {
    var us := UnderAll(index, key, ls);
    forall i, j | 0 <= i < j < |us| ensures us[i].path != us[j].path {
      assert us[i].path[0].index == ls[i].index && us[i].path[1..] == ls[i].path;
      assert us[j].path[0].index == ls[j].index && us[j].path[1..] == ls[j].path;
    }
  }

  lemma {:induction false} ConcatDistinct(a: seq<Leaf>, b: seq<Leaf>)
    requires Distinct(a) && Distinct(b)
    requires forall i, j :: 0 <= i < |a| && 0 <= j < |b| ==> a[i].index != b[j].index || a[i].path != b[j].path
    ensures Distinct(a + b)
  {
    var c := a + b;
    assert forall i :: 0 <= i < |c| ==> c[i] == if i < |a| then a[i] else b[i - |a|];
  }

  lemma {:induction false} FieldsDistinct(fields: seq<Field>)
    requires Tidy(fields)
    ensures Distinct(FieldLeaves(fields))
    decreases fields, 0
  {
    if fields != [] {
      var a, b := ValueLeaves(fields[0].key, fields[0].data), FieldLeaves(fields[1..]);
      TidySplit(fields);
      ValueDistinct(fields[0].key, fields[0].data);
      FieldsDistinct(fields[1..]);
      ValueNamed(fields[0].key, fields[0].data);
      forall j | 0 <= j < |b| ensures b[j].path != [] && b[j].path[0].name != fields[0].key {
        var m := FieldOwner(fields[1..], j);
      }
      ConcatDistinct(a, b);
    }
  }

  lemma {:induction false} ValueDistinct(key: string, d: Data)
    requires TidyData(d)
    ensures Distinct(ValueLeaves(key, d))
    decreases d, 1
  {
    match d
    case Map(fields) =>
      FieldsDistinct(fields);
      UnderDistinct(-1, key, FieldLeaves(fields));
    case List(elems) =>
      ElemsDistinct(elems, 0);
      UnderDistinct(-1, key, ElemLeaves(elems, 0));
    case _ =>
  }

  lemma {:induction false} ElemsDistinct(elems: seq<Data>, from: nat)
    requires TidyElems(elems)
    ensures Distinct(ElemLeaves(elems, from))
    decreases elems, 0
  {
    if elems != [] {
      var a, b := OneElem(elems[0], from), ElemLeaves(elems[1..], from + 1);
      assert TidyData(elems[0]) && TidyElems(elems[1..]);
      ElemDistinct(elems[0], from);
      ElemsDistinct(elems[1..], from + 1);
      OneElemNumbered(elems[0], from);
      forall j | 0 <= j < |b| ensures b[j].index > from {
        ElemIndex(elems[1..], from + 1, j);
      }
      ConcatDistinct(a, b);
    }
  }

  lemma {:induction false} ElemDistinct(d: Data, i: nat)
    requires TidyData(d) && (d.List? ==> d.elems == [])
    ensures Distinct(OneElem(d, i))
    decreases d, 0
  {
    if d.Map? {
      var ls := FieldLeaves(d.fields);
      FieldsDistinct(d.fields);
      ReindexUndone(0, d.fields);
      FieldPaths(d.fields);
      forall m, n | 0 <= m < n < |ls| ensures ls[m].path != ls[n].path {
        assert ls[m].index == -1 == ls[n].index;
      }
    }
  }

  // ----- data to properties to YAML and back -----

  lemma {:induction false} FieldsNoComment(fields: seq<Field>)
    requires YamlFields(fields)
    ensures NoComment(FieldLeaves(fields))
  {
    forall i | 0 <= i < |FieldLeaves(fields)|
      ensures var p := FieldLeaves(fields)[i].path; p != [] && p[0].name != "" && p[0].name[0] != '#'
    {
      var m := FieldOwner(fields, i);
      assert YamlKey(fields[m].key);
    }
  }

  /** Flattening good data and reading the lines gives one entry per leaf. */
  lemma {:induction false} FlattenedEntries(fields: seq<Field>)
    requires GoodFields(fields) && YamlFields(fields)
    ensures LineEntries(ItemLines(Flattened(fields))) == EntriesOf(FieldLeaves(fields))
  {
    GoodTidy(fields);
    FieldsGood(fields);
    FlattenedItems(fields);
    FieldsNoComment(fields);
    var ls := FieldLeaves(fields);
    if fields != [] {
      TextsParse(ls);
      BlankLineLast(Texts(ls));
    }
  }

  lemma {:induction false} BlankLineLast(items: seq<string>)
    ensures LineEntries(items + [""]) == LineEntries(items)
  {
    assert (items + [""])[..|items|] == items;
    assert LineEntry("") == None;
  }

  /** Data to properties to YAML and back is the same data, in the order in which
      its maps were iterated and with null read as the empty text, whatever the
      sort; the code panics exactly when a value at the top is null. */
  lemma {:induction false} DataRoundTrip(o: Order, fields: seq<Field>)
    requires Sorts(o) && GoodFields(fields) && YamlFields(fields)
    ensures ToProperties(fields) == None <==> NullAtTop(fields)
    ensures ToProperties(fields).Some? ==>
              ReadYaml(YamlOf(o, LineEntries(ItemLines(ToProperties(fields).value)))) == Some(Texted(fields))
  {
    FlattenedEntries(fields);
    DataBuilds(fields);
    FieldsSteady(fields, -1);
    PrintedSteady(o, TreeFields(fields, -1), false, 0, -1);
    FieldsReadable(fields, -1);
    PrintedReads(TreeFields(fields, -1));
    TreeData(fields, -1);
  }

  // ----- arrays directly inside arrays -----

  predicate NoNested(fields: seq<Field>)
    decreases fields, 0
  {
    forall i :: 0 <= i < |fields| ==> NoNestedData(fields[i].data)
  }

  /** No array is directly inside an array. */
  predicate NoNestedData(d: Data)
    decreases d, 0
  {
    match d
    case Map(fields) => NoNested(fields)
    case List(elems) => forall i :: 0 <= i < |elems| ==> !elems[i].List? && NoNestedData(elems[i])
    case _ => true
  }

  lemma {:induction false} TreeNotNested(nodes: seq<YamlNode>)
    ensures NoNested(ToFields(nodes))
    decreases nodes, 0
  {
    forall i | 0 <= i < |nodes| ensures NoNestedData(ToData(nodes[i])) {
      NodeNotNested(nodes[i]);
    }
  }

  lemma {:induction false} NodeNotNested(n: YamlNode)
    ensures NoNestedData(ToData(n))
    decreases n, 0
  {
    TreeNotNested(n.children);
    ElemsNotNested(n.valueList);
  }

  lemma {:induction false} ElemsNotNested(vl: seq<YamlNode>)
    ensures forall i :: 0 <= i < |ToElems(vl)| ==> !ToElems(vl)[i].List? && NoNestedData(ToElems(vl)[i])
    decreases vl, 1
  {
    if vl != [] {
      TreeNotNested(vl);
      var k := if vl[0].lastNodeIndex == -1 then 1 else GroupLen(vl, vl[0].lastNodeIndex);
      ElemsNotNested(vl[k..]);
      assert forall i :: 0 <= i < k ==> ToFields(vl)[..k][i] == ToFields(vl)[i];
      assert NoNested(ToFields(vl)[..k]);
    }
  }

  lemma {:induction false} TextedNested(fields: seq<Field>)
    ensures NoNested(Texted(fields)) <==> NoNested(fields)
    decreases fields, 0
  {
    forall i | 0 <= i < |fields| ensures NoNestedData(Texted(fields)[i].data) <==> NoNestedData(fields[i].data) {
      TextedNestedData(fields[i].data);
    }
  }

  lemma {:induction false} TextedNestedData(d: Data)
    ensures NoNestedData(TextedData(d)) <==> NoNestedData(d)
    decreases d, 1
  {
    match d
    case Map(fields) => TextedNested(fields);
    case List(elems) => TextedNestedElems(elems);
    case _ =>
  }

  lemma {:induction false} TextedNestedElems(elems: seq<Data>)
    ensures |TextedElems(elems)| == |elems|
    ensures forall i :: 0 <= i < |elems| ==>
              && (TextedElems(elems)[i].List? <==> elems[i].List?)
              && (NoNestedData(TextedElems(elems)[i]) <==> NoNestedData(elems[i]))
    decreases elems, 0
  {
    if elems != [] {
      TextedNestedData(elems[0]);
      TextedNestedElems(elems[1..]);
    }
  }

  /** Data with an array directly inside an array never come back, where their lines
      are those of one tree: what is read back has none. */
  lemma {:induction false} NestedNotKept(o: Order, fields: seq<Field>)
    requires Sorts(o) && !NullAtTop(fields) && !NoNested(fields)
    requires var es := LineEntries(ItemLines(Flattened(fields))); Consistent(es) && CleanLeaves(AsLeaves(es))
    ensures var back := ReadYaml(YamlOf(o, LineEntries(ItemLines(ToProperties(fields).value))));
            back.Some? && NoNested(back.value) && back != Some(Texted(fields))
  {
    var es := LineEntries(ItemLines(Flattened(fields)));
    var t := DeepSortAll(o, Build(es));
    BuildLeaves(es);
    DeepSortNodes(o, Build(es), false);
    GoodAllReadable(t, false);
    SortedTreeReads(o, es);
    TreeNotNested(t);
    TextedNested(fields);
  }

  const NESTED: seq<Field> := [Field("a", List([List([Scalar("x")])]))]

  /** The smallest case: the inner array comes back as a field of its own. */
  lemma {:induction false} NestedExample(o: Order)
    requires Sorts(o)
    ensures !NoNested(NESTED) && ToProperties(NESTED) == Some("a[0][0]=x\n")
    ensures var back := ReadYaml(YamlOf(o, LineEntries(ItemLines("a[0][0]=x\n"))));
            back.Some? && SameFields(back.value, [Field("a[0]", List([Scalar("x")]))])
  {
    hide ReadYaml, YamlOf, SameFields, Regular, Perm, Consistent, CleanLeaves, NoGaps, LineEntries, ItemLines,
        ToProperties, FieldLeaves;
    var e := Entry([Seg("a[0]", 0)], "x");
    NestedText();
    NestedEntry();
    NestedFits(e);
    PropertiesToYamlKeepsEntries(o, [e]);
    NestedLeaf(e);
  }

  lemma {:induction false} NestedText()
    ensures !NoNested(NESTED) && ToProperties(NESTED) == Some("a[0][0]=x\n")
  {
    hide FieldVisits;
    NestedVisits();
    assert NESTED[0].data.elems[0].List?;
    assert Collect([], [LeafLine("a[0][0]=x")]) == Collect([] + ["a[0][0]=x"], []) == ["a[0][0]=x"];
    assert Lines(["a[0][0]=x"], '\n') == "a[0][0]=x" + ['\n'] + Lines([], '\n') == "a[0][0]=x\n";
  }

  lemma {:induction false} NestedVisits()
    ensures FieldVisits(NESTED, "") == [LeafLine("a[0][0]=x")]
  {
    var line := LeafLine("a[0][0]=x");
    EscapeNothing("x");
    LeafVisit("a[0][0]", Scalar("x"));
    assert Itoa(0) == "0" && "a[0]" + "[" + "0" + "]" == "a[0][0]" && "a" + "[" + "0" + "]" == "a[0]";
    assert "a[0][0]" + "=" + "x" == "a[0][0]=x";
    OneElement(Scalar("x"), "a[0]");
    OneElement(List([Scalar("x")]), "a");
    OneField(NESTED[0]);
    assert "" + "a" == "a";
  }

  lemma {:induction false} OneElement(d: Data, prefix: string)
    ensures Visits(List([d]), prefix) == Visits(d, prefix + "[" + Itoa(0) + "]")
  {
    assert [d][1..] == [];
    assert ElemVisits([d], prefix, 0) == Visits(d, prefix + "[" + Itoa(0) + "]") + ElemVisits([d][1..], prefix, 1);
  }

  lemma {:induction false} OneField(f: Field)
    ensures FieldVisits([f], "") == Visits(f.data, "" + f.key)
  {
    assert [f][1..] == [];
    assert FieldVisits([f], "") == Visits(f.data, WithDot("") + f.key) + FieldVisits([f][1..], "");
  }

  lemma {:induction false} NestedEntry()
    ensures LineEntries(ItemLines("a[0][0]=x\n")) == [Entry([Seg("a[0]", 0)], "x")]
  {
    hide LineEntry, Split;
    var line := "a[0][0]=x";
    SplitLines([line], '\n');
    assert Lines([line], '\n') == line + ['\n'] + Lines([], '\n') == "a[0][0]=x\n";
    assert ItemLines("a[0][0]=x\n") == [line] + [""];
    BlankLineLast([line]);
    NestedLine(line);
    assert LineEntries([line]) == LineEntries([line][..0]) + [LineEntry(line).value];
  }

  lemma {:induction false} NestedLine(line: string)
    requires line == "a[0][0]=x"
    ensures LineEntry(line) == Some(Entry([Seg("a[0]", 0)], "x"))
  {
    hide TrimSpace, IndexOf, Split, Peel, Itoa;
    var word := "a[0][0]";
    NothingToTrim(line);
    SplitAt(word, '=', "x");
    assert word + ['='] + "x" == line && line[..7] == word && line[8..] == "x";
    SplitJoin([word], '.');
    NestedWord(word);
    assert PeelAll([word]) == [Seg("a[0]", 0)];
  }

  lemma {:induction false} NestedWord(word: string)
    requires word == "a[0][0]"
    ensures Peel(word) == Seg("a[0]", 0)
  {
    hide Peel;
    assert Itoa(0) == "0" && "a[0]" + "[" + "0" + "]" == word;
    PeelTakesLast("a[0]", 0);
  }

  lemma {:induction false} NestedFits(e: Entry)
    requires e == Entry([Seg("a[0]", 0)], "x")
    ensures Consistent([e]) && NoGaps([e]) && CleanLeaves(AsLeaves([e]))
  {
    hide YamlKey, YamlValue;
    PlainExample();
    assert AsLeaves([e]) == [Leaf(-1, e.path, e.value)];
  }

  lemma {:induction false} PlainExample()
    ensures YamlKey("a[0]") && YamlValue("x")
  {
    hide KeyEnd;
    NoColonNoKey("x");
    NoColonNoKey("a[0]");
  }

  lemma {:induction false} NoColonNoKey(s: string)
    requires ':' !in s
    ensures KeyEnd(s) == -1
  {
    if s != "" {
      NoColonNoKey(s[1..]);
    }
  }

  lemma {:induction false} NestedLeaf(e: Entry)
    requires e == Entry([Seg("a[0]", 0)], "x")
    ensures var data := [Field("a[0]", List([Scalar("x")]))];
            Regular(data) && Perm(FieldLeaves(data), AsLeaves([e]))
  {
    var data := [Field("a[0]", List([Scalar("x")]))];
    assert FieldLeaves([]) == [] && ElemLeaves([], 1) == [];
    assert ElemLeaves([Scalar("x")], 0) == [Leaf(0, [], "x")];
    assert UnderAll(-1, "a[0]", [Leaf(0, [], "x")]) == [Leaf(-1, [Seg("a[0]", 0)] + [], "x")];
    assert [Seg("a[0]", 0)] + [] == e.path;
    assert FieldLeaves(data) == [Leaf(-1, e.path, "x")];
    assert AsLeaves([e]) == [Leaf(-1, e.path, "x")];
  }

  // ----- data to a flat map -----

  ghost predicate Prints(ls: seq<Leaf>, k: string) {
    exists i :: 0 <= i < |ls| && PrintPath(ls[i].path) == k
  }

  ghost predicate MapsLeaves(m: map<string, string>, ls: seq<Leaf>) {
    && (forall i :: 0 <= i < |ls| ==> PrintPath(ls[i].path) in m && m[PrintPath(ls[i].path)] == ls[i].value)
    && (forall k :: k in m ==> Prints(ls, k))
    && |m| == |ls|
  }

  /** Different paths print different keys. */
  lemma {:induction false} KeysDiffer(p: Path, q: Path)
    requires GoodPath(p) && GoodPath(q)
    ensures PrintPath(p) == PrintPath(q) <==> p == q
  {
    PathRoundTrip(p);
    PathRoundTrip(q);
  }

  lemma {:induction false} TextsMap(ls: seq<Leaf>)
    requires GoodLeaves(ls) && Distinct(ls) && forall i :: 0 <= i < |ls| ==> ls[i].index == -1
    ensures LineMap(Texts(ls)).Ok? && MapsLeaves(LineMap(Texts(ls)).entries, ls)
  {
    if ls != [] {
      var n := |ls| - 1;
      TextsMap(ls[..n]);
      LineShape(ls[n]);
      TextsLast(ls);
      var m := LineMap(Texts(ls[..n])).entries;
      var key := PrintPath(ls[n].path);
      forall i | 0 <= i < n ensures PrintPath(ls[i].path) != key {
        KeysDiffer(ls[i].path, ls[n].path);
      }
      assert LineMap(Texts(ls)) == Ok(m[key := ls[n].value]);
      MapsOneMore(m, ls, key);
    }
  }

  lemma {:induction false} MapsOneMore(m: map<string, string>, ls: seq<Leaf>, key: string)
    requires ls != [] && MapsLeaves(m, ls[..|ls| - 1]) && key == PrintPath(ls[|ls| - 1].path)
    requires forall i :: 0 <= i < |ls| - 1 ==> PrintPath(ls[i].path) != key
    ensures MapsLeaves(m[key := ls[|ls| - 1].value], ls)
  {
    var n, value := |ls| - 1, ls[|ls| - 1].value;
    var m' := m[key := value];
    assert key !in m;
    forall i | 0 <= i < |ls| ensures PrintPath(ls[i].path) in m' && m'[PrintPath(ls[i].path)] == ls[i].value {
      assert i < n ==> ls[..n][i] == ls[i];
    }
    forall k | k in m' ensures Prints(ls, k) {
      PrintsMore(ls, k, m, key);
    }
  }

  lemma {:induction false} PrintsMore(ls: seq<Leaf>, k: string, m: map<string, string>, key: string)
    requires ls != [] && key == PrintPath(ls[|ls| - 1].path)
    requires k == key || (k in m && forall x :: x in m ==> Prints(ls[..|ls| - 1], x))
    ensures Prints(ls, k)
  {
    if k != key {
      var i :| 0 <= i < |ls| - 1 && PrintPath(ls[..|ls| - 1][i].path) == k;
      assert ls[..|ls| - 1][i] == ls[i];
    }
  }

  /** The flat map of a text that holds a colon or a dash holds the last of the
      leaves of its data, one entry each, keyed by the printed path; all of them
      exactly when no empty map is visited after a leaf.  It panics exactly when a
      value at the top is null. */
  lemma {:induction false} FlatMapExact(content: string, fields: seq<Field>) returns (k: nat)
    requires Tidy(fields) && (':' in content || '-' in content)
    ensures NullAtTop(fields) ==> FlatMapOf(content, Some(fields)) == Panic
    ensures k <= |FieldLeaves(fields)| && Collect([], FieldVisits(fields, "")) == Texts(FieldLeaves(fields)[k..])
    ensures k == 0 <==> !EmptyAfterLine(FieldVisits(fields, ""))
    ensures !NullAtTop(fields) ==>
              && FlatMapOf(content, Some(fields)).Ok?
              && MapsLeaves(FlatMapOf(content, Some(fields)).entries, FieldLeaves(fields)[k..])
  {
    hide LineMap, MapsLeaves, Flattened, Texts, EmptyAfterLine, FieldVisits, Collect;
    k := FlattenedLeaves(fields);
    if !NullAtTop(fields) {
      FieldsGood(fields);
      FieldsDistinct(fields);
      FieldPaths(fields);
      LeavesMap(FieldLeaves(fields)[k..]);
      FlatMapIs(content, fields);
    }
  }

  lemma {:induction false} FlatMapIs(content: string, fields: seq<Field>)
    requires !NullAtTop(fields) && (':' in content || '-' in content)
    ensures FlatMapOf(content, Some(fields)) == LineMap(ItemLines(Flattened(fields)))
  {
  }

  lemma {:induction false} LeavesMap(ls: seq<Leaf>)
    requires GoodLeaves(ls) && Distinct(ls) && forall i :: 0 <= i < |ls| ==> ls[i].index == -1
    ensures LineMap(ItemLines(Lines(Texts(ls), '\n'))).Ok?
    ensures MapsLeaves(LineMap(ItemLines(Lines(Texts(ls), '\n'))).entries, ls)
  {
    hide MapsLeaves, ItemLines;
    TextsItems(ls);
    TextsMap(ls);
    BlankLineMaps(Texts(ls));
  }

  lemma {:induction false} BlankLineMaps(items: seq<string>)
    ensures LineMap(items + [""]) == LineMap(items)
  {
    assert (items + [""])[..|items|] == items;
    assert TrimSpace("") == "";
  }

  /** A properties file of clean leaves with different paths is read as exactly them. */
  lemma {:induction false} PropsFileExact(ls: seq<Leaf>)
    requires ls != [] && GoodLeaves(ls) && Distinct(ls) && forall i :: 0 <= i < |ls| ==> ls[i].index == -1
    ensures var p := MapOf(Lines(Texts(ls), '\n')); p.Ok? && MapsLeaves(p.entries, ls)
  {
    hide MapsLeaves, ItemLines, LineMap;
    LeavesMap(ls);
    LineShape(ls[0]);
    assert '=' in LineText("", ls[0]);
    assert LineText("", ls[0]) == Texts(ls)[0] && '=' in Lines(Texts(ls), '\n');
  }

  // ----- data to a list of pairs -----

  function PairsOf(ls: seq<Leaf>): seq<(string, string)> {
    seq(|ls|, i requires 0 <= i < |ls| => (PrintPath(ls[i].path), ls[i].value))
  }

  lemma {:induction false} LeafPair(before: seq<(string, string)>, l: Leaf)
    requires GoodPath(l.path) && GoodValue(l.value)
    ensures AddPair(Pairs(before), LineText("", l)) == Pairs(before + [(PrintPath(l.path), l.value)])
  {
    hide PrintPath, LineText, TrimSpace, IndexOf, GoodPath, GoodValue;
    LineShape(l);
  }

  lemma {:induction false} TextsPairs(ls: seq<Leaf>)
    requires GoodLeaves(ls)
    ensures LinePairs(Texts(ls)) == Pairs(PairsOf(ls))
  {
    hide PrintPath, LineText, AddPair;
    if ls != [] {
      var n := |ls| - 1;
      TextsPairs(ls[..n]);
      LeafPair(PairsOf(ls[..n]), ls[n]);
      TextsLast(ls);
      assert PairsOf(ls) == PairsOf(ls[..n]) + [(PrintPath(ls[n].path), ls[n].value)];
    }
  }

  lemma {:induction false} BlankLinePairs(items: seq<string>)
    ensures LinePairs(items + [""]) == LinePairs(items)
  {
    assert (items + [""])[..|items|] == items;
    assert TrimSpace("") == "";
  }

  /** The pairs of a text's data are its leaves in the order they are visited in,
      from the last empty map on. */
  lemma {:induction false} KvListExact(content: string, fields: seq<Field>) returns (k: nat)
    requires Tidy(fields) && (':' in content || '-' in content)
    ensures k <= |FieldLeaves(fields)| && Collect([], FieldVisits(fields, "")) == Texts(FieldLeaves(fields)[k..])
    ensures KvListOf(content, Some(fields)) == if NullAtTop(fields) then Crashed
        else Pairs(PairsOf(FieldLeaves(fields)[k..]))
  {
    hide LinePairs, Texts, EmptyAfterLine, FieldVisits, Collect, ItemLines, Flattened;
    k := FlattenedLeaves(fields);
    FieldsGood(fields);
    var ls := FieldLeaves(fields)[k..];
    TextsItems(ls);
    TextsPairs(ls);
    BlankLinePairs(Texts(ls));
    NoTexts();
  }

  lemma {:induction false} NoTexts()
    ensures LinePairs([]) == Pairs([])
  {
  }
}
