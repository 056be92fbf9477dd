/** The conversions end to end: properties to YAML and back, data to properties
    to YAML and back, data to properties to a flat map. */
module Codec {
  import opened Text
  import opened Results
  import opened Sorting
  import opened Tree
  import opened Data
  import opened Alike
  import opened Yaml
  import opened Resort
  import opened Dense
  import opened Printer
  import opened YamlText
  import opened Props
  import opened Iteration

  // ----- properties to YAML -----

  /** For a file whose keys describe one tree without gaps in its arrays, in any
      line order: the YAML text reads back as the data that has exactly the
      file's entries as leaves, which is determined up to the order of keys. */
  lemma {:induction false} PropertiesToYamlKeepsEntries(o: Order, es: seq<Entry>)
    requires Sorts(o) && Consistent(es) && NoGaps(es) && CleanLeaves(AsLeaves(es))
    ensures ReadYaml(YamlOf(o, es)).Some?
    ensures var fields := ReadYaml(YamlOf(o, es)).value;
            && Regular(fields) && Perm(FieldLeaves(fields), AsLeaves(es))
            && forall other :: Regular(other) && Perm(FieldLeaves(other), AsLeaves(es)) ==> SameFields(fields, other)
  {
    var t := DeepSortAll(o, Build(es));
    SortedDataLeaves(o, es);
    SortedTreeReads(o, es);
    forall other | Regular(other) && Perm(FieldLeaves(other), AsLeaves(es)) ensures SameFields(ToFields(t), other) {
      LeavesDetermine(ToFields(t), other);
    }
  }

  lemma {:induction false} SortedTreeReads(o: Order, es: seq<Entry>)
    requires Sorts(o) && Consistent(es) && CleanLeaves(AsLeaves(es))
    requires ReadableAll(DeepSortAll(o, Build(es)))
    ensures ReadYaml(YamlOf(o, es)) == Some(ToFields(DeepSortAll(o, Build(es))))
  {
    var t := DeepSortAll(o, Build(es));
    SortedClean(o, es);
    BuildLeaves(es);
    PrintedSorted(o, Build(es), false, 0, -1);
    PrintedReads(t);
  }

  /** A readable, clean tree, printed in full and read. */
  lemma {:induction false} PrintedReads(t: seq<YamlNode>)
    requires ReadableAll(t) && CleanAll(t)
    ensures ReadYaml(Join(RenderAll(Format(t, false, 0, -1)), "\n") + "\n") == Some(ToFields(t))
  {
    CleanFormat(t, false, 0, -1);
    ReadPrinted(Format(t, false, 0, -1));
    ReadFormat(t, 0);
  }

  lemma {:induction false} SortedClean(o: Order, es: seq<Entry>)
    requires Sorts(o) && Consistent(es) && CleanLeaves(AsLeaves(es))
    ensures CleanAll(DeepSortAll(o, Build(es)))
  {
    var t := DeepSortAll(o, Build(es));
    BuildLeaves(es);
    DeepSortNodes(o, Build(es), false);
    PermTrans(Leaves(t), Leaves(Build(es)), AsLeaves(es));
    PermClean(AsLeaves(es), Leaves(t));
    LeavesCleanAll(t);
  }

  lemma {:induction false} PermClean(a: seq<Leaf>, b: seq<Leaf>)
    requires Perm(b, a) && CleanLeaves(a)
    ensures CleanLeaves(b)
  {
    forall i | 0 <= i < |b| ensures CleanLeaf(b[i]) {
      assert b[i] in multiset(a);
    }
  }

  // ----- data that flattens cleanly -----

  /** A key that survives on a property line: splitting at dots and at the equals
      sign, peeling and trimming leave it alone. */
  predicate GoodKey(k: string) {
    PlainSeg(Seg(k, -1)) && '=' !in k && !IsSpace(k[0])
  }

  predicate GoodValue(v: string) {
    '\n' !in v && (v != "" ==> !IsSpace(v[|v| - 1]))
  }

  /** Maps have distinct clean keys; maps and arrays below the top are not empty;
      arrays hold scalars and maps in any mixture. */
  predicate GoodFields(fields: seq<Field>)
    decreases fields, 0
  {
    && (forall i :: 0 <= i < |fields| ==> GoodKey(fields[i].key) && GoodData(fields[i].data))
    && (forall i, j :: 0 <= i < j < |fields| ==> fields[i].key != fields[j].key)
  }

  predicate GoodData(d: Data)
    decreases d, 0
  {
    match d
    case Null => true
    case Scalar(text) => GoodValue(text)
    case Map(fields) => fields != [] && GoodFields(fields)
    case List(elems) => elems != [] && |elems| < 0x8000_0000_0000_0000 && GoodElems(elems)
  }

  predicate GoodElems(elems: seq<Data>)
    decreases elems, 0
  {
    forall i :: 0 <= i < |elems| ==> !elems[i].List? && GoodData(elems[i])
  }

  /** The same with empty maps and arrays admitted, and an empty array in an array. */
  predicate Tidy(fields: seq<Field>)
    decreases fields, 0
  {
    && (forall i :: 0 <= i < |fields| ==> GoodKey(fields[i].key) && TidyData(fields[i].data))
    && (forall i, j :: 0 <= i < j < |fields| ==> fields[i].key != fields[j].key)
  }

  predicate TidyData(d: Data)
    decreases d, 0
  {
    match d
    case Null => true
    case Scalar(text) => GoodValue(text)
    case Map(fields) => Tidy(fields)
    case List(elems) => |elems| < 0x8000_0000_0000_0000 && TidyElems(elems)
  }

  predicate TidyElems(elems: seq<Data>)
    decreases elems, 0
  {
    forall i :: 0 <= i < |elems| ==> (elems[i].List? ==> elems[i].elems == []) && TidyData(elems[i])
  }

  lemma {:induction false} GoodTidy(fields: seq<Field>)
    requires GoodFields(fields)
    ensures Tidy(fields) && (fields != [] ==> !HasEmpty(Map(fields)))
    decreases fields, 0
  {
    forall i | 0 <= i < |fields| ensures TidyData(fields[i].data) && !HasEmpty(fields[i].data) {
      GoodTidyData(fields[i].data);
    }
  }

  lemma {:induction false} GoodTidyData(d: Data)
    requires GoodData(d)
    ensures TidyData(d) && !HasEmpty(d)
    decreases d, 0
  {
    match d
    case Map(fields) =>
      GoodTidy(fields);
    case List(elems) =>
      forall i | 0 <= i < |elems| ensures TidyData(elems[i]) && !HasEmpty(elems[i]) {
        GoodTidyData(elems[i]);
      }
    case _ =>
  }

  // ----- printing paths -----

  function PrintPath(p: Path): string {
    Join(PrintSegs(p), ".")
  }

  function PrintSegs(p: Path): seq<string> {
    seq(|p|, i requires 0 <= i < |p| => PrintSeg(p[i]))
  }

  function LineText(stem: string, l: Leaf): string {
    stem + PrintPath(l.path) + "=" + l.value
  }

  function LeafLines(stem: string, ls: seq<Leaf>): seq<string> {
    seq(|ls|, i requires 0 <= i < |ls| => LineText(stem, ls[i]))
  }

  /** The line of a leaf below a key already printed as `stem`. */
  function BelowText(stem: string, l: Leaf): string {
    stem + (if l.index < 0 then "" else "[" + Itoa(l.index) + "]")
    + (if l.path == [] then "" else "." + PrintPath(l.path)) + "=" + l.value
  }

  function BelowLines(stem: string, ls: seq<Leaf>): seq<string> {
    seq(|ls|, i requires 0 <= i < |ls| => BelowText(stem, ls[i]))
  }

  lemma {:induction false} PrintCons(seg: Seg, p: Path)
    ensures PrintPath([seg] + p) == PrintSeg(seg) + if p == [] then "" else "." + PrintPath(p)
  {
    assert PrintSegs([seg] + p)[1..] == PrintSegs(p);
  }

  lemma {:induction false} UnderText(stem: string, key: string, l: Leaf)
    ensures LineText(stem, Under(-1, key, l)) == BelowText(stem + key, l)
  {
    PrintCons(Seg(key, l.index), l.path);
  }

  lemma {:induction false} UnderLines(stem: string, key: string, ls: seq<Leaf>)
    ensures LeafLines(stem, UnderAll(-1, key, ls)) == BelowLines(stem + key, ls)
  {
    forall i | 0 <= i < |ls| ensures LineText(stem, Under(-1, key, ls[i])) == BelowText(stem + key, ls[i]) {
      UnderText(stem, key, ls[i]);
    }
  }

  lemma {:induction false} EscapeNothing(s: string)
    requires '\n' !in s
    ensures EscapeNewlines(s) == s
  {
    if s != "" {
      EscapeNothing(s[1..]);
    }
  }

  // ----- flattening visits exactly the leaves -----

  lemma {:induction false} FieldLines(fields: seq<Field>, prefix: string)
    requires Tidy(fields)
    ensures LinesOf(FieldVisits(fields, prefix)) == LeafLines(WithDot(prefix), FieldLeaves(fields))
    decreases fields, 0
  {
    if fields != [] {
      var f, stem := fields[0], WithDot(prefix);
      TidySplit(fields);
      ValueLines(f.key, f.data, stem);
      FieldLines(fields[1..], prefix);
      LinesConcat(Visits(f.data, stem + f.key), FieldVisits(fields[1..], prefix));
      LeafLinesConcat(stem, ValueLeaves(f.key, f.data), FieldLeaves(fields[1..]));
    }
  }

  lemma {:induction false} TidySplit(fields: seq<Field>)
    requires fields != [] && Tidy(fields)
    ensures Tidy(fields[1..]) && GoodKey(fields[0].key) && TidyData(fields[0].data)
  {
  }

  lemma {:induction false} LeafLinesConcat(stem: string, a: seq<Leaf>, b: seq<Leaf>)
    ensures LeafLines(stem, a + b) == LeafLines(stem, a) + LeafLines(stem, b)
  {
  }

  lemma {:induction false} ValueLines(key: string, d: Data, stem: string)
    requires TidyData(d) && key != ""
    ensures LinesOf(Visits(d, stem + key)) == LeafLines(stem, ValueLeaves(key, d))
    decreases d, 1
  {
    match d
    case Map(fields) =>
      FieldLines(fields, stem + key);
      MapLines(fields, stem + key);
      UnderLines(stem, key, FieldLeaves(fields));
    case List(elems) =>
      ElemLines(elems, stem + key, 0);
      UnderLines(stem, key, ElemLeaves(elems, 0));
    case _ =>
      ScalarText(d);
      PrintCons(Seg(key, -1), []);
      assert [Seg(key, -1)] + [] == [Seg(key, -1)];
  }

  lemma {:induction false} ScalarText(d: Data)
    requires d.Null? || (d.Scalar? && GoodValue(d.text))
    ensures LeafText(d) == if d.Null? then "" else d.text
  {
    if d.Scalar? {
      EscapeNothing(d.text);
    }
  }

  lemma {:induction false} FieldPaths(fields: seq<Field>)
    ensures forall i :: 0 <= i < |FieldLeaves(fields)| ==>
              FieldLeaves(fields)[i].path != [] && FieldLeaves(fields)[i].index == -1
  {
    if fields != [] {
      FieldPaths(fields[1..]);
    }
  }

  /** A map's lines below a key are the lines of its fields after a dot. */
  lemma {:induction false} MapLines(fields: seq<Field>, stem: string)
    requires stem != ""
    ensures LeafLines(WithDot(stem), FieldLeaves(fields)) == BelowLines(stem, FieldLeaves(fields))
  {
    FieldPaths(fields);
    var ls := FieldLeaves(fields);
    forall i | 0 <= i < |ls| ensures LineText(WithDot(stem), ls[i]) == BelowText(stem, ls[i]) {
      SameText(stem, ls[i]);
    }
  }

  lemma {:induction false} SameText(stem: string, l: Leaf)
    requires stem != "" && l.path != [] && l.index == -1
    ensures LineText(WithDot(stem), l) == BelowText(stem, l)
  {
    assert stem + "" == stem && stem + "." + PrintPath(l.path) == stem + ("." + PrintPath(l.path));
  }

  lemma {:induction false} ElemLines(elems: seq<Data>, stem: string, from: nat)
    requires TidyElems(elems)
    ensures LinesOf(ElemVisits(elems, stem, from)) == BelowLines(stem, ElemLeaves(elems, from))
    decreases elems, 0
  {
    if elems != [] {
      OneElemLines(elems[0], stem, from);
      ElemLines(elems[1..], stem, from + 1);
      LinesConcat(Visits(elems[0], stem + "[" + Itoa(from) + "]"), ElemVisits(elems[1..], stem, from + 1));
      BelowLinesConcat(stem, OneElem(elems[0], from), ElemLeaves(elems[1..], from + 1));
    }
  }

  lemma {:induction false} BelowLinesConcat(stem: string, a: seq<Leaf>, b: seq<Leaf>)
    ensures BelowLines(stem, a + b) == BelowLines(stem, a) + BelowLines(stem, b)
  {
  }

  lemma {:induction false} OneElemLines(d: Data, stem: string, i: nat)
    requires TidyData(d) && (d.List? ==> d.elems == [])
    ensures LinesOf(Visits(d, stem + "[" + Itoa(i) + "]")) == BelowLines(stem, OneElem(d, i))
    decreases d, 0
  {
    var item := stem + "[" + Itoa(i) + "]";
    if d.Map? {
      FieldLines(d.fields, item);
      MapLines(d.fields, item);
      FieldPaths(d.fields);
      ReindexLines(FieldLeaves(d.fields), stem, i);
    } else if !d.List? {
      ScalarText(d);
      BelowIndexed(stem, i, Leaf(-1, [], LeafText(d)));
      PlainBelow(item, LeafText(d));
      assert OneElem(d, i) == [Leaf(i, [], LeafText(d))];
    }
  }

  lemma {:induction false} ReindexLines(ls: seq<Leaf>, stem: string, i: nat)
    requires forall k :: 0 <= k < |ls| ==> ls[k].index == -1
    ensures BelowLines(stem, Reindex(i, ls)) == BelowLines(stem + "[" + Itoa(i) + "]", ls)
  {
    forall k | 0 <= k < |ls|
      ensures BelowText(stem, ls[k].(index := i)) == BelowText(stem + "[" + Itoa(i) + "]", ls[k])
    {
      BelowIndexed(stem, i, ls[k]);
    }
  }

  lemma {:induction false} PlainBelow(item: string, text: string)
    ensures BelowText(item, Leaf(-1, [], text)) == item + "=" + text
  {
    assert item + "" == item;
  }

  lemma {:induction false} BelowIndexed(stem: string, i: nat, l: Leaf)
    requires l.index == -1
    ensures BelowText(stem, l.(index := i)) == BelowText(stem + "[" + Itoa(i) + "]", l)
  {
    var item := stem + "[" + Itoa(i) + "]";
    assert item == stem + ("[" + Itoa(i) + "]") && item + "" == item;
  }

  // ----- reading a flattened line -----

  predicate GoodPath(p: Path) {
    p != [] && forall i :: 0 <= i < |p| ==> PlainSeg(p[i]) && GoodKey(p[i].name)
  }

  lemma {:induction false} SegHasNot(seg: Seg, c: char)
    requires c !in seg.name && c != '[' && c != ']' && !IsDigit(c)
    ensures c !in PrintSeg(seg)
  {
    if seg.index >= 0 {
      assert c !in Itoa(seg.index);
    }
  }

  lemma {:induction false} JoinHasNot(parts: seq<string>, c: char)
    requires c != '.' && forall i :: 0 <= i < |parts| ==> c !in parts[i]
    ensures c !in Join(parts, ".")
  {
    if |parts| > 1 {
      JoinHasNot(parts[1..], c);
    }
  }

  lemma {:induction false} PathHasNot(p: Path, c: char)
    requires c != '.' && c != '[' && c != ']' && !IsDigit(c)
    requires forall i :: 0 <= i < |p| ==> c !in p[i].name
    ensures c !in PrintPath(p)
  {
    forall i | 0 <= i < |p| ensures c !in PrintSegs(p)[i] {
      SegHasNot(p[i], c);
    }
    JoinHasNot(PrintSegs(p), c);
  }

  /** Splitting and peeling a printed path gives the path back. */
  lemma {:induction false} PathRoundTrip(p: Path)
    requires p != [] && forall i :: 0 <= i < |p| ==> PlainSeg(p[i])
    ensures PeelAll(Split(PrintPath(p), '.')) == p
  {
    forall i | 0 <= i < |p| ensures Peel(PrintSegs(p)[i]) == p[i] && '.' !in PrintSegs(p)[i] {
      PeelPrint(p[i]);
    }
    SplitJoin(PrintSegs(p), '.');
  }

  lemma {:induction false} PathStart(p: Path)
    requires GoodPath(p)
    ensures PrintPath(p) != "" && PrintPath(p)[0] == p[0].name[0]
  {
    assert p == [p[0]] + p[1..];
    PrintCons(p[0], p[1..]);
  }

  lemma {:induction false} NothingToTrim(s: string)
    requires s != "" && !IsSpace(s[0]) && !IsSpace(s[|s| - 1])
    ensures TrimSpace(s) == s
  {
  }

  /** Where a clean leaf's line splits, and that there is nothing to trim. */
  lemma {:induction false} LineShape(l: Leaf)
    requires GoodPath(l.path) && GoodValue(l.value)
    ensures var p, s := PrintPath(l.path), LineText("", l);
            && IndexOf(s, '=') == |p| && s[..|p|] == p && s[|p| + 1..] == l.value
            && s != "" && s[0] == l.path[0].name[0] && TrimSpace(s) == s && '\n' !in s
  {
    hide PrintPath, TrimSpace, Split, IndexOf;
    var p, s := PrintPath(l.path), LineText("", l);
    assert s == p + ['='] + l.value;
    PathStart(l.path);
    PathHasNot(l.path, '=');
    PathHasNot(l.path, '\n');
    SplitAt(p, '=', l.value);
    assert s[|s| - 1] == if l.value == "" then '=' else l.value[|l.value| - 1];
    NothingToTrim(s);
  }

  /** A clean leaf's line parses to its path and value. */
  lemma {:induction false} LineRoundTrip(l: Leaf)
    requires GoodPath(l.path) && GoodValue(l.value) && l.path[0].name[0] != '#'
    ensures LineEntry(LineText("", l)) == Some(Entry(l.path, l.value))
  {
    LineShape(l);
    PathRoundTrip(l.path);
  }

  /** No line is taken for a comment. */
  ghost predicate NoComment(ls: seq<Leaf>) {
    forall i :: 0 <= i < |ls| ==> ls[i].path != [] && ls[i].path[0].name != "" && ls[i].path[0].name[0] != '#'
  }

  ghost predicate GoodLeaves(ls: seq<Leaf>) {
    forall i :: 0 <= i < |ls| ==> GoodPath(ls[i].path) && GoodValue(ls[i].value)
  }

  function Texts(ls: seq<Leaf>): seq<string> {
    seq(|ls|, i requires 0 <= i < |ls| => LineText("", ls[i]))
  }

  function EntriesOf(ls: seq<Leaf>): seq<Entry> {
    seq(|ls|, i requires 0 <= i < |ls| => Entry(ls[i].path, ls[i].value))
  }

  lemma {:induction false} TextsParse(ls: seq<Leaf>)
    requires GoodLeaves(ls) && NoComment(ls)
    ensures LineEntries(Texts(ls)) == EntriesOf(ls)
  {
    if ls != [] {
      var n := |ls| - 1;
      TextsParse(ls[..n]);
      LineRoundTrip(ls[n]);
      TextsLast(ls);
    }
  }

  lemma {:induction false} TextsLast(ls: seq<Leaf>)
    requires ls != []
    ensures var n := |ls| - 1;
            && Texts(ls)[..n] == Texts(ls[..n]) && Texts(ls)[n] == LineText("", ls[n]) && |Texts(ls)| == n + 1
            && EntriesOf(ls) == EntriesOf(ls[..n]) + [Entry(ls[n].path, ls[n].value)]
  {
  }

  /** The lines of clean leaves, as text, are read as those lines and an empty one. */
  lemma {:induction false} TextsItems(ls: seq<Leaf>)
    requires GoodLeaves(ls)
    ensures ItemLines(Lines(Texts(ls), '\n')) == if ls == [] then [] else Texts(ls) + [""]
  {
    forall i | 0 <= i < |ls| ensures '\n' !in Texts(ls)[i] {
      LineShape(ls[i]);
    }
    SplitLines(Texts(ls), '\n');
    if ls != [] {
      LinesEnd(Texts(ls), '\n');
    }
  }

  /** Flattening writes the last of the leaves: all of them exactly when no empty
      map is visited after a leaf. */
  lemma {:induction false} FlattenedLeaves(fields: seq<Field>) returns (k: nat)
    requires Tidy(fields)
    ensures k <= |FieldLeaves(fields)| && Flattened(fields) == Lines(Texts(FieldLeaves(fields)[k..]), '\n')
    ensures Collect([], FieldVisits(fields, "")) == Texts(FieldLeaves(fields)[k..])
    ensures k == 0 <==> !EmptyAfterLine(FieldVisits(fields, ""))
  {
    hide Texts, FieldVisits, EmptyAfterLine, Collect, LinesOf, Lines, LeafLines;
    var ls, visits := FieldLeaves(fields), FieldVisits(fields, "");
    FieldLines(fields, "");
    NoStem(ls);
    k := CollectEnd([], visits);
    assert [] + LinesOf(visits) == Texts(ls);
    TextsFrom(ls, k);
    FlattenKeepsAll(visits);
  }

  lemma {:induction false} NoStem(ls: seq<Leaf>)
    ensures LeafLines(WithDot(""), ls) == Texts(ls)
  {
  }

  lemma {:induction false} TextsFrom(ls: seq<Leaf>, k: nat)
    requires k <= |Texts(ls)|
    ensures |Texts(ls)| == |ls| && Texts(ls)[k..] == Texts(ls[k..])
    ensures Texts(ls)[k..] == Texts(ls) <==> k == 0
  {
    assert k > 0 ==> |Texts(ls)[k..]| < |Texts(ls)|;
  }

  lemma {:induction false} FlattenedItems(fields: seq<Field>)
    requires GoodFields(fields) && GoodLeaves(FieldLeaves(fields))
    ensures fields != [] ==> ItemLines(Flattened(fields)) == Texts(FieldLeaves(fields)) + [""]
    ensures fields == [] ==> Flattened(fields) == ""
  {
    hide Texts, FieldVisits, Lines, ItemLines, Collect, HasEmpty, Flattened;
    GoodTidy(fields);
    FieldsShow(fields, "");
    AllKept(FieldVisits(fields, ""));
    var k := FlattenedLeaves(fields);
    assert FieldLeaves(fields)[0..] == FieldLeaves(fields);
    TextsItems(FieldLeaves(fields));
    if fields != [] {
      SomeHasEmpty(fields);
      ManyLeaves(fields);
    } else {
      NothingFlattened();
    }
  }

  lemma {:induction false} AllKept(visits: seq<Visit>)
    ensures !SomeEmpty(visits) ==> !EmptyAfterLine(visits)
  {
  }

  lemma {:induction false} SomeHasEmpty(fields: seq<Field>)
    requires fields != []
    ensures HasEmpty(Map(fields)) <==> exists i :: 0 <= i < |fields| && HasEmpty(fields[i].data)
  {
  }

  lemma {:induction false} NothingFlattened()
    ensures Flattened([]) == ""
  {
  }

  lemma {:induction false} LinesEnd(parts: seq<string>, c: char)
    requires parts != []
    ensures Lines(parts, c) != "" && Lines(parts, c)[|Lines(parts, c)| - 1] == c
  {
    if |parts| > 1 {
      LinesEnd(parts[1..], c);
    }
  }

  lemma {:induction false} GoodRegular(fields: seq<Field>)
    requires GoodFields(fields)
    ensures Regular(fields)
    decreases fields, 0
  {
    forall i | 0 <= i < |fields| ensures RegularData(fields[i].data) {
      GoodRegularData(fields[i].data);
    }
  }

  lemma {:induction false} GoodRegularData(d: Data)
    requires GoodData(d)
    ensures RegularData(d)
    decreases d, 0
  {
    match d
    case Map(fields) =>
      GoodRegular(fields);
    case List(elems) =>
      forall i | 0 <= i < |elems| ensures RegularData(elems[i]) {
        GoodRegularData(elems[i]);
      }
    case _ =>
  }

  lemma {:induction false} ManyLeaves(fields: seq<Field>)
    requires fields != [] && GoodFields(fields)
    ensures FieldLeaves(fields) != []
  {
    GoodRegularData(fields[0].data);
    ValueHasLeaf(fields[0].key, fields[0].data);
  }
}
