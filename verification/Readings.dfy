/** What a YAML text may be read as, since its maps are iterated anew each time
    (service/cfg/codec.go, service/cfg/differ.go), and what that means for retried
    releases and for the clients. */
module Readings {
  import opened Text
  import opened Results
  import opened Sorting
  import opened Tree
  import opened Data
  import opened Props
  import opened Iteration
  import opened Outcomes
  import opened Codec
  import opened RoundTrip
  import opened Diff
  import opened Release
  import opened Clients

  // ----- the lines of tidy data are all different -----

  ghost predicate NoTwice(lines: seq<string>) {
    forall i, j :: 0 <= i < j < |lines| ==> lines[i] != lines[j]
  }

  lemma {:induction false} NoTwiceParts(a: seq<string>, b: seq<string>)
    requires NoTwice(a + b)
    ensures NoTwice(a) && NoTwice(b) && forall x :: x in a ==> x !in b
  {
    var c := a + b;
    assert forall i :: 0 <= i < |a| ==> a[i] == c[i];
    assert forall i :: 0 <= i < |b| ==> b[i] == c[|a| + i];
  }

  lemma {:induction false} LineSetsApart(a: seq<Visit>, b: seq<Visit>)
    requires NoTwice(LinesOf(a + b))
    ensures NoTwice(LinesOf(a)) && NoTwice(LinesOf(b)) && LineSet(a) !! LineSet(b)
  {
    LinesConcat(a, b);
    NoTwiceParts(LinesOf(a), LinesOf(b));
  }

  lemma {:induction false} DataUnlike(d: Data, prefix: string)
    requires NoTwice(LinesOf(Visits(d, prefix)))
    ensures Unlike(d, prefix)
    decreases d, 1
  {
    match d
    case Map(fields) => if fields != [] { FieldsUnlike(fields, prefix); }
    case List(elems) => ElemsUnlike(elems, prefix, 0);
    case _ =>
  }

  lemma {:induction false} FieldsUnlike(fields: seq<Field>, prefix: string)
    requires NoTwice(LinesOf(FieldVisits(fields, prefix)))
    ensures UnlikeFields(fields, prefix)
    decreases fields, 0
  {
    hide NoTwice, LineSet, LinesOf, FieldVisits, Unlike;
    if fields != [] {
      var n := |fields| - 1;
      var init := fields[..n];
      LastField(fields, prefix);
      LineSetsApart(FieldVisits(init, prefix), VisitsAt(fields, prefix, n));
      DataUnlike(fields[n].data, WithDot(prefix) + fields[n].key);
      FieldsUnlike(init, prefix);
      forall i | 0 <= i < n ensures VisitsAt(init, prefix, i) == VisitsAt(fields, prefix, i) {
        SameVisitsAt(init, fields, prefix, i);
      }
      forall i | 0 <= i < n ensures LineSet(VisitsAt(fields, prefix, i)) <= LineSet(FieldVisits(init, prefix)) {
        forall line | line in LineSet(VisitsAt(init, prefix, i)) ensures line in LineSet(FieldVisits(init, prefix)) {
          FieldLineSet(init, prefix, line);
        }
      }
    }
  }

  lemma {:induction false} ElemsUnlike(elems: seq<Data>, prefix: string, from: nat)
    requires NoTwice(LinesOf(ElemVisits(elems, prefix, from)))
    ensures UnlikeElems(elems, prefix, from)
    decreases elems, 0
  {
    if elems != [] {
      var key := prefix + "[" + Itoa(from) + "]";
      LineSetsApart(Visits(elems[0], key), ElemVisits(elems[1..], prefix, from + 1));
      DataUnlike(elems[0], key);
      ElemsUnlike(elems[1..], prefix, from + 1);
    }
  }

  /** A clean leaf's line tells its path and its value. */
  lemma {:induction false} LineTells(l: Leaf, m: Leaf)
    requires GoodPath(l.path) && GoodValue(l.value) && GoodPath(m.path) && GoodValue(m.value)
    ensures LineText("", l) == LineText("", m) <==> l.path == m.path && l.value == m.value
  {
    LineShape(l);
    LineShape(m);
    KeysDiffer(l.path, m.path);
  }

  lemma {:induction false} TextsDiffer(ls: seq<Leaf>)
    requires GoodLeaves(ls) && Distinct(ls) && forall i :: 0 <= i < |ls| ==> ls[i].index == -1
    ensures NoTwice(Texts(ls))
  {
    forall i, j | 0 <= i < j < |ls| ensures Texts(ls)[i] != Texts(ls)[j] {
      LineTells(ls[i], ls[j]);
    }
  }

  lemma {:induction false} TidyUnlike(fields: seq<Field>)
    requires Tidy(fields)
    ensures UnlikeFields(fields, "")
  {
    FieldsGood(fields);
    FieldsDistinct(fields);
    FieldPaths(fields);
    TextsDiffer(FieldLeaves(fields));
    FieldLines(fields, "");
    assert LeafLines("", FieldLeaves(fields)) == Texts(FieldLeaves(fields));
    FieldsUnlike(fields, "");
  }

  // ----- the flat maps of two orders -----

  lemma {:induction false} ShuffledTidyData(d: Data, e: Data)
    requires TidyData(d) && ShuffledData(d, e)
    ensures TidyData(e)
    decreases d, 0
  {
    match d
    case Map(fields) => ShuffledTidy(fields, e.fields);
    case List(elems) =>
      forall i | 0 <= i < |elems| ensures TidyData(e.elems[i]) && (e.elems[i].List? ==> e.elems[i].elems == []) {
        assert ShuffledData(elems[i], e.elems[i]);
        ShuffledTidyData(elems[i], e.elems[i]);
        ShuffledEmptyList(elems[i], e.elems[i]);
      }
    case _ =>
  }

  lemma {:induction false} ShuffledEmptyList(d: Data, e: Data)
    requires ShuffledData(d, e) && (d.List? ==> d.elems == [])
    ensures e.List? ==> e.elems == []
  {
  }

  lemma {:induction false} ShuffledTidy(a: seq<Field>, b: seq<Field>)
    requires Tidy(a) && Shuffled(a, b)
    ensures Tidy(b)
    decreases a, 0
  {
    var p :| Moved(a, b, p);
    forall i | 0 <= i < |b| ensures GoodKey(b[i].key) && TidyData(b[i].data) {
      ShuffledTidyData(a[p[i]].data, b[i].data);
    }
    forall i, j | 0 <= i < j < |b| ensures b[i].key != b[j].key {
      assert p[i] != p[j] && a[p[i]].key != a[p[j]].key;
    }
  }

  lemma {:induction false} ShuffledNulls(a: seq<Field>, b: seq<Field>)
    requires Shuffled(a, b)
    ensures NullAtTop(a) <==> NullAtTop(b)
  {
    if NullAtTop(a) {
      var p :| Moved(a, b, p);
      var v :| 0 <= v < |a| && a[v].data.Null?;
      assert HasAt(p, v);
      var i :| 0 <= i < |p| && p[i] == v;
      assert ShuffledData(a[v].data, b[i].data);
    } else {
      ShuffledNull(a, b);
    }
  }

  /** The map m holds the entries of the leaves whose lines make up t. */
  ghost predicate MapsLines(m: map<string, string>, ls: seq<Leaf>, t: set<string>) {
    && GoodLeaves(ls) && MapsLeaves(m, ls)
    && (forall i :: 0 <= i < |ls| ==> LineText("", ls[i]) in t)
    && (forall line :: line in t ==> exists i :: 0 <= i < |ls| && LineText("", ls[i]) == line)
  }

  lemma {:induction false} OutcomeLines(content: string, fields: seq<Field>) returns (ls: seq<Leaf>)
    requires Tidy(fields) && !NullAtTop(fields) && (':' in content || '-' in content)
    ensures FlatMapOf(content, Some(fields)).Ok?
    ensures MapsLines(FlatMapOf(content, Some(fields)).entries, ls, Tail(FieldVisits(fields, "")))
  {
    hide MapsLeaves, FlatMapOf, FieldVisits, LineText, EmptyAfterLine, Tidy, Distinct, Collect;
    var k := FlatMapExact(content, fields);
    FieldsGood(fields);
    ls := FieldLeaves(fields)[k..];
    forall i | 0 <= i < |ls| ensures LineText("", ls[i]) in Tail(FieldVisits(fields, "")) {
      assert Texts(ls)[i] in Collect([], FieldVisits(fields, ""));
    }
    forall line | line in Tail(FieldVisits(fields, ""))
      ensures exists i :: 0 <= i < |ls| && LineText("", ls[i]) == line
    {
      var i :| 0 <= i < |Texts(ls)| && Texts(ls)[i] == line;
      assert LineText("", ls[i]) == line;
    }
  }

  lemma {:induction false} SameLinesSameMap(m: map<string, string>, n: map<string, string>, ls: seq<Leaf>,
      ms: seq<Leaf>, t: set<string>)
    requires MapsLines(m, ls, t) && MapsLines(n, ms, t)
    ensures m == n
  {
    hide MapsLines;
    MapWithin(m, n, ls, ms, t);
    MapWithin(n, m, ms, ls, t);
    assert m.Keys == n.Keys;
  }

  lemma {:induction false} LeafOfKey(m: map<string, string>, ls: seq<Leaf>, t: set<string>, k: string) returns (i: nat)
    requires MapsLines(m, ls, t) && k in m
    ensures i < |ls| && PrintPath(ls[i].path) == k && m[k] == ls[i].value
    ensures GoodPath(ls[i].path) && GoodValue(ls[i].value) && LineText("", ls[i]) in t
  {
    hide LineText, PrintPath, GoodPath, GoodValue;
    assert Prints(ls, k);
    i :| 0 <= i < |ls| && PrintPath(ls[i].path) == k;
  }

  lemma {:induction false} MapsLeaf(m: map<string, string>, ls: seq<Leaf>, t: set<string>, i: nat)
    requires MapsLines(m, ls, t) && i < |ls|
    ensures PrintPath(ls[i].path) in m && m[PrintPath(ls[i].path)] == ls[i].value
    ensures GoodPath(ls[i].path) && GoodValue(ls[i].value) && LineText("", ls[i]) in t
  {
    hide LineText, PrintPath, GoodPath, GoodValue;
  }

  lemma {:induction false} LeafOfText(m: map<string, string>, ls: seq<Leaf>, t: set<string>, line: string)
      returns (i: nat)
    requires MapsLines(m, ls, t) && line in t
    ensures i < |ls| && LineText("", ls[i]) == line
  {
    hide LineText, MapsLeaves, GoodLeaves;
    i :| 0 <= i < |ls| && LineText("", ls[i]) == line;
  }

  lemma {:induction false} MapWithin(m: map<string, string>, n: map<string, string>, ls: seq<Leaf>, ms: seq<Leaf>,
      t: set<string>)
    requires MapsLines(m, ls, t) && MapsLines(n, ms, t)
    ensures forall k :: k in m ==> k in n && n[k] == m[k]
  {
    hide MapsLines, LineText, PrintPath, GoodPath, GoodValue;
    forall k | k in m ensures k in n && n[k] == m[k] {
      var i := LeafOfKey(m, ls, t, k);
      var j := LeafOfText(n, ms, t, LineText("", ls[i]));
      MapsLeaf(n, ms, t, j);
      LineTells(ls[i], ms[j]);
    }
  }

  /** A line that one order keeps and another drops is a key that only the one map has. */
  lemma {:induction false} LineSetsTell(content: string, fields: seq<Field>, a: seq<Field>, b: seq<Field>, line: string)
    requires Tidy(fields) && !NullAtTop(fields) && (':' in content || '-' in content)
    requires Shuffled(fields, a) && Shuffled(fields, b)
    requires line in Tail(FieldVisits(a, "")) && line !in Tail(FieldVisits(b, ""))
    ensures FlatMapOf(content, Some(a)).Ok? && FlatMapOf(content, Some(b)).Ok?
    ensures exists k :: k in FlatMapOf(content, Some(a)).entries && k !in FlatMapOf(content, Some(b)).entries
  {
    hide FlatMapOf, FieldVisits, Shuffled, Tidy, Tail, LineSet, MapsLines, LineText, PrintPath, GoodPath, GoodValue;
    ShuffledTidy(fields, a);
    ShuffledTidy(fields, b);
    ShuffledNulls(fields, a);
    ShuffledNulls(fields, b);
    var ls := OutcomeLines(content, a);
    var ms := OutcomeLines(content, b);
    var m, n := FlatMapOf(content, Some(a)).entries, FlatMapOf(content, Some(b)).entries;
    var i := LeafOfText(m, ls, Tail(FieldVisits(a, "")), line);
    MapsLeaf(m, ls, Tail(FieldVisits(a, "")), i);
    var k := PrintPath(ls[i].path);
    if k in n {
      var j := LeafOfKey(n, ms, Tail(FieldVisits(b, "")), k);
      KeysDiffer(ls[i].path, ms[j].path);
      SameKeySameLine(fields, a, b, ls[i], ms[j]);
      assert false;
    }
  }

  /** The lines of the data tell leaves of one path apart in no order. */
  lemma {:induction false} SameKeySameLine(fields: seq<Field>, a: seq<Field>, b: seq<Field>, l: Leaf, m: Leaf)
    requires Tidy(fields) && Shuffled(fields, a) && Shuffled(fields, b)
    requires LineText("", l) in Tail(FieldVisits(a, "")) && LineText("", m) in Tail(FieldVisits(b, ""))
    requires GoodPath(l.path) && GoodValue(l.value) && GoodPath(m.path) && GoodValue(m.value) && l.path == m.path
    ensures LineText("", l) == LineText("", m)
  {
    hide FieldVisits, Shuffled, Tidy, Tail;
    TailWithin(FieldVisits(a, ""));
    TailWithin(FieldVisits(b, ""));
    ShuffledFieldLines(fields, a, "");
    ShuffledFieldLines(fields, b, "");
    var x := LeafOfLine(fields, l);
    var y := LeafOfLine(fields, m);
    FieldsDistinct(fields);
    FieldPaths(fields);
    assert x == y;
  }

  lemma {:induction false} LeafOfLine(fields: seq<Field>, l: Leaf) returns (i: nat)
    requires Tidy(fields) && LineText("", l) in LineSet(FieldVisits(fields, "")) && GoodPath(l.path)
        && GoodValue(l.value)
    ensures i < |FieldLeaves(fields)| && FieldLeaves(fields)[i].path == l.path
        && FieldLeaves(fields)[i].value == l.value
  {
    hide FieldVisits;
    var ls := FieldLeaves(fields);
    FieldLines(fields, "");
    FieldsGood(fields);
    i :| 0 <= i < |LeafLines("", ls)| && LeafLines("", ls)[i] == LineText("", l);
    LineTells(ls[i], l);
  }

  // ----- the readings of a YAML text -----

  type Decoder = string -> Option<seq<Field>>

  /** The decoder gives each text's data in some order of its maps; flattening
      iterates them in any order. */
  ghost predicate YamlReads(decode: Decoder, text: string, p: Parsed) {
    match decode(text)
    case None => p == FlatMapOf(text, None)
    case Some(fields) => exists b :: Shuffled(fields, b) && p == FlatMapOf(text, Some(b))
  }

  ghost function YamlSetting(decode: Decoder, fold: string -> string): Setting {
    Setting((text, p) => YamlReads(decode, text, p), fold)
  }

  predicate TidyText(decode: Decoder, text: string) {
    decode(text).Some? ==> Tidy(decode(text).value)
  }

  /** The text is not looked into, or cannot be read, or panics, or its data are steady. */
  predicate SteadyText(decode: Decoder, text: string) {
    || (':' !in text && '-' !in text) || decode(text) == None
    || NullAtTop(decode(text).value) || Steady(Map(decode(text).value))
  }

  /** Two orders give the same flat map exactly when they keep the same lines. */
  lemma {:induction false} SameMapExact(content: string, fields: seq<Field>, a: seq<Field>, b: seq<Field>)
    requires Tidy(fields) && !NullAtTop(fields) && (':' in content || '-' in content)
    requires Shuffled(fields, a) && Shuffled(fields, b)
    ensures FlatMapOf(content, Some(a)) == FlatMapOf(content, Some(b))
        <==> Tail(FieldVisits(a, "")) == Tail(FieldVisits(b, ""))
  {
    hide FlatMapOf, FieldVisits, Shuffled, Tidy, Tail, MapsLines;
    var s, t := Tail(FieldVisits(a, "")), Tail(FieldVisits(b, ""));
    if s == t {
      ShuffledTidy(fields, a);
      ShuffledTidy(fields, b);
      ShuffledNulls(fields, a);
      ShuffledNulls(fields, b);
      var ls := OutcomeLines(content, a);
      var ms := OutcomeLines(content, b);
      SameLinesSameMap(FlatMapOf(content, Some(a)).entries, FlatMapOf(content, Some(b)).entries, ls, ms, s);
    } else if line :| line in s && line !in t {
      LineSetsTell(content, fields, a, b, line);
    } else {
      var line :| line in t && line !in s;
      LineSetsTell(content, fields, b, a, line);
    }
  }

  lemma {:induction false} SteadyReadsOne(decode: Decoder, text: string, p: Parsed, q: Parsed)
    requires TidyText(decode, text) && SteadyText(decode, text) && YamlReads(decode, text, p)
        && YamlReads(decode, text, q)
    ensures p == q
  {
    hide Tidy, Tail, FieldVisits, Shuffled, Steady;
    if decode(text).Some? && (':' in text || '-' in text) {
      var fields := decode(text).value;
      var a :| Shuffled(fields, a) && p == FlatMapOf(text, Some(a));
      var b :| Shuffled(fields, b) && q == FlatMapOf(text, Some(b));
      if NullAtTop(fields) {
        ShuffledNulls(fields, a);
        ShuffledNulls(fields, b);
      } else {
        TidyUnlike(fields);
        SameLinesExact(fields);
        SameMapExact(text, fields, a, b);
      }
    }
  }

  lemma {:induction false} UnsteadyReadsTwo(decode: Decoder, text: string, fold: string -> string)
      returns (p: Parsed, q: Parsed)
    requires TidyText(decode, text) && !SteadyText(decode, text)
    ensures YamlReads(decode, text, p) && YamlReads(decode, text, q) && p.Ok? && q.Ok?
    ensures q.entries != map[] && !Agree(p.entries, q.entries, fold)
  {
    hide Tidy, Tail, FieldVisits, Shuffled, Steady, FlatMapOf;
    var fields := decode(text).value;
    TidyUnlike(fields);
    SameLinesExact(fields);
    var a, b :| Shuffled(fields, a) && Shuffled(fields, b) && Tail(FieldVisits(a, "")) != Tail(FieldVisits(b, ""));
    if line :| line in Tail(FieldVisits(b, "")) && line !in Tail(FieldVisits(a, "")) {
      LineSetsTell(text, fields, b, a, line);
      p, q := FlatMapOf(text, Some(a)), FlatMapOf(text, Some(b));
    } else {
      var line :| line in Tail(FieldVisits(a, "")) && line !in Tail(FieldVisits(b, ""));
      LineSetsTell(text, fields, a, b, line);
      p, q := FlatMapOf(text, Some(b)), FlatMapOf(text, Some(a));
    }
    var k :| k in q.entries && k !in p.entries;
    assert !Diff.Alike(At(p.entries, k), At(q.entries, k), fold);
  }

  /** A YAML text always gives the same entries, and nothing to release against
      itself, exactly when its data are steady. */
  lemma {:induction false} OneReadingExact(decode: Decoder, fold: string -> string, text: string)
    requires TidyText(decode, text)
    ensures OneReading(YamlSetting(decode, fold), text) <==> SteadyText(decode, text)
    ensures Settled(YamlSetting(decode, fold), text) <==> SteadyText(decode, text)
  {
    hide YamlReads, SteadyText, TidyText, Agree;
    var c := YamlSetting(decode, fold);
    if SteadyText(decode, text) {
      forall p, q | c.readAs(text, p) && c.readAs(text, q)
        ensures p == q && Pending(p, q, fold) == None && Agree(Entries(p), Entries(q), fold)
      {
        SteadyReadsOne(decode, text, p, q);
        AgreeSelf(Entries(p), fold);
        SameExact(Entries(p), Entries(q), fold);
      }
    } else {
      var p, q := UnsteadyReadsTwo(decode, text, fold);
      SameExact(p.entries, q.entries, fold);
      assert c.readAs(text, p) && c.readAs(text, q);
    }
  }

  /** Retries after a crash past the write leave a YAML namespace alone exactly when
      the content's data are steady. */
  lemma {:induction false} YamlRetries(decode: Decoder, fold: string -> string, w: World)
    requires w.phase == Idle && w.ns.current.Some? && w.ns.future == w.ns.current
        && TidyText(decode, w.ns.current.value)
    ensures var c := YamlSetting(decode, fold);
            (forall retries :: OnlyRetries(c, w, retries) ==> RunOn(c, w, retries).ns == w.ns)
            <==> SteadyText(decode, w.ns.current.value)
  {
    hide OnlyRetries, RunOn, SteadyText, TidyText, Settled;
    OneReadingExact(decode, fold, w.ns.current.value);
    RetriesChangeNothing(YamlSetting(decode, fold), w);
  }

  /** The clients of a YAML namespace always end up with the current content exactly
      when the data of every content are steady. */
  lemma {:induction false} YamlClients(decode: Decoder, fold: string -> string, texts: iset<string>)
    requires forall text :: text in texts ==> TidyText(decode, text)
    ensures AlwaysCurrent(YamlSetting(decode, fold), texts)
            <==> forall text :: text in texts ==> SteadyText(decode, text)
  {
    hide AlwaysCurrent, SteadyText, TidyText, OneReading;
    var c := YamlSetting(decode, fold);
    EmptyReading(decode);
    assert c.readAs("", Ok(map[]));
    forall p | c.readAs("", p) ensures Entries(p) == map[] {
    }
    forall text | text in texts ensures OneReading(c, text) <==> SteadyText(decode, text) {
      OneReadingExact(decode, fold, text);
    }
    ClientsFollowExact(c, texts);
  }

  lemma {:induction false} EmptyReading(decode: Decoder)
    ensures YamlReads(decode, "", Ok(map[]))
    ensures forall p :: YamlReads(decode, "", p) ==> p == Ok(map[])
  {
    if decode("").Some? {
      ShuffledFieldsSelf(decode("").value);
    }
  }

  // ----- json and props -----

  /** json is turned into YAML, if it can be, and that is flattened. */
  ghost predicate JsonReads(toYaml: string -> Option<string>, decode: Decoder, text: string, p: Parsed) {
    match toYaml(text)
    case None => p == Illegal
    case Some(yaml) => YamlReads(decode, yaml, p)
  }

  ghost predicate Releasable(format: string, first: Parsed, second: Parsed, fold: string -> string) {
    var d := DiffTexts(format, first, second, fold);
    d.Some? && !d.value.same
  }

  /** A json text can be released over anything exactly when its own data are not steady. */
  lemma {:induction false} JsonReleasableExact(toYaml: string -> Option<string>, decode: Decoder, text: string,
      fold: string -> string)
    requires toYaml(text).Some? ==> TidyText(decode, toYaml(text).value)
    ensures (exists a, b ::
               && JsonReads(toYaml, decode, text, a) && JsonReads(toYaml, decode, text, b)
               && Releasable("json", a, b, fold))
            <==> toYaml(text).Some? && !SteadyText(decode, toYaml(text).value)
  {
    hide YamlReads, SteadyText, TidyText, Agree, DiffTexts;
    if toYaml(text).Some? && !SteadyText(decode, toYaml(text).value) {
      var p, q := UnsteadyReadsTwo(decode, toYaml(text).value, fold);
      ReleasableExact("json", p, q, fold);
      assert JsonReads(toYaml, decode, text, p) && JsonReads(toYaml, decode, text, q) && Releasable("json", p, q, fold);
    } else {
      forall a, b | JsonReads(toYaml, decode, text, a) && JsonReads(toYaml, decode, text, b)
        ensures !Releasable("json", a, b, fold)
      {
        if toYaml(text).Some? {
          SteadyReadsOne(decode, toYaml(text).value, a, b);
        }
        ReleasableExact("json", a, b, fold);
        AgreeSelf(Entries(a), fold);
      }
    }
  }

  ghost function PropsSetting(fold: string -> string): Setting {
    Setting((text, p) => p == MapOf(text), fold)
  }

  /** A properties text has one reading: retries of a props namespace change nothing,
      and its clients always end up with the current content. */
  lemma {:induction false} PropsReadsOne(fold: string -> string, texts: iset<string>)
    ensures var c := PropsSetting(fold);
            && (forall text :: OneReading(c, text) && Settled(c, text))
            && AlwaysCurrent(c, texts)
  {
    hide AlwaysCurrent, MapOf, Agree;
    var c := PropsSetting(fold);
    forall text ensures OneReading(c, text) && Settled(c, text) {
      AgreeSelf(Entries(MapOf(text)), fold);
      SameExact(Entries(MapOf(text)), Entries(MapOf(text)), fold);
    }
    NoProps();
    assert c.readAs("", MapOf(""));
    ClientsFollowExact(c, texts);
  }

  lemma {:induction false} NoProps()
    ensures MapOf("") == Illegal
  {
  }

  // ----- when data are steady -----

  /** Data that lose no line in any order are steady. */
  lemma {:induction false} SafeSteady(fields: seq<Field>)
    requires Tidy(fields) && Safe(fields)
    ensures Steady(Map(fields))
  {
    hide Tidy, Safe, Shuffled, Tail, LineSet, FieldVisits, EmptyAfterLine, Steady;
    TidyUnlike(fields);
    forall b | Shuffled(fields, b) ensures Tail(FieldVisits(b, "")) == LineSet(FieldVisits(fields, "")) {
      ShuffledFieldsAlike(fields, b);
      SafeFieldVisits(b, "");
      KeptAll(FieldVisits(b, ""));
      ShuffledFieldLines(fields, b, "");
    }
    SameLinesExact(fields);
  }

  lemma {:induction false} KeptAll(visits: seq<Visit>)
    requires !EmptyAfterLine(visits)
    ensures Tail(visits) == LineSet(visits)
  {
    FlattenKeepsAll(visits);
  }

  const BESIDE: seq<Field> := [Field("a", Map([])), Field("c", Scalar("1"))]
  const BESIDE_TEXT := "a: {}\nc: 1\n"

  /** An empty map beside a leaf: the text is read as two maps, one of them empty, so
      a retry may release it again and a client may load either. */
  lemma {:induction false} EmptyMapUnsettles(decode: Decoder, fold: string -> string)
    requires decode(BESIDE_TEXT) == Some(BESIDE)
    ensures var c := YamlSetting(decode, fold);
            && c.readAs(BESIDE_TEXT, Ok(map["c" := "1"])) && c.readAs(BESIDE_TEXT, Ok(map[]))
            && !Settled(c, BESIDE_TEXT) && !OneReading(c, BESIDE_TEXT)
  {
    hide FlatMapOf, Shuffled, Settled, OneReading, Steady, Tidy;
    BesideReadings();
    ShuffledFieldsSelf(BESIDE);
    ShuffledSwap(BESIDE, 0, 1);
    BesideUnsteady();
    BesideTidy();
    OneReadingExact(decode, fold, BESIDE_TEXT);
    var c := YamlSetting(decode, fold);
    assert YamlReads(decode, BESIDE_TEXT, FlatMapOf(BESIDE_TEXT, Some(BESIDE)));
    assert YamlReads(decode, BESIDE_TEXT, FlatMapOf(BESIDE_TEXT, Some(Picked(BESIDE, Swapped(2, 0, 1)))));
  }

  lemma {:induction false} BesideUnsteady()
    ensures !Steady(Map(BESIDE)) && !NullAtTop(BESIDE) && ':' in BESIDE_TEXT
  {
    assert HasEmpty(BESIDE[0].data) && HasLeaf(BESIDE[1].data) && !Clears(BESIDE[1].data);
    assert BESIDE_TEXT[1] == ':';
    forall i | 0 <= i < |BESIDE| ensures !Alone(BESIDE, i) {
      assert if i == 0 then HasLeaf(BESIDE[1].data) else HasEmpty(BESIDE[0].data);
    }
  }

  lemma {:induction false} BesideTidy()
    ensures Tidy(BESIDE)
  {
    hide GoodKey, GoodValue;
    PlainLetter("a");
    PlainLetter("c");
    PlainDigit();
    TidyTwo(BESIDE[0], BESIDE[1]);
  }

  lemma {:induction false} PlainDigit()
    ensures GoodValue("1")
  {
  }

  lemma {:induction false} TidyTwo(a: Field, b: Field)
    requires GoodKey(a.key) && GoodKey(b.key) && a.key != b.key
    requires a.data == Map([]) && b.data.Scalar? && GoodValue(b.data.text)
    ensures Tidy([a, b])
  {
    hide GoodKey, GoodValue;
    assert TidyData(a.data) && TidyData(b.data);
  }

  lemma {:induction false} PlainLetter(k: string)
    requires k == "a" || k == "c"
    ensures GoodKey(k)
  {
    assert LastIndexOf(k, '[') == LastIndexOf(k[..0], '[') == -1;
  }

  lemma {:induction false} BesideReadings()
    ensures FlatMapOf(BESIDE_TEXT, Some(BESIDE)) == Ok(map["c" := "1"])
    ensures FlatMapOf(BESIDE_TEXT, Some(Picked(BESIDE, Swapped(2, 0, 1)))) == Ok(map[])
  {
    hide ItemLines, LineMap, MapsLeaves, PrintPath, Texts, Flattened, Lines, FlatMapOf;
    var l := Leaf(-1, [Seg("c", -1)], "1");
    BesideVisits();
    BesideLeaf(l);
    assert GoodLeaves([]) && Distinct([]) && Distinct([l]);
    LeavesMap([l]);
    LeavesMap([]);
    OneEntry(LineMap(ItemLines(Lines(Texts([l]), '\n'))).entries, l);
    NoEntry(LineMap(ItemLines(Lines(Texts([]), '\n'))).entries);
    BesideUnsteady();
    NullsSwapped();
    FlatMapIs(BESIDE_TEXT, BESIDE);
    FlatMapIs(BESIDE_TEXT, Picked(BESIDE, Swapped(2, 0, 1)));
  }

  lemma {:induction false} NullsSwapped()
    ensures !NullAtTop(Picked(BESIDE, Swapped(2, 0, 1)))
  {
  }

  lemma {:induction false} BesideLeaf(l: Leaf)
    requires l == Leaf(-1, [Seg("c", -1)], "1")
    ensures GoodLeaves([l]) && PrintPath(l.path) == "c"
    ensures Texts([l]) == ["c=1"] && Texts([]) == []
  {
    hide GoodKey, GoodValue, Peel;
    PlainLetter("c");
    PlainDigit();
    PlainSegC();
    PrintCons(Seg("c", -1), []);
    assert [Seg("c", -1)] + [] == [Seg("c", -1)];
    assert LineText("", l) == "" + "c" + "=" + "1" == "c=1";
  }

  lemma {:induction false} PlainSegC()
    ensures PlainSeg(Seg("c", -1))
  {
    PlainLetter("c");
  }

  lemma {:induction false} BesideVisits()
    ensures Flattened(BESIDE) == Lines(["c=1"], '\n')
    ensures Flattened(Picked(BESIDE, Swapped(2, 0, 1))) == Lines([], '\n')
  {
    assert Picked(BESIDE, Swapped(2, 0, 1)) == [Field("c", Scalar("1")), Field("a", Map([]))];
    BesideLines([Field("c", Scalar("1")), Field("a", Map([]))]);
    BesideLines(BESIDE);
  }

  lemma {:induction false} BesideLines(fields: seq<Field>)
    requires fields == BESIDE || fields == [Field("c", Scalar("1")), Field("a", Map([]))]
    ensures Flattened(fields) == Lines(if fields == BESIDE then ["c=1"] else [], '\n')
  {
    EscapeNothing("1");
    LeafVisit("c", Scalar("1"));
    EmptyVisit("a", Map([]));
    assert "c" + "=" + "1" == "c=1";
    assert WithDot("") == "" && "" + "c" == "c" && "" + "a" == "a";
    assert fields[1..][1..] == [];
    assert FieldVisits(fields, "")
        == if fields == BESIDE then [EmptyMap, LeafLine("c=1")] else [LeafLine("c=1"), EmptyMap];
    CollectFirst([], FieldVisits(fields, ""));
    assert Collect([], FieldVisits(fields, "")[1..]) == Collect(Collect([], [FieldVisits(fields, "")[1]]), []);
  }

  lemma {:induction false} EmptyVisit(prefix: string, d: Data)
    requires d == Map([])
    ensures Visits(d, prefix) == [EmptyMap]
  {
  }

  lemma {:induction false} OneEntry(m: map<string, string>, l: Leaf)
    requires MapsLeaves(m, [l])
    ensures m == map[PrintPath(l.path) := l.value]
  {
    hide PrintPath;
    var k := PrintPath([l][0].path);
    assert k in m && m[k] == l.value;
    forall x | x in m ensures x == k {
      assert Prints([l], x);
    }
  }

  lemma {:induction false} NoEntry(m: map<string, string>)
    requires MapsLeaves(m, [])
    ensures m == map[]
  {
  }
}
