/** Which lines nested data flatten to, arrays directly in arrays and keys with
    separators in them included (doMapToProperties in service/cfg/codec.go). */
module Places {
  import opened Text
  import opened Data
  import opened Props

  /** The line is that of a leaf in the data, under the name of the place it is at:
      fields after a dot, elements by their number in brackets. */
  ghost predicate LineAt(d: Data, place: string, line: string)
    decreases d
  {
    match d
    case Map(fields) =>
      exists i :: 0 <= i < |fields| &&
        LineAt(fields[i].data, if place == "" then fields[i].key else place + "." + fields[i].key, line)
    case List(elems) => exists i :: 0 <= i < |elems| && LineAt(elems[i], place + "[" + Itoa(i) + "]", line)
    case _ => line == place + "=" + LeafText(d)
  }

  /** Every leaf at any depth has its line and there are no others. */
  lemma {:induction false} LinesExact(d: Data, place: string, line: string)
    ensures line in LinesOf(Visits(d, place)) <==> LineAt(d, place, line)
    decreases d, 1
  {
    match d
    case Map(fields) => FieldLinesExact(fields, place, line);
    case List(elems) => ElemLinesExact(elems, place, 0, line);
    case _ =>
  }

  lemma {:induction false} FieldLinesExact(fields: seq<Field>, place: string, line: string)
    ensures line in LinesOf(FieldVisits(fields, place)) <==>
              exists i :: 0 <= i < |fields| &&
                LineAt(fields[i].data, if place == "" then fields[i].key else place + "." + fields[i].key, line)
    decreases fields, 0
  {
    hide LineAt, Visits, LinesOf;
    if fields != [] {
      var first := Visits(fields[0].data, WithDot(place) + fields[0].key);
      LinesConcat(first, FieldVisits(fields[1..], place));
      LinesExact(fields[0].data, WithDot(place) + fields[0].key, line);
      FieldLinesExact(fields[1..], place, line);
      assert "" + fields[0].key == fields[0].key;
      assert forall i :: 0 <= i < |fields[1..]| ==> fields[1..][i] == fields[i + 1];
    } else {
      NoVisits();
    }
  }

  lemma {:induction false} NoVisits()
    ensures LinesOf([]) == []
  {
  }

  lemma {:induction false} ElemLinesExact(elems: seq<Data>, place: string, from: nat, line: string)
    ensures line in LinesOf(ElemVisits(elems, place, from)) <==>
              exists i :: 0 <= i < |elems| && LineAt(elems[i], place + "[" + Itoa(from + i) + "]", line)
    decreases elems, 0
  {
    hide LineAt, Visits, LinesOf;
    if elems != [] {
      LinesConcat(Visits(elems[0], place + "[" + Itoa(from) + "]"), ElemVisits(elems[1..], place, from + 1));
      LinesExact(elems[0], place + "[" + Itoa(from) + "]", line);
      ElemLinesExact(elems[1..], place, from + 1, line);
      assert forall i :: 0 <= i < |elems[1..]| ==> elems[1..][i] == elems[i + 1];
    } else {
      NoVisits();
    }
  }
}
