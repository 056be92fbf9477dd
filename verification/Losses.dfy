/** What flattening cannot tell apart: empty maps and arrays leave nothing in the
    text, and an empty map takes the lines before it along
    (service/cfg/codec.go, doMapToProperties). */
module Losses {
  import opened Text
  import opened Data
  import opened Props
  import opened Iteration
  import opened Outcomes

  /** Nothing below: neither a value nor anything that could hold its place. */
  predicate Hollow(d: Data) {
    d == Map([]) || d == List([])
  }

  // ----- the data that the text stands for -----

  /** The fields that leave a line, with what is left of them. */
  function Survivors(fields: seq<Field>): seq<Field>
    decreases fields, 0
  {
    if fields == [] then []
    else
      var rest := Survivors(fields[1..]);
      var first := Surviving(fields[0].data);
      if (fields[1..] != [] && HasEmpty(Map(fields[1..]))) || Hollow(first) then rest
      else [Field(fields[0].key, first)] + rest
  }

  function Surviving(d: Data): Data
    decreases d, 1
  {
    match d
    case Map(fields) => Map(Survivors(fields))
    case List(elems) => List(SurvivingElems(elems))
    case _ => d
  }

  /** An element that leaves no line still counts, as [], if a later one leaves one. */
  function SurvivingElems(elems: seq<Data>): seq<Data>
    decreases elems, 0
  {
    if elems == [] then []
    else
      var rest := SurvivingElems(elems[1..]);
      var first := if HasEmpty(List(elems[1..])) || Hollow(Surviving(elems[0])) then List([]) else Surviving(elems[0]);
      if rest == [] && first == List([]) then [] else [first] + rest
  }

  // ----- its visits are the lines that are left -----

  /** The visits of the survivors are lines only, those that collecting leaves. */
  ghost predicate Leaves(after: seq<Visit>, before: seq<Visit>) {
    !SomeEmpty(after) && LinesOf(after) == Collect([], before)
  }

  lemma {:induction false} NothingLeft()
    ensures Leaves([], []) && Leaves([], [EmptyMap])
  {
    assert Collect([], [EmptyMap]) == Collect([], [EmptyMap][1..]) == [];
  }

  lemma {:induction false} LeavesConcat(a: seq<Visit>, b: seq<Visit>, x: seq<Visit>, y: seq<Visit>)
    requires Leaves(a, x) && Leaves(b, y)
    ensures SomeEmpty(y) ==> Leaves(b, x + y)
    ensures !SomeEmpty(y) ==> Leaves(a + b, x + y)
  {
    CollectConcat([], x, y);
    CollectFrom(Collect([], x), y);
    CollectFrom([], y);
    ConcatVisits(a, b);
    LinesConcat(a, b);
    assert [] + LinesOf(y) == LinesOf(y);
  }

  lemma {:induction false} FieldsLeft(fields: seq<Field>, prefix: string)
    ensures Leaves(FieldVisits(Survivors(fields), prefix), FieldVisits(fields, prefix))
    decreases fields, 0
  {
    hide Leaves, Visits, Surviving, SomeEmpty;
    if fields != [] {
      var first, rest, key := Surviving(fields[0].data), Survivors(fields[1..]), WithDot(prefix) + fields[0].key;
      ValueLeft(fields[0].data, key);
      FieldsLeft(fields[1..], prefix);
      FieldsShow(fields[1..], prefix);
      LeavesConcat(ShownVisits(first, key), FieldVisits(rest, prefix),
                   Visits(fields[0].data, key), FieldVisits(fields[1..], prefix));
      assert ([Field(fields[0].key, first)] + rest)[1..] == rest;
      assert [] + FieldVisits(rest, prefix) == FieldVisits(rest, prefix);
    } else {
      NothingLeft();
    }
  }

  /** A hollow value is left out. */
  function ShownVisits(d: Data, prefix: string): seq<Visit> {
    if Hollow(d) then [] else Visits(d, prefix)
  }

  lemma {:induction false} ValueLeft(d: Data, prefix: string)
    ensures Leaves(ShownVisits(Surviving(d), prefix), Visits(d, prefix))
    decreases d, 1
  {
    hide Leaves, SomeEmpty;
    match d
    case Map(fields) =>
      if fields == [] {
        NothingLeft();
      } else {
        FieldsLeft(fields, prefix);
      }
    case List(elems) => ElemsLeft(elems, prefix, 0);
    case _ => LeafLeft(d, prefix);
  }

  lemma {:induction false} LeafLeft(d: Data, prefix: string)
    requires !d.Map? && !d.List?
    ensures Leaves(Visits(d, prefix), Visits(d, prefix))
  {
    CollectFrom([], Visits(d, prefix));
    assert [] + LinesOf(Visits(d, prefix)) == LinesOf(Visits(d, prefix));
  }

  lemma {:induction false} HollowElem(prefix: string)
    ensures Visits(List([]), prefix) == []
  {
  }

  lemma {:induction false} ElemsLeft(elems: seq<Data>, prefix: string, from: nat)
    ensures Leaves(ElemVisits(SurvivingElems(elems), prefix, from), ElemVisits(elems, prefix, from))
    decreases elems, 0
  {
    hide Leaves, Visits, Surviving, SomeEmpty, Itoa;
    if elems != [] {
      var first, rest, key := Surviving(elems[0]), SurvivingElems(elems[1..]), prefix + "[" + Itoa(from) + "]";
      ValueLeft(elems[0], key);
      ElemsLeft(elems[1..], prefix, from + 1);
      ElemsShow(elems[1..], prefix, from + 1);
      LeavesConcat(ShownVisits(first, key), ElemVisits(rest, prefix, from + 1),
                   Visits(elems[0], key), ElemVisits(elems[1..], prefix, from + 1));
      var put := if HasEmpty(List(elems[1..])) || Hollow(first) then List([]) else first;
      assert ([put] + rest)[1..] == rest;
      HollowElem(key);
      assert [] + ElemVisits(rest, prefix, from + 1) == ElemVisits(rest, prefix, from + 1);
    } else {
      NothingLeft();
    }
  }

  // ----- data that leave everything -----

  /** No map is empty, and no array but one that holds the place of an element
      before another. */
  predicate Full(fields: seq<Field>)
    decreases fields, 0
  {
    forall i :: 0 <= i < |fields| ==> FullData(fields[i].data)
  }

  predicate FullData(d: Data)
    decreases d, 0
  {
    match d
    case Map(fields) => fields != [] && Full(fields)
    case List(elems) => elems != [] && FullElems(elems)
    case _ => true
  }

  predicate FullElems(elems: seq<Data>)
    decreases elems, 0
  {
    && (forall i :: 0 <= i < |elems| - 1 ==> elems[i] == List([]) || FullData(elems[i]))
    && (elems != [] ==> FullData(elems[|elems| - 1]))
  }

  lemma {:induction false} FullHasNoEmpty(d: Data)
    requires FullData(d) || d == List([])
    ensures !HasEmpty(d)
    decreases d, 0
  {
    match d
    case Map(fields) =>
      forall i | 0 <= i < |fields| ensures !HasEmpty(fields[i].data) {
        FullHasNoEmpty(fields[i].data);
      }
    case List(elems) =>
      forall i | 0 <= i < |elems| ensures !HasEmpty(elems[i]) {
        FullHasNoEmpty(elems[i]);
      }
    case _ =>
  }

  lemma {:induction false} FieldsSurvive(fields: seq<Field>)
    ensures Full(Survivors(fields))
    ensures Full(fields) ==> Survivors(fields) == fields
    decreases fields, 0
  {
    if fields != [] {
      FieldsSurvive(fields[1..]);
      ValueSurvives(fields[0].data);
      if Full(fields) {
        forall i | 0 <= i < |fields[1..]| ensures FullData(fields[1..][i].data) && !HasEmpty(fields[1..][i].data) {
          assert fields[1..][i] == fields[i + 1];
          FullHasNoEmpty(fields[i + 1].data);
        }
        assert fields == [fields[0]] + fields[1..];
      }
    }
  }

  lemma {:induction false} ValueSurvives(d: Data)
    ensures Hollow(Surviving(d)) || FullData(Surviving(d))
    ensures FullData(d) ==> Surviving(d) == d && !Hollow(d)
    decreases d, 1
  {
    match d
    case Map(fields) => FieldsSurvive(fields);
    case List(elems) => ElemsSurvive(elems);
    case _ =>
  }

  lemma {:induction false} ElemsSurvive(elems: seq<Data>)
    ensures FullElems(SurvivingElems(elems))
    ensures FullElems(elems) ==> SurvivingElems(elems) == elems
    decreases elems, 0
  {
    if elems != [] {
      var rest := SurvivingElems(elems[1..]);
      ElemsSurvive(elems[1..]);
      ValueSurvives(elems[0]);
      if FullElems(elems) {
        FullRest(elems);
        if elems[0] == List([]) {
          assert SurvivingElems([]) == [];
        }
      }
      var gone := HasEmpty(List(elems[1..])) || Hollow(Surviving(elems[0]));
      FullMore(if gone then List([]) else Surviving(elems[0]), rest);
    }
  }

  lemma {:induction false} FullRest(elems: seq<Data>)
    requires elems != [] && FullElems(elems)
    ensures FullElems(elems[1..]) && !HasEmpty(List(elems[1..])) && elems == [elems[0]] + elems[1..]
    ensures elems[1..] == [] ==> FullData(elems[0])
    ensures elems[1..] != [] ==> elems[0] == List([]) || FullData(elems[0])
  {
    forall i | 0 <= i < |elems[1..]| ensures !HasEmpty(elems[1..][i]) {
      assert elems[1..][i] == elems[i + 1];
      FullHasNoEmpty(elems[i + 1]);
    }
  }

  lemma {:induction false} FullMore(first: Data, rest: seq<Data>)
    requires FullElems(rest) && (FullData(first) || first == List([]))
    ensures rest != [] || FullData(first) ==> FullElems([first] + rest)
  {
    assert forall i :: 0 < i <= |rest| ==> ([first] + rest)[i] == rest[i - 1];
  }

  // ----- in full -----

  /** Every text that data flatten to is the text of full data, so nothing that
      reads the text can tell the two apart; and they are two exactly when there is
      an empty map, or an empty array that is no element before another. */
  lemma {:induction false} EmptiesNotKept(fields: seq<Field>)
    requires !NullAtTop(fields)
    ensures ToProperties(Survivors(fields)) == ToProperties(fields) && Full(Survivors(fields))
    ensures Survivors(fields) == fields <==> Full(fields)
  {
    var visits, left := FieldVisits(fields, ""), FieldVisits(Survivors(fields), "");
    FieldsLeft(fields, "");
    CollectFrom([], left);
    assert [] + LinesOf(left) == LinesOf(left);
    FieldsSurvive(fields);
    SurvivorsNotNull(fields);
  }

  lemma {:induction false} SurvivorsNotNull(fields: seq<Field>)
    requires !NullAtTop(fields)
    ensures !NullAtTop(Survivors(fields))
  {
    if fields != [] {
      assert forall i :: 0 < i < |fields| ==> fields[i] == fields[1..][i - 1];
      SurvivorsNotNull(fields[1..]);
      var rest := Survivors(fields[1..]);
      assert !fields[0].data.Null?;
      assert forall i :: 0 < i <= |rest| ==>
               ([Field(fields[0].key, Surviving(fields[0].data))] + rest)[i] == rest[i - 1];
    }
  }
}
