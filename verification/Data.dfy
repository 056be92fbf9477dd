/** Nested configuration data, as the YAML and JSON decoders deliver it, and the
    leaves it has: one value per path. */
module Data {
  import opened Tree

  /** Scalars are kept as the text they print as.  A map is given in the order
      in which it happens to be iterated. */
  datatype Data = Null | Scalar(text: string) | Map(fields: seq<Field>) | List(elems: seq<Data>)
  datatype Field = Field(key: string, data: Data)

  function Reindex(index: int, ls: seq<Leaf>): seq<Leaf> {
    seq(|ls|, i requires 0 <= i < |ls| => ls[i].(index := index))
  }

  function FieldLeaves(fields: seq<Field>): seq<Leaf>
    decreases fields, 0
  {
    if fields == [] then [] else ValueLeaves(fields[0].key, fields[0].data) + FieldLeaves(fields[1..])
  }

  function ValueLeaves(key: string, d: Data): seq<Leaf>
    decreases d, 1
  {
    match d
    case Null => [Leaf(-1, [Seg(key, -1)], "")]
    case Scalar(text) => [Leaf(-1, [Seg(key, -1)], text)]
    case Map(fields) => UnderAll(-1, key, FieldLeaves(fields))
    case List(elems) => UnderAll(-1, key, ElemLeaves(elems, 0))
  }

  /** The leaves of array elements; arrays directly inside arrays have no path of this kind. */
  function ElemLeaves(elems: seq<Data>, from: nat): seq<Leaf>
    decreases elems, 0
  {
    if elems == [] then [] else OneElem(elems[0], from) + ElemLeaves(elems[1..], from + 1)
  }

  function OneElem(d: Data, i: nat): seq<Leaf>
    decreases d, 0
  {
    match d
    case Null => [Leaf(i, [], "")]
    case Scalar(text) => [Leaf(i, [], text)]
    case Map(fields) => Reindex(i, FieldLeaves(fields))
    case List(_) => []
  }

  // ----- shape -----

  /** Keys are distinct; maps and arrays below are not empty; no array is
      directly inside an array. */
  predicate Regular(fields: seq<Field>)
    decreases fields, 0
  {
    && (forall i :: 0 <= i < |fields| ==> RegularData(fields[i].data))
    && (forall i, j :: 0 <= i < j < |fields| ==> fields[i].key != fields[j].key)
  }

  predicate RegularData(d: Data)
    decreases d, 0
  {
    match d
    case Map(fields) => fields != [] && Regular(fields)
    case List(elems) => elems != [] && RegularElems(elems)
    case _ => true
  }

  predicate RegularElems(elems: seq<Data>)
    decreases elems, 0
  {
    forall i :: 0 <= i < |elems| ==> !elems[i].List? && RegularData(elems[i])
  }

  // ----- equality up to the order of keys -----

  predicate IsText(d: Data) { d.Null? || d.Scalar? }

  /** Null reads as the empty text. */
  function TextOf(d: Data): string { if d.Scalar? then d.text else "" }

  predicate SameFields(a: seq<Field>, b: seq<Field>)
    decreases a, 0
  {
    && |a| == |b|
    && (forall i :: 0 <= i < |a| ==> exists j :: 0 <= j < |b| && a[i].key == b[j].key && SameData(a[i].data, b[j].data))
  }

  predicate SameData(d: Data, e: Data)
    decreases d, 0
  {
    || (IsText(d) && IsText(e) && TextOf(d) == TextOf(e))
    || (d.Map? && e.Map? && SameFields(d.fields, e.fields))
    || (d.List? && e.List? && SameElems(d.elems, e.elems))
  }

  predicate SameElems(a: seq<Data>, b: seq<Data>)
    decreases a, 0
  {
    |a| == |b| && forall i :: 0 <= i < |a| ==> SameData(a[i], b[i])
  }
}
