/** Small result types shared by the modules. */
module Results {
  datatype Option<+T> = None | Some(value: T)

  /** The outcome of reading a flat map from text: the entries, an error, or a crash. */
  datatype Parsed = Ok(entries: map<string, string>) | Illegal | Panic

  function At<V>(m: map<string, V>, k: string): Option<V> {
    if k in m then Some(m[k]) else None
  }

  /** The entries of m under the given keys. */
  function Within<V>(m: map<string, V>, keys: set<string>): (r: map<string, V>)
    ensures r.Keys == m.Keys * keys && forall k :: k in r ==> r[k] == m[k]
  {
    m - (m.Keys - keys)
  }

  /** The map that has under each key what f gives for it. */
  ghost function Over<K, V>(keys: set<K>, f: K --> V): (m: map<K, V>)
    requires forall k :: k in keys ==> f.requires(k)
    ensures m.Keys == keys && forall k :: k in keys ==> m[k] == f(k)
  {
    if keys == {} then map[]
    else
      var k :| k in keys;
      Over(keys - {k}, f)[k := f(k)]
  }
}
