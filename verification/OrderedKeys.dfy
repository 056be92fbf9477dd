/** Keys in byte order, as an ordered key-value store iterates them, and the
    seek-and-stop cursor loop (store/raft/raft.go, ScanKvs and ScanKeys). */
module OrderedKeys {
  import opened Results
  import opened Fsm

  predicate Before(a: string, b: string) {
    if a == "" then b != ""
    else b != "" && (a[0] < b[0] || (a[0] == b[0] && Before(a[1..], b[1..])))
  }

  lemma {:induction false} Irreflexive(a: string)
    ensures !Before(a, a)
  {
    if a != "" { Irreflexive(a[1..]); }
  }

  lemma {:induction false} Transitive(a: string, b: string, c: string)
    requires Before(a, b) && Before(b, c)
    ensures Before(a, c)
  {
    if a != "" && a[0] == b[0] && b[0] == c[0] { Transitive(a[1..], b[1..], c[1..]); }
  }

  lemma {:induction false} Total(a: string, b: string)
    ensures a == b || Before(a, b) || Before(b, a)
  {
    if a != "" && b != "" && a[0] == b[0] {
      Total(a[1..], b[1..]);
      assert a == [a[0]] + a[1..] && b == [b[0]] + b[1..];
    }
  }

  ghost predicate Sorted(keys: seq<string>) {
    forall i, j :: 0 <= i < j < |keys| ==> Before(keys[i], keys[j])
  }

  /** keys lists exactly the given set, in byte order. */
  ghost predicate Lists(keys: seq<string>, s: set<string>) {
    Sorted(keys) && (forall k :: k in keys <==> k in s)
  }

  lemma {:induction false} Smallest(s: set<string>) returns (k: string)
    requires s != {}
    ensures k in s && forall x :: x in s && x != k ==> Before(k, x)
  {
    k :| k in s;
    var rest := s - {k};
    assert s == rest + {k};
    if rest != {} {
      var m := Smallest(rest);
      Total(k, m);
      if Before(m, k) {
        k := m;
      } else {
        forall x | x in s && x != k ensures Before(k, x) {
          if x != m { Transitive(k, m, x); }
        }
      }
    }
  }

  /** The order in which an iterator meets the keys. */
  method Iterate(s: set<string>) returns (keys: seq<string>)
    ensures Lists(keys, s)
  {
    keys := [];
    var rest := s;
    while rest != {}
      invariant Sorted(keys) && rest <= s
      invariant forall k :: k in s <==> k in keys || k in rest
      invariant forall i, x :: 0 <= i < |keys| && x in rest ==> Before(keys[i], x)
      decreases rest
    {
      ghost var m := Smallest(rest);
      var k :| k in rest && forall x :: x in rest && x != k ==> Before(k, x);
      keys := keys + [k];
      rest := rest - {k};
    }
  }

  /** Between a key not before the prefix and a key with the prefix, all have it. */
  lemma {:induction false} PrefixBlock(p: string, a: string, b: string)
    requires !Before(a, p) && Before(a, b) && p <= b
    ensures p <= a
  {
    if p != "" {
      assert b[0] == p[0];
      if a != "" {
        assert a[0] == p[0];
        assert p[1..] <= b[1..];
        PrefixBlock(p[1..], a[1..], b[1..]);
        assert a == [a[0]] + a[1..] && p == [p[0]] + p[1..];
      }
    }
  }

  /** No key with the prefix comes before the prefix itself. */
  lemma {:induction false} PrefixFirst(p: string, a: string)
    requires p <= a
    ensures !Before(a, p)
  {
    if p != "" {
      assert p[1..] <= a[1..];
      PrefixFirst(p[1..], a[1..]);
    }
  }

  /** From the first key not before the prefix up to the first key without it
      lie exactly the keys that have it. */
  lemma {:induction false} Block(keys: seq<string>, s: set<string>, p: string, start: nat, stop: nat)
    requires Lists(keys, s) && start <= stop <= |keys|
    requires forall j :: 0 <= j < start ==> Before(keys[j], p)
    requires start < |keys| ==> !Before(keys[start], p)
    requires forall j :: start <= j < stop ==> p <= keys[j]
    requires stop < |keys| ==> !(p <= keys[stop])
    ensures Lists(keys[start..stop], set k | k in s && p <= k)
  {
    forall k | k in s && p <= k ensures k in keys[start..stop] {
      var j :| 0 <= j < |keys| && keys[j] == k;
      PrefixFirst(p, k);
      if j > stop {
        if stop > start && Before(keys[stop], p) {
          Transitive(keys[start], keys[stop], p);
        }
        PrefixBlock(p, keys[stop], k);
      }
      assert keys[start..stop][j - start] == k;
    }
  }

  /** ValidForPrefix ends the loop at the first key without the prefix; still
      every key with it is found, because such keys follow one another. */
  method ScanPrefix(s: set<string>, p: string) returns (found: seq<string>)
    ensures Lists(found, set k | k in s && p <= k)
  {
    var keys := Iterate(s);
    var i := 0;
    while i < |keys| && Before(keys[i], p)
      invariant 0 <= i <= |keys| && forall j :: 0 <= j < i ==> Before(keys[j], p)
    {
      i := i + 1;
    }
    ghost var start := i;
    found := [];
    while i < |keys| && p <= keys[i]
      invariant start <= i <= |keys| && found == keys[start..i]
      invariant forall j :: start <= j < i ==> p <= keys[j]
    {
      found := found + [keys[i]];
      i := i + 1;
    }
    Block(keys, s, p, start, i);
  }

  /** The keys a reader sees at time t; iterators skip expired records. */
  function LiveKeys(db: Db, t: int): set<string> {
    set k | k in db && Alive(db[k], t)
  }

  ghost function Scanned(db: Db, p: string, t: int): map<string, string> {
    Over((set k | k in db && Alive(db[k], t) && p <= k), k requires k in db => db[k].value)
  }

  /** A scan gives what is shown under each key that begins with the prefix. */
  lemma {:induction false} ScannedExact(db: Db, p: string, t: int, k: string)
    ensures At(Scanned(db, p, t), k)
            == if |k| >= |p| && k[..|p|] == p then Shown(At(db, k), t) else None
  {
  }

  method ScanKeys(db: Db, p: string, t: int) returns (keys: seq<string>)
    ensures Lists(keys, Scanned(db, p, t).Keys)
  {
    keys := ScanPrefix(LiveKeys(db, t), p);
    assert (set k | k in LiveKeys(db, t) && p <= k) == Scanned(db, p, t).Keys;
  }

  method ScanKvs(db: Db, p: string, t: int) returns (result: map<string, string>)
    ensures result == Scanned(db, p, t)
  {
    hide Lists;
    var keys := ScanKeys(db, p, t);
    result := map[];
    for i := 0 to |keys|
      invariant result.Keys == set k | k in keys[..i]
      invariant forall k :: k in result ==> k in db && result[k] == db[k].value
    {
      assert keys[i] in keys;
      assert keys[..i + 1] == keys[..i] + [keys[i]];
      result := result[keys[i] := db[keys[i]].value];
    }
    assert keys[..|keys|] == keys;
  }
}
