/** The Raft log kept in an ordered key-value database: eight big-endian bytes
    per index (store/raft/util.go), index lookups, appends and range deletion
    in several transactions (store/raft/badger_store.go). */
module LogStore {
  import opened Results
  import opened Fsm
  import opened OrderedKeys

  // ----- uint64ToBytes and bytesToUint64 -----

  function Pow256(w: nat): (p: int)
    ensures p > 0
  {
    if w == 0 then 1 else 256 * Pow256(w - 1)
  }

  function Encode(n: nat, w: nat): (s: string)
    requires n < Pow256(w)
    ensures |s| == w
  {
    if w == 0 then ""
    else
      var p := Pow256(w - 1);
      DivBounds(n, p, 256);
      [(n / p) as char] + Encode(n % p, w - 1)
  }

  function Decode(s: string): nat {
    if s == "" then 0 else (s[0] as int) * Pow256(|s| - 1) + Decode(s[1..])
  }

  lemma {:induction false} DivBounds(n: nat, p: int, d: int)
    requires p > 0 && n < d * p
    ensures 0 <= n / p < d && n == (n / p) * p + n % p && 0 <= n % p < p
  {
    MulMono(d, n / p, p);
  }

  lemma {:induction false} MulMono(a: int, b: int, p: int)
    requires p > 0
    ensures a <= b ==> a * p <= b * p
  {
  }

  lemma {:induction false} DecodeEncode(n: nat, w: nat)
    requires n < Pow256(w)
    ensures Decode(Encode(n, w)) == n
  {
    if w > 0 {
      var p := Pow256(w - 1);
      DivBounds(n, p, 256);
      DecodeEncode(n % p, w - 1);
      assert Encode(n, w)[1..] == Encode(n % p, w - 1);
    }
  }

  /** Byte order of the keys is the order of the indexes. */
  lemma {:induction false} EncodeOrder(a: nat, b: nat, w: nat)
    requires a < Pow256(w) && b < Pow256(w)
    ensures Before(Encode(a, w), Encode(b, w)) <==> a < b
  {
    if w > 0 {
      var p := Pow256(w - 1);
      hide Before;
      EncodeHead(a, w);
      EncodeHead(b, w);
      EncodeOrder(a % p, b % p, w - 1);
      BeforeHead((a / p) as char, Encode(a % p, w - 1), (b / p) as char, Encode(b % p, w - 1));
      QuotientOrder(a / p, a % p, b / p, b % p, p);
    }
  }

  lemma {:induction false} EncodeHead(n: nat, w: nat)
    requires w > 0 && n < Pow256(w)
    ensures var p := Pow256(w - 1);
            && 0 <= n / p < 256 && 0 <= n % p < p && n == (n / p) * p + n % p
            && Encode(n, w) == [(n / p) as char] + Encode(n % p, w - 1)
  {
    DivBounds(n, Pow256(w - 1), 256);
  }

  lemma {:induction false} BeforeHead(x: char, s: string, y: char, t: string)
    ensures Before([x] + s, [y] + t) <==> x < y || (x == y && Before(s, t))
  {
    assert ([x] + s)[1..] == s && ([y] + t)[1..] == t;
  }

  lemma {:induction false} QuotientOrder(q: int, r: int, q': int, r': int, p: int)
    requires 0 <= r < p && 0 <= r' < p
    ensures q < q' ==> q * p + r < q' * p + r'
    ensures q == q' ==> (q * p + r < q' * p + r' <==> r < r')
    ensures q > q' ==> q * p + r > q' * p + r'
  {
    if q < q' {
      assert (q + 1) * p <= q' * p;
    } else if q > q' {
      assert (q' + 1) * p <= q * p;
    }
  }

  lemma {:induction false} EightBytes()
    ensures Pow256(8) == TWO64
  {
    assert Pow256(4) == 0x1_0000_0000;
    assert Pow256(5) == 0x100_0000_0000;
    assert Pow256(6) == 0x1_0000_0000_0000;
    assert Pow256(7) == 0x100_0000_0000_0000;
  }

  function Key(i: uint64): string {
    EightBytes();
    Encode(i, 8)
  }

  lemma {:induction false} KeyIndex(i: uint64)
    ensures Decode(Key(i)) == i
  {
    EightBytes();
    DecodeEncode(i, 8);
  }

  lemma {:induction false} KeyOrder(i: uint64, j: uint64)
    ensures |Key(i)| == |Key(j)| == 8
    ensures Before(Key(i), Key(j)) <==> i < j
  {
    EightBytes();
    EncodeOrder(i, j, 8);
  }

  // ----- the store -----

  ghost predicate AllIndexes(keys: set<string>) {
    forall k :: k in keys ==> Decode(k) < TWO64 && k == Key(Decode(k))
  }

  function Without<V>(data: map<string, V>, from: int, to: int): map<string, V> {
    data - (set k | k in data && from <= Decode(k) < to)
  }

  lemma {:induction false} SortedIndexes(keys: seq<string>, s: set<string>)
    requires Lists(keys, s) && AllIndexes(s)
    ensures Rising(keys)
  {
    forall i, j | 0 <= i < j < |keys| ensures Decode(keys[i]) < Decode(keys[j]) {
      assert keys[i] in keys && keys[j] in keys;
      KeyOrder(Decode(keys[i]), Decode(keys[j]));
    }
  }

  function From(keys: set<string>, min: int): set<string> {
    set k | k in keys && Decode(k) >= min
  }

  /** Seeking by bytes finds the first index not below min. */
  lemma {:induction false} SeekIndex(keys: seq<string>, s: set<string>, min: uint64, start: nat)
    requires Lists(keys, s) && AllIndexes(s) && start <= |keys|
    requires forall j :: 0 <= j < start ==> Before(keys[j], Key(min))
    requires start < |keys| ==> !Before(keys[start], Key(min))
    ensures forall j :: 0 <= j < |keys| ==> (Decode(keys[j]) < min <==> j < start)
  {
    SortedIndexes(keys, s);
    forall j | 0 <= j < |keys| ensures Decode(keys[j]) < min <==> j < start {
      assert keys[j] in keys;
      KeyOrder(Decode(keys[j]), min);
      if start < |keys| {
        assert keys[start] in keys;
        KeyOrder(Decode(keys[start]), min);
      }
    }
  }

  /** A transaction that took the keys at positions start to i removed an initial part of the range. */
  lemma {:induction false} Removed<V>(before: map<string, V>, keys: seq<string>, txn: set<string>, min: int,
      start: nat, i: nat, end: int)
    requires Lists(keys, before.Keys) && AllIndexes(before.Keys) && start <= i <= |keys|
    requires forall j :: 0 <= j < |keys| ==> (Decode(keys[j]) < min <==> j < start)
    requires forall k :: k in txn <==> k in keys[start..i]
    requires i < |keys| ==> Decode(keys[i]) >= end
    requires i > start ==> Decode(keys[i - 1]) < end
    ensures before - txn == Without(before, min, end)
  {
    SortedIndexes(keys, before.Keys);
    forall k | k in before ensures k in txn <==> min <= Decode(k) < end {
      var j :| 0 <= j < |keys| && keys[j] == k;
      InSlice(keys, start, i, j);
      InRange(keys, min, start, i, end, j);
    }
  }

  lemma {:induction false} InRange(keys: seq<string>, min: int, start: nat, i: nat, end: int, j: nat)
    requires Rising(keys) && start <= i <= |keys| && j < |keys| && (Decode(keys[j]) < min <==> j < start)
    requires i < |keys| ==> Decode(keys[i]) >= end
    requires i > start ==> Decode(keys[i - 1]) < end
    ensures start <= j < i <==> min <= Decode(keys[j]) < end
  {
  }

  ghost predicate Rising(keys: seq<string>) {
    forall i, j :: 0 <= i < j < |keys| ==> Decode(keys[i]) < Decode(keys[j])
  }

  lemma {:induction false} InSlice(keys: seq<string>, start: nat, i: nat, j: nat)
    requires Rising(keys) && start <= i <= |keys| && j < |keys|
    ensures keys[j] in keys[start..i] <==> start <= j < i
  {
    if start <= j < i {
      assert keys[start..i][j - start] == keys[j];
    }
    if n :| 0 <= n < i - start && keys[start..i][n] == keys[j] {
      assert keys[start + n] == keys[j];
    }
  }

  /** The transaction that reaches the end of the range removes all of it. */
  lemma {:induction false} LastTxn<V>(before: map<string, V>, keys: seq<string>, txn: set<string>, min: int, max: int,
      start: nat, i: nat)
    requires Lists(keys, before.Keys) && AllIndexes(before.Keys) && start <= i <= |keys|
    requires forall j :: 0 <= j < |keys| ==> (Decode(keys[j]) < min <==> j < start)
    requires forall k :: k in txn <==> k in keys[start..i]
    requires i < |keys| ==> Decode(keys[i]) > max
    requires i > start ==> Decode(keys[i - 1]) <= max
    ensures before - txn == Without(before, min, max + 1)
  {
    Removed(before, keys, txn, min, start, i, if min <= max then max + 1 else min);
    assert min > max ==> Without(before, min, min) == Without(before, min, max + 1);
  }

  lemma {:induction false} WithoutTwice<V>(data: map<string, V>, a: int, b: int, c: int)
    requires a <= b && (b <= c || c == b)
    ensures Without(Without(data, a, b), b, c) == Without(data, a, c)
  {
  }

  ghost function LogOf<V>(data: map<string, V>): map<int, V> {
    Over((set i | 0 <= i < TWO64 && Key(i) in data), i requires 0 <= i < TWO64 && Key(i) in data => data[Key(i)])
  }

  lemma {:induction false} StoreOne<V>(data: map<string, V>, i: uint64, v: V)
    requires AllIndexes(data.Keys)
    ensures AllIndexes(data[Key(i) := v].Keys) && LogOf(data[Key(i) := v]) == LogOf(data)[i := v]
  {
    hide Key, Decode;
    KeyIndex(i);
    forall j | 0 <= j < TWO64 && j != i ensures Key(j) != Key(i) {
      KeyIndex(j);
    }
  }

  /** The least index of a log, or the greatest when reversed; 0 if there is none. */
  ghost predicate IsEnd<V>(log: map<int, V>, reverse: bool, value: int) {
    if log == map[] then value == 0
    else value in log && forall i :: i in log ==> if reverse then i <= value else value <= i
  }

  /** The records after the entries are stored one by one. */
  function PutAll<V>(data: map<string, V>, logs: seq<(uint64, V)>): map<string, V> {
    if logs == [] then data else PutAll(data, logs[..|logs| - 1])[Key(logs[|logs| - 1].0) := logs[|logs| - 1].1]
  }

  lemma {:induction false} PutNext<V>(data: map<string, V>, logs: seq<(uint64, V)>, n: nat)
    requires n < |logs|
    ensures PutAll(data, logs[..n + 1]) == PutAll(data, logs[..n])[Key(logs[n].0) := logs[n].1]
  {
    hide Key;
    assert logs[..n + 1][..n] == logs[..n];
  }

  lemma {:induction false} IndexAdded(keys: set<string>, i: uint64)
    requires AllIndexes(keys)
    ensures AllIndexes(keys + {Key(i)})
  {
    KeyIndex(i);
  }

  /** The first key in byte order, or the last, is the end of the log. */
  lemma {:induction false} EndKey<V>(data: map<string, V>, keys: seq<string>, reverse: bool)
    requires AllIndexes(data.Keys) && Lists(keys, data.Keys) && keys != []
    ensures IsEnd(LogOf(data), reverse, Decode(if reverse then keys[|keys| - 1] else keys[0]))
  {
    hide Key, Decode;
    var key := if reverse then keys[|keys| - 1] else keys[0];
    SortedIndexes(keys, data.Keys);
    assert key in keys;
    assert Decode(key) in LogOf(data);
    forall i | i in LogOf(data) ensures if reverse then i <= Decode(key) else Decode(key) <= i {
      KeyIndex(i);
      assert Key(i) in keys;
    }
  }

  lemma {:induction false} NoEnd<V>(data: map<string, V>)
    requires data == map[]
    ensures LogOf(data) == map[]
  {
  }

  class BadgerStore<V> {
    var data: map<string, V>

    ghost predicate Valid() reads this { AllIndexes(data.Keys) }

    /** The numeric log the bytes stand for. */
    ghost function Log(): map<int, V> reads this {
      LogOf(data)
    }

    constructor ()
      ensures Valid() && Log() == map[]
    {
      data := map[];
    }

    /** FirstIndex, or LastIndex when reversed. */
    method EndIndex(reverse: bool) returns (value: uint64)
      requires Valid()
      ensures IsEnd(Log(), reverse, value)
    {
      value := 0;
      var keys := Iterate(data.Keys);
      if |keys| > 0 {
        EndKey(data, keys, reverse);
        var key := if reverse then keys[|keys| - 1] else keys[0];
        assert key in keys;
        value := Decode(key);
      } else {
        assert forall k :: k in data ==> k in keys;
        NoEnd(data);
      }
    }

    method GetLog(index: uint64) returns (log: Option<V>)
      ensures log == if index in Log() then Some(Log()[index]) else None
    {
      log := if Key(index) in data then Some(data[Key(index)]) else None;
    }

    /** One transaction: all entries are stored, or none if it does not fit. */
    method StoreLogs(logs: seq<(uint64, V)>, fits: bool) returns (ok: bool)
      requires Valid()
      modifies this
      ensures Valid() && ok == fits
      ensures data == if ok then PutAll(old(data), logs) else old(data)
    {
      ok := fits;
      if !fits {
        return;
      }
      for n := 0 to |logs|
        invariant Valid() && data == PutAll(old(data), logs[..n])
      {
        PutNext(old(data), logs, n);
        IndexAdded(data.Keys, logs[n].0);
        data := data[Key(logs[n].0) := logs[n].1];
      }
      assert logs[..|logs|] == logs;
    }

    /** Deletes the indexes from min to max.  Transaction d takes room(d) deletes
        before it is too big, and its commit succeeds if commits(d); after a full
        transaction the rest is deleted by a recursive call. */
    method DeleteRange(min: uint64, max: uint64, room: nat -> nat, commits: nat -> bool, d: nat) returns (ok: bool)
      requires Valid() && forall n :: room(n) >= 1
      modifies this
      ensures Valid()
      ensures ok ==> data == Without(old(data), min, max + 1)
      ensures !ok ==> exists m :: min <= m && (m <= max + 1 || m == min) && data == Without(old(data), min, m)
      decreases From(data.Keys, min)
    {
      ghost var before := data;
      assert data == Without(data, min, min);
      var keys := Iterate(data.Keys);
      var start := Seek(keys, data.Keys, min);
      var txn, i := Gather(keys, start, max, room(d));
      if !commits(d) {
        return false;
      }
      data := data - txn;
      if i < |keys| && Decode(keys[i]) <= max {
        var next := Decode(keys[i]);
        TxnCommitted(before, keys, txn, min, start, i, next);
        ok := DeleteRange(next, max, room, commits, d + 1);
        Continued(before, data, min, next, max, ok);
      } else {
        LastTxn(before, keys, txn, min, max, start, i);
        ok := true;
      }
    }
  }

  /** A full transaction leaves fewer keys from the next index on. */
  lemma {:induction false} TxnCommitted<V>(before: map<string, V>, keys: seq<string>, txn: set<string>, min: int,
      start: nat, i: nat, next: int)
    requires Lists(keys, before.Keys) && AllIndexes(before.Keys) && start < i < |keys|
    requires forall j :: 0 <= j < |keys| ==> (Decode(keys[j]) < min <==> j < start)
    requires forall k :: k in txn <==> k in keys[start..i]
    requires next == Decode(keys[i])
    ensures before - txn == Without(before, min, next)
    ensures min <= next < TWO64 && From(Without(before, min, next).Keys, next) < From(before.Keys, min)
  {
    SortedIndexes(keys, before.Keys);
    Removed(before, keys, txn, min, start, i, next);
    assert keys[i] in keys && keys[start] in keys;
    assert keys[start] in From(before.Keys, min);
  }

  /** What the recursive call removes continues what the first transaction removed. */
  lemma {:induction false} Continued<V>(before: map<string, V>, after: map<string, V>, min: int, next: int, max: int,
      ok: bool)
    requires min <= next <= max
    requires ok ==> after == Without(Without(before, min, next), next, max + 1)
    requires !ok ==>
               exists m :: next <= m && (m <= max + 1 || m == next) &&
                           after == Without(Without(before, min, next), next, m)
    ensures ok ==> after == Without(before, min, max + 1)
    ensures !ok ==> exists m :: min <= m && (m <= max + 1 || m == min) && after == Without(before, min, m)
  {
    WithoutTwice(before, min, next, max + 1);
    if !ok {
      var m :| next <= m && (m <= max + 1 || m == next) && after == Without(Without(before, min, next), next, m);
      WithoutTwice(before, min, next, m);
    }
  }

  lemma {:induction false} SliceOneMore(keys: seq<string>, start: nat, i: nat)
    requires start <= i < |keys|
    ensures keys[start..i + 1] == keys[start..i] + [keys[i]]
  {
  }

  /** The iterator's seek: the position of the first key not before min. */
  method Seek(keys: seq<string>, ghost s: set<string>, min: uint64) returns (start: nat)
    requires Lists(keys, s) && AllIndexes(s)
    ensures start <= |keys| && forall j :: 0 <= j < |keys| ==> (Decode(keys[j]) < min <==> j < start)
  {
    start := 0;
    while start < |keys| && Before(keys[start], Key(min))
      invariant 0 <= start <= |keys| && forall j :: 0 <= j < start ==> Before(keys[j], Key(min))
    {
      start := start + 1;
    }
    SeekIndex(keys, s, min, start);
  }

  /** One pass of the cursor: from the seek position on, put keys into the
      transaction until one is past max or the transaction is full. */
  method Gather(keys: seq<string>, start: nat, max: uint64, room: nat) returns (txn: set<string>, i: nat)
    requires start <= |keys| && room >= 1
    ensures start <= i <= |keys| && forall k :: k in txn <==> k in keys[start..i]
    ensures i > start ==> Decode(keys[i - 1]) <= max
    ensures i < |keys| && Decode(keys[i]) <= max ==> i > start
  {
    i, txn := start, {};
    while i < |keys| && Decode(keys[i]) <= max && |txn| < room
      invariant start <= i <= |keys| && (i == start ==> txn == {})
      invariant forall k :: k in txn <==> k in keys[start..i]
      invariant i > start ==> Decode(keys[i - 1]) <= max
    {
      SliceOneMore(keys, start, i);
      txn := txn + {keys[i]};
      i := i + 1;
    }
  }

  function Stored<V>(log: map<int, V>, logs: seq<(uint64, V)>): map<int, V> {
    if logs == [] then log else Stored(log, logs[..|logs| - 1])[logs[|logs| - 1].0 := logs[|logs| - 1].1]
  }

  /** On the stored bytes, storing entries stores them under their indexes. */
  lemma {:induction false} PutStored<V>(data: map<string, V>, logs: seq<(uint64, V)>)
    requires AllIndexes(data.Keys)
    ensures AllIndexes(PutAll(data, logs).Keys) && LogOf(PutAll(data, logs)) == Stored(LogOf(data), logs)
  {
    if logs != [] {
      var n := |logs| - 1;
      PutStored(data, logs[..n]);
      StoreOne(PutAll(data, logs[..n]), logs[n].0, logs[n].1);
    }
  }

  // ----- runs of the log -----

  /** A change of a set of indexes. */
  datatype Change =
    | Append(first: int, count: nat)
    | Remove(from: int, upTo: int)

  function Interval(lo: int, hi: int): (s: set<int>)
    ensures forall i :: i in s <==> lo <= i < hi
    decreases hi - lo
  {
    if lo >= hi then {} else {lo} + Interval(lo + 1, hi)
  }

  function Changed(s: set<int>, c: Change): set<int> {
    match c
    case Append(first, count) => s + Interval(first, first + count)
    case Remove(from, upTo) => set i | i in s && !(from <= i < upTo)
  }

  ghost predicate IsInterval(s: set<int>, lo: int, hi: int) {
    lo <= hi && forall i :: i in s <==> lo <= i < hi
  }

  ghost predicate Contiguous(s: set<int>) {
    exists lo, hi :: IsInterval(s, lo, hi)
  }

  /** Appends follow the last index; a removal starts at or below the first index,
      and may then stop anywhere, or goes up to the last. */
  ghost predicate Orderly(s: set<int>, c: Change) {
    match c
    case Append(first, count) => s == {} || (first - 1 in s && first !in s)
    case Remove(from, upTo) => (forall i :: i in s ==> from <= i) || (forall i :: i in s ==> i < upTo)
  }

  lemma {:induction false} ChangeContiguous(s: set<int>, c: Change)
    requires Contiguous(s) && Orderly(s, c)
    ensures Contiguous(Changed(s, c))
  {
    var lo, hi :| IsInterval(s, lo, hi);
    match c
    case Append(first, count) =>
      assert IsInterval(Changed(s, c), if s == {} then first else lo, first + count);
    case Remove(from, upTo) =>
      assert lo < hi ==> lo in s && hi - 1 in s;
      TruncateExact(s, lo, hi, from, upTo);
  }

  /** Removing indexes may leave a hole, exactly when it starts past the first
      index and stops before the end, having removed something. */
  lemma {:induction false} TruncateExact(s: set<int>, lo: int, hi: int, from: int, upTo: int)
    requires IsInterval(s, lo, hi)
    ensures Contiguous(Changed(s, Remove(from, upTo))) <==> from <= lo || upTo >= hi || upTo <= from
  {
    var t := Changed(s, Remove(from, upTo));
    if from <= lo || upTo >= hi || upTo <= from {
      if upTo <= from || upTo <= lo || from >= hi {
        assert IsInterval(t, lo, hi);
      } else if upTo >= hi {
        assert IsInterval(t, lo, if from <= lo then lo else from);
      } else {
        assert IsInterval(t, upTo, hi);
      }
    } else {
      Hole(t, lo, from, hi - 1);
    }
  }

  lemma {:induction false} Hole(t: set<int>, a: int, b: int, c: int)
    requires a < b < c && a in t && b !in t && c in t
    ensures !Contiguous(t)
  {
  }

  /** On the stored bytes, deleting a range of keys deletes that range of indexes. */
  lemma {:induction false} WithoutIndexes<V>(data: map<string, V>, from: int, to: int)
    ensures LogOf(Without(data, from, to)).Keys == Changed(LogOf(data).Keys, Remove(from, to))
  {
    forall i | 0 <= i < TWO64 ensures Decode(Key(i)) == i {
      KeyIndex(i);
    }
  }

  // ----- runs on the stored bytes -----

  /** What Raft asks of its log store: a batch of entries, or a deletion, of which
      `upTo` is one past the last index it got to. */
  datatype StoreOp<V> = Store(logs: seq<(uint64, V)>) | Delete(from: int, upTo: int)

  /** The records after StoreLogs, and after DeleteRange, interrupted or not. */
  function StoreStep<V>(data: map<string, V>, op: StoreOp<V>): map<string, V> {
    match op
    case Store(logs) => PutAll(data, logs)
    case Delete(from, upTo) => Without(data, from, upTo)
  }

  function StoreRun<V>(ops: seq<StoreOp<V>>): map<string, V> {
    if ops == [] then map[] else StoreStep(StoreRun(ops[..|ops| - 1]), ops[|ops| - 1])
  }

  predicate Consecutive<V>(logs: seq<(uint64, V)>) {
    forall n :: 0 <= n < |logs| ==> logs[n].0 == logs[0].0 + n
  }

  /** Batches are consecutive and follow the last index; a deletion is a prefix
      compaction, perhaps interrupted, or a completed suffix truncation. */
  ghost predicate Allowed<V>(data: map<string, V>, op: StoreOp<V>) {
    match op
    case Store(logs) => Consecutive(logs) && (logs != [] ==> Orderly(LogOf(data).Keys, Append(logs[0].0, |logs|)))
    case Delete(from, upTo) => Orderly(LogOf(data).Keys, Remove(from, upTo))
  }

  ghost predicate AllAllowed<V>(ops: seq<StoreOp<V>>) {
    forall n :: 0 <= n < |ops| ==> Allowed(StoreRun(ops[..n]), ops[n])
  }

  lemma {:induction false} StoredKeys<V>(log: map<int, V>, logs: seq<(uint64, V)>)
    requires Consecutive(logs) && logs != []
    ensures Stored(log, logs).Keys == Changed(log.Keys, Append(logs[0].0, |logs|))
    decreases |logs|
  {
    var n := |logs| - 1;
    if n == 0 {
      assert logs[..0] == [];
    } else {
      StoredKeys(log, logs[..n]);
    }
  }

  lemma {:induction false} StepContiguous<V>(data: map<string, V>, op: StoreOp<V>)
    requires AllIndexes(data.Keys) && Contiguous(LogOf(data).Keys) && Allowed(data, op)
    ensures AllIndexes(StoreStep(data, op).Keys) && Contiguous(LogOf(StoreStep(data, op)).Keys)
  {
    match op
    case Store(logs) =>
      PutStored(data, logs);
      if logs != [] {
        StoredKeys(LogOf(data), logs);
        ChangeContiguous(LogOf(data).Keys, Append(logs[0].0, |logs|));
      }
    case Delete(from, upTo) =>
      WithoutIndexes(data, from, upTo);
      ChangeContiguous(LogOf(data).Keys, Remove(from, upTo));
  }

  /** The indexes are those from lo up to, but not including, hi, and the end
      indexes are this interval's ends. */
  ghost predicate Spans<V>(log: map<int, V>, lo: int, hi: int) {
    && IsInterval(log.Keys, lo, hi)
    && (forall v :: IsEnd(log, false, v) <==> v == if lo < hi then lo else 0)
    && (forall v :: IsEnd(log, true, v) <==> v == if lo < hi then hi - 1 else 0)
  }

  lemma {:induction false} EndsOfInterval<V>(log: map<int, V>, lo: int, hi: int)
    requires IsInterval(log.Keys, lo, hi)
    ensures Spans(log, lo, hi)
  {
    if lo < hi {
      assert lo in log && hi - 1 in log;
    } else {
      assert forall i :: i !in log.Keys;
      assert log == map[];
    }
  }

  /** Over every run, the stored keys all decode, the stored indexes are one
      interval, and EndIndex gives its ends. */
  lemma {:induction false} LogStaysContiguous<V>(ops: seq<StoreOp<V>>)
    requires AllAllowed(ops)
    ensures AllIndexes(StoreRun(ops).Keys) && exists lo, hi :: Spans(LogOf(StoreRun(ops)), lo, hi)
  {
    RunContiguous(ops);
    var lo, hi :| IsInterval(LogOf(StoreRun(ops)).Keys, lo, hi);
    EndsOfInterval(LogOf(StoreRun(ops)), lo, hi);
  }

  lemma {:induction false} NothingContiguous<V>()
    ensures Contiguous(LogOf<V>(map[]).Keys)
  {
    assert IsInterval(LogOf<V>(map[]).Keys, 0, 0);
  }

  lemma {:induction false} RunContiguous<V>(ops: seq<StoreOp<V>>)
    requires AllAllowed(ops)
    ensures AllIndexes(StoreRun(ops).Keys) && Contiguous(LogOf(StoreRun(ops)).Keys)
  {
    hide IsInterval, StoreStep, Allowed, LogOf;
    if ops == [] {
      NothingContiguous<V>();
    } else {
      var n := |ops| - 1;
      assert forall m :: 0 <= m < n ==> ops[..n][..m] == ops[..m];
      RunContiguous(ops[..n]);
      StepContiguous(StoreRun(ops[..n]), ops[n]);
    }
  }
}
