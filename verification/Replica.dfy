/** Replicas that apply one agreed log, each by its own clock, with snapshots,
    restarts and replays (store/raft/fsm.go, store/raft/fsm_snapshot.go). */
module Replica {
  import opened Results
  import opened Fsm
  import opened Persist

  /** A millisecond reading or deadline whose nanoseconds fit an int64, with room for one more. */
  predicate InRange(ms: int) { 0 <= ms < MAX_MILLIS }

  predicate Sane(r: Reads, t: int) { 0 <= r.first <= t && 0 <= r.second <= t }

  predicate SaneLog(log: seq<Command>) {
    forall i :: 0 <= i < |log| ==> InRange(log[i].exp)
  }

  predicate Acts(c: Command, k: string) { c.key == k && Known(c) }

  /** One command as seen by one key's slot. */
  function Slot(e: Option<Entry>, c: Command, k: string, r: Reads): Option<Entry> {
    if !Acts(c, k) || (c.op == CMD_SETEX && Late(c.exp, r.first)) then e
    else if c.op == CMD_DEL then None
    else if c.op == CMD_SET then Some(Entry(c.value, None))
    else Some(Entry(c.value, Some(Deadline(c.exp, r.second))))
  }

  lemma {:induction false} StepAt(db: Db, c: Command, k: string, r: Reads)
    ensures At(Step(db, c, r), k) == Slot(At(db, k), c, k, r)
  {
  }

  // ----- what a slot may hold -----

  function WhatItWrites(c: Command): Option<Entry> {
    if c.op == CMD_SET then Some(Entry(c.value, None))
    else if c.op == CMD_SETEX then Some(Entry(c.value, Some(c.exp * MILLI)))
    else None
  }

  /** Slot k may hold e after the log on a replica none of whose clock readings
      passed t: the last command's effect, or an older one if every later command
      is an expiring write already late by t.  If a deletion can be passed over, by
      an installed snapshot, it may be together with whatever came before it. */
  ghost predicate Candidate(log: seq<Command>, k: string, t: int, e: Option<Entry>, over: bool)
    decreases |log|
  {
    if log == [] then e == None
    else
      var c, n := log[|log| - 1], |log| - 1;
      if !Acts(c, k) then Candidate(log[..n], k, t, e, over)
      else
        || e == WhatItWrites(c)
        || (c.op == CMD_SETEX && c.exp < t && Candidate(log[..n], k, t, e, over))
        || (over && c.op == CMD_DEL && exists q :: 0 <= q <= n && Candidate(log[..q], k, t, e, over))
  }

  /** Slot k may hold e on a replica that still has to apply log[i..]. */
  ghost predicate Sound(log: seq<Command>, i: nat, k: string, t: int, e: Option<Entry>, over: bool) {
    exists q :: i <= q <= |log| && Candidate(log[..q], k, t, e, over)
  }

  lemma {:induction false} SoundStep(log: seq<Command>, i: nat, k: string, t: int, e: Option<Entry>, r: Reads,
      over: bool)
    requires i < |log| && SaneLog(log) && Sane(r, t) && t <= MAX_MILLIS
    requires Sound(log, i, k, t, e, over)
    ensures Sound(log, i + 1, k, t, Slot(e, log[i], k, r), over)
  {
    var q :| i <= q <= |log| && Candidate(log[..q], k, t, e, over);
    var c, e' := log[i], Slot(e, log[i], k, r);
    var next := log[..i + 1];
    assert next[..i] == log[..i] && next[i] == c;
    if Acts(c, k) && !(c.op == CMD_SETEX && Late(c.exp, r.first)) {
      DeadlineExact(c.exp, r.second);
      assert Candidate(next, k, t, e', over);
    } else if q == i {
      assert Candidate(next, k, t, e', over);
    } else {
      assert Candidate(log[..q], k, t, e', over);
    }
  }

  /** An entry kept from before an installed snapshot that lacks the key. */
  lemma {:induction false} KeptOverMissing(log: seq<Command>, k: string, t: int, e: Option<Entry>, q: nat)
    requires q <= |log| && Candidate(log[..q], k, t, e, true) && Candidate(log, k, t, None, true)
    ensures Candidate(log, k, t, e, true)
    decreases |log|
  {
    var n := |log| - 1;
    if q == |log| {
      assert log[..q] == log;
    } else if !Acts(log[n], k) || log[n].op == CMD_SETEX {
      assert log[..n][..q] == log[..q];
      KeptOverMissing(log[..n], k, t, e, q);
    }
  }

  /** log[s] is log[j], or, where deletions can be passed over, a later one of its key. */
  predicate StaleFrom(log: seq<Command>, j: nat, s: nat, over: bool) {
    j <= s < |log| && (s == j || (over && Acts(log[s], log[j].key) && log[s].op == CMD_DEL))
  }

  /** A stale entry was written by some command j after which, or after some
      deletion that follows it and was passed over, every command on the key is an
      expiring write late by t. */
  lemma {:induction false} Origin(log: seq<Command>, k: string, t: int, e: Option<Entry>, over: bool)
      returns (j: nat, s: nat)
    requires Candidate(log, k, t, e, over) && e.Some?
    ensures j < |log| && Acts(log[j], k) && WhatItWrites(log[j]) == e && StaleFrom(log, j, s, over)
    ensures forall i :: s < i < |log| && Acts(log[i], k) ==> log[i].op == CMD_SETEX && log[i].exp < t
    decreases |log|
  {
    var n := |log| - 1;
    var c := log[n];
    if Acts(c, k) && e == WhatItWrites(c) {
      j, s := n, n;
    } else if Acts(c, k) && c.op == CMD_DEL {
      var q :| 0 <= q <= n && Candidate(log[..q], k, t, e, over);
      j, s := Origin(log[..q], k, t, e, over);
      s := n;
    } else {
      j, s := Origin(log[..n], k, t, e, over);
    }
  }

  // ----- the life of a replica -----

  /** `pos` commands are applied; `snap` is the durable snapshot and its index;
      `pending` is the index of a snapshot begun but not yet persisted. */
  datatype Node = Node(db: Db, pos: nat, snap: Option<(nat, Db)>, pending: Option<nat>)

  datatype Event =
    | Apply(clocks: Reads)
    | Snapshot                        // records the index; the handle is the live database
    | Persist(stopped: Option<set<string>>)   // backs up what is live by now, or the keys before an error
    | Restart(winners: set<string>)   // reload the snapshot over the database, replay from its index
    | Install(from: seq<Event>)       // load the newer snapshot of a node, whose life is `from`, over the database

  const INITIAL := Node(map[], 0, None, None)

  /** The snapshot's index and records; with none, the replay starts at 0 over the kept database. */
  function Reload(n: Node, winners: set<string>): Db {
    if n.snap.None? then n.db else Loaded(n.db, n.snap.value.1, winners)
  }

  function Next(log: seq<Command>, n: Node, ev: Event): Node
    decreases ev
  {
    match ev
    case Apply(r) => if n.pos < |log| then n.(db := Step(n.db, log[n.pos], r), pos := n.pos + 1) else n
    case Snapshot => n.(pending := Some(n.pos))
    case Persist(stopped) => if n.pending.Some? then Persisted(n, stopped) else n
    case Restart(winners) =>
      n.(db := Reload(n, winners), pos := if n.snap.Some? then n.snap.value.0 else 0, pending := None)
    case Install(from) =>
      var snap := Life(log, from).snap;
      if snap.Some? && snap.value.0 > n.pos
      then n.(db := Loaded(n.db, snap.value.1, snap.value.1.Keys), pos := snap.value.0, snap := snap)
      else n
  }

  /** The newest snapshot is the one that counts; one that stopped midway is kept as well. */
  function Persisted(n: Node, stopped: Option<set<string>>): Node
    requires n.pending.Some?
  {
    var newer := n.snap.None? || n.snap.value.0 <= n.pending.value;
    n.(snap := if newer then Some((n.pending.value, Reached(n.db, stopped))) else n.snap, pending := None)
  }

  function Life(log: seq<Command>, evs: seq<Event>): Node
    decreases evs
  {
    if evs == [] then INITIAL else Next(log, Life(log, evs[..|evs| - 1]), evs[|evs| - 1])
  }

  /** No clock reading passes t, here or on the nodes snapshots come from. */
  ghost predicate ClocksWithin(evs: seq<Event>, t: int)
    decreases evs
  {
    forall i :: 0 <= i < |evs| ==>
      (evs[i].Apply? ==> Sane(evs[i].clocks, t)) && (evs[i].Install? ==> ClocksWithin(evs[i].from, t))
  }

  /** Which snapshots are loaded: the node's own, or other nodes' too if all of them
      are complete, or any. */
  datatype Loads = Own | Whole | Any

  ghost predicate Within(evs: seq<Event>, loads: Loads)
    decreases evs
  {
    forall i :: 0 <= i < |evs| ==>
      && (evs[i].Install? ==> loads != Own && Within(evs[i].from, loads))
      && (evs[i].Persist? && loads == Whole ==> evs[i].stopped == None)
  }

  ghost predicate AllSound(log: seq<Command>, i: nat, t: int, db: Db, over: bool) {
    forall k :: Sound(log, i, k, t, At(db, k), over)
  }

  /** A key may be missing from a snapshot that is only loaded over the node's own database. */
  ghost predicate SnapSound(log: seq<Command>, i: nat, t: int, db: Db, over: bool) {
    forall k :: over || k in db ==> Sound(log, i, k, t, At(db, k), over)
  }

  ghost predicate Inv(log: seq<Command>, n: Node, t: int, over: bool) {
    && n.pos <= |log| && AllSound(log, n.pos, t, n.db, over)
    && (n.snap.Some? ==> n.snap.value.0 <= n.pos && SnapSound(log, n.snap.value.0, t, n.snap.value.1, over))
    && (n.pending.Some? ==> n.pending.value <= n.pos)
  }

  lemma {:induction false} NextKeepsInv(log: seq<Command>, n: Node, ev: Event, t: int, over: bool)
    requires SaneLog(log) && t <= MAX_MILLIS && Inv(log, n, t, over) && (ev.Apply? ==> Sane(ev.clocks, t))
    requires ev.Install? ==> over && Inv(log, Life(log, ev.from), t, over)
    requires ev.Persist? && over ==> ev.stopped == None
    ensures Inv(log, Next(log, n, ev), t, over)
  {
    var n' := Next(log, n, ev);
    if ev.Apply? && n.pos < |log| {
      forall k ensures Sound(log, n'.pos, k, t, At(n'.db, k), over) {
        StepAt(n.db, log[n.pos], k, ev.clocks);
        SoundStep(log, n.pos, k, t, At(n.db, k), ev.clocks, over);
      }
    } else if ev.Persist? && n.pending.Some? {
      forall k ensures Sound(log, n.pending.value, k, t, At(n.db, k), over) {
        var q :| n.pos <= q <= |log| && Candidate(log[..q], k, t, At(n.db, k), over);
      }
      forall k | over || k in Reached(n.db, ev.stopped)
        ensures At(Reached(n.db, ev.stopped), k) == At(n.db, k)
      {
      }
    } else if ev.Restart? && n.snap.Some? {
      forall k ensures Sound(log, n'.pos, k, t, At(n'.db, k), over) {
        var q :| n.pos <= q <= |log| && Candidate(log[..q], k, t, At(n.db, k), over);
        LoadedAt(n.db, n.snap.value.1, ev.winners, k);
      }
    } else if ev.Restart? {
      forall k ensures Sound(log, 0, k, t, At(n.db, k), over) {
        var q :| n.pos <= q <= |log| && Candidate(log[..q], k, t, At(n.db, k), over);
      }
    } else if ev.Install? && n' != n {
      var snap := Life(log, ev.from).snap.value;
      forall k ensures Sound(log, snap.0, k, t, At(n'.db, k), over) {
        LoadedAt(n.db, snap.1, snap.1.Keys, k);
        InstalledSound(log, n.pos, snap.0, k, t, At(n.db, k), At(snap.1, k));
      }
    }
  }

  /** A complete snapshot installed over an older database. */
  lemma {:induction false} InstalledSound(log: seq<Command>, p: nat, i: nat, k: string, t: int, e: Option<Entry>,
      loaded: Option<Entry>)
    requires p <= i && Sound(log, p, k, t, e, true) && Sound(log, i, k, t, loaded, true)
    ensures Sound(log, i, k, t, if loaded.Some? then loaded else e, true)
  {
    if loaded == None {
      var q :| p <= q <= |log| && Candidate(log[..q], k, t, e, true);
      var m :| i <= m <= |log| && Candidate(log[..m], k, t, None, true);
      if q < m {
        assert log[..m][..q] == log[..q];
        KeptOverMissing(log[..m], k, t, e, q);
      }
    }
  }

  /** Whatever is snapshotted, in full or not, lost and replayed, and whatever
      complete snapshots are installed, every slot stays a sound one. */
  lemma {:induction false} LifeKeepsInv(log: seq<Command>, evs: seq<Event>, t: int, loads: Loads)
    requires SaneLog(log) && 0 <= t <= MAX_MILLIS && ClocksWithin(evs, t) && Within(evs, loads) && loads != Any
    ensures Inv(log, Life(log, evs), t, loads == Whole)
    decreases evs
  {
    if evs == [] {
      forall k ensures Sound(log, 0, k, t, At(INITIAL.db, k), loads == Whole) {
        assert Candidate(log[..0], k, t, None, loads == Whole);
      }
    } else {
      var init, ev := evs[..|evs| - 1], evs[|evs| - 1];
      LifeKeepsInv(log, init, t, loads);
      if ev.Install? {
        LifeKeepsInv(log, ev.from, t, loads);
      }
      NextKeepsInv(log, Life(log, init), ev, t, loads == Whole);
    }
  }

  // ----- when replicas agree -----

  ghost predicate Finished(log: seq<Command>, evs: seq<Event>, t: int, loads: Loads) {
    ClocksWithin(evs, t) && Within(evs, loads) && Life(log, evs).pos == |log|
  }

  /** Any two replicas that have applied the whole log show the same values ever after. */
  ghost predicate Converges(log: seq<Command>, loads: Loads) {
    forall a, b, t, k ::
      0 <= t <= MAX_MILLIS && Finished(log, a, t, loads) && Finished(log, b, t, loads)
      ==> Shown(At(Life(log, a).db, k), t) == Shown(At(Life(log, b).db, k), t)
  }

  /** Every command on log[j]'s key after s is an expiring write that log[j]'s
      value outlives by more than a millisecond. */
  ghost predicate OutlivesAfter(log: seq<Command>, j: nat, s: nat)
    requires j < |log|
  {
    forall i :: s < i < |log| && Acts(log[i], log[j].key) ==>
      log[i].op == CMD_SETEX && (log[j].op == CMD_SETEX ==> log[i].exp + 1 < log[j].exp)
  }

  /** log[j] writes a value that is not expired from the first. */
  predicate Lives(c: Command) {
    WhatItWrites(c).Some? && (c.op == CMD_SETEX ==> c.exp > 0)
  }

  /** log[j] writes a value and is not the last on its key, but outlives every later
      command on it, or, where deletions can be passed over, every one after some
      later deletion. */
  ghost predicate Outlives(log: seq<Command>, j: nat, over: bool) {
    && j < |log| && Lives(log[j])
    && (exists i :: j < i < |log| && Acts(log[i], log[j].key))
    && exists s :: StaleFrom(log, j, s, over) && OutlivesAfter(log, j, s)
  }

  ghost predicate Settled(log: seq<Command>, over: bool) {
    forall j: nat :: !Outlives(log, j, over)
  }

  /** The effect of the log when nothing is ever late. */
  function Ideal(log: seq<Command>, k: string): Option<Entry> {
    if log == [] then None
    else if Acts(log[|log| - 1], k) then WhatItWrites(log[|log| - 1])
    else Ideal(log[..|log| - 1], k)
  }

  lemma {:induction false} IdealIsLast(log: seq<Command>, k: string, j: nat) returns (i: nat)
    requires j < |log| && Acts(log[j], k)
    ensures j <= i < |log| && Acts(log[i], k) && Ideal(log, k) == WhatItWrites(log[i])
    ensures forall m :: i < m < |log| ==> !Acts(log[m], k)
  {
    var n := |log| - 1;
    if Acts(log[n], k) {
      i := n;
    } else {
      i := IdealIsLast(log[..n], k, j);
    }
  }

  lemma {:induction false} NoneIdeal(log: seq<Command>, k: string, t: int, e: Option<Entry>, over: bool)
    requires Candidate(log, k, t, e, over) && forall i :: 0 <= i < |log| ==> !Acts(log[i], k)
    ensures e == None && Ideal(log, k) == None
  {
    if log != [] {
      NoneIdeal(log[..|log| - 1], k, t, e, over);
    }
  }

  lemma {:induction false} EmptySlot(log: seq<Command>, k: string, t: int, i: nat, over: bool)
    requires Candidate(log, k, t, None, over)
    requires i < |log| && Acts(log[i], k) && forall m :: i < m < |log| ==> !Acts(log[m], k)
    ensures Shown(WhatItWrites(log[i]), t) == None
  {
    if i < |log| - 1 {
      EmptySlot(log[..|log| - 1], k, t, i, over);
    }
  }

  /** In a settled log a sound slot shows what the ideal one shows. */
  lemma {:induction false} SettledShowsIdeal(log: seq<Command>, k: string, t: int, e: Option<Entry>, over: bool)
    requires Settled(log, over) && Candidate(log, k, t, e, over) && t >= 0
    ensures Shown(e, t) == Shown(Ideal(log, k), t)
  {
    if i :| 0 <= i < |log| && Acts(log[i], k) {
      var last := IdealIsLast(log, k, i);
      if e == None {
        EmptySlot(log, k, t, last, over);
      } else {
        var j, s := Origin(log, k, t, e, over);
        if j != last && Shown(e, t).Some? {
          StaleOutlives(log, t, j, s, last, over);
        }
      }
    } else {
      NoneIdeal(log, k, t, e, over);
    }
  }

  /** A value from before command `last` that still shows outlives it. */
  lemma {:induction false} StaleOutlives(log: seq<Command>, t: int, j: nat, s: nat, last: nat, over: bool)
    requires j < last < |log| && Acts(log[last], log[j].key) && StaleFrom(log, j, s, over)
    requires forall i :: s < i < |log| && Acts(log[i], log[j].key) ==> log[i].op == CMD_SETEX && log[i].exp < t
    requires t >= 0 && Shown(WhatItWrites(log[j]), t).Some?
    ensures Outlives(log, j, over)
  {
    assert OutlivesAfter(log, j, s);
  }

  lemma {:induction false} SettledConverges(log: seq<Command>, loads: Loads)
    requires SaneLog(log) && loads != Any && Settled(log, loads == Whole)
    ensures Converges(log, loads)
  {
    forall a, b, t, k |
      0 <= t <= MAX_MILLIS && Finished(log, a, t, loads) && Finished(log, b, t, loads)
      ensures Shown(At(Life(log, a).db, k), t) == Shown(At(Life(log, b).db, k), t)
    {
      LifeKeepsInv(log, a, t, loads);
      LifeKeepsInv(log, b, t, loads);
      FinishedShowsIdeal(log, a, t, k, loads == Whole);
      FinishedShowsIdeal(log, b, t, k, loads == Whole);
    }
  }

  lemma {:induction false} FinishedShowsIdeal(log: seq<Command>, a: seq<Event>, t: int, k: string, over: bool)
    requires t >= 0 && Settled(log, over) && Inv(log, Life(log, a), t, over) && Life(log, a).pos == |log|
    ensures Shown(At(Life(log, a).db, k), t) == Shown(Ideal(log, k), t)
  {
    var e := At(Life(log, a).db, k);
    assert Sound(log, |log|, k, t, e, over);
    assert log[..|log|] == log;
    SettledShowsIdeal(log, k, t, e, over);
  }

  // ----- the schedules that disagree when a log is not settled -----

  /** n commands applied by a clock that reads t. */
  function AllAt(n: nat, t: int): seq<Event> { seq(n, i => Apply(Reads(t, t))) }

  predicate Monotone(evs: seq<Event>) {
    && (forall i :: 0 <= i < |evs| && evs[i].Apply? ==> evs[i].clocks.first <= evs[i].clocks.second)
    && (forall i, j :: 0 <= i < j < |evs| && evs[i].Apply? && evs[j].Apply? ==>
          evs[i].clocks.second <= evs[j].clocks.first)
  }

  lemma {:induction false} LifeConcat(log: seq<Command>, a: seq<Event>, ev: Event)
    ensures Life(log, a + [ev]) == Next(log, Life(log, a), ev)
  {
    assert (a + [ev])[..|a|] == a;
  }

  /** On time, a slot holds the ideal entry. */
  lemma {:induction false} EarlySlot(log: seq<Command>, n: nat, k: string)
    requires SaneLog(log) && n <= |log|
    ensures var r := Life(log, AllAt(n, 0)); r.pos == n && At(r.db, k) == Ideal(log[..n], k)
  {
    if n > 0 {
      var m := n - 1;
      EarlySlot(log, m, k);
      assert AllAt(n, 0) == AllAt(m, 0) + [Apply(Reads(0, 0))];
      LifeConcat(log, AllAt(m, 0), Apply(Reads(0, 0)));
      StepAt(Life(log, AllAt(m, 0)).db, log[m], k, Reads(0, 0));
      DeadlineExact(log[m].exp, 0);
      assert log[..n][..m] == log[..m];
    }
  }

  /** An expiring write applied late leaves a slot as it was. */
  lemma {:induction false} LateStep(log: seq<Command>, n: Node, t: int, k: string)
    requires n.pos < |log| && InRange(log[n.pos].exp)
    requires Acts(log[n.pos], k) ==> log[n.pos].op == CMD_SETEX && log[n.pos].exp < t
    ensures var n' := Next(log, n, Apply(Reads(t, t))); n'.pos == n.pos + 1 && At(n'.db, k) == At(n.db, k)
  {
    StepAt(n.db, log[n.pos], k, Reads(t, t));
  }

  lemma {:induction false} LateSlot(log: seq<Command>, evs: seq<Event>, n: nat, t: int, k: string)
    requires SaneLog(log) && Life(log, evs).pos + n <= |log|
    requires forall i :: Life(log, evs).pos <= i < |log| && Acts(log[i], k) ==> log[i].op == CMD_SETEX && log[i].exp < t
    ensures var r, old_ := Life(log, evs + AllAt(n, t)), Life(log, evs);
            r.pos == old_.pos + n && At(r.db, k) == At(old_.db, k)
    decreases n
  {
    hide Life, Next, At, Acts;
    if n == 0 {
      assert evs + AllAt(n, t) == evs;
    } else {
      var before := evs + AllAt(n - 1, t);
      LateSlot(log, evs, n - 1, t, k);
      assert evs + AllAt(n, t) == before + [Apply(Reads(t, t))];
      LifeConcat(log, before, Apply(Reads(t, t)));
      LateStep(log, Life(log, before), t, k);
    }
  }

  /** The life of a node that snapshots the first n commands, all applied on time. */
  function Snapshotter(n: nat, stopped: Option<set<string>>): seq<Event> {
    AllAt(n, 0) + [Snapshot] + [Persist(stopped)]
  }

  lemma {:induction false} SnapshotterSnap(log: seq<Command>, n: nat, stopped: Option<set<string>>)
    requires SaneLog(log) && n <= |log|
    ensures Life(log, Snapshotter(n, stopped)).snap == Some((n, Reached(Life(log, AllAt(n, 0)).db, stopped)))
    decreases n, 1
  {
    EarlySlot(log, n, "");
    NoSnap(log, n);
    LifeConcat(log, AllAt(n, 0), Snapshot);
    LifeConcat(log, AllAt(n, 0) + [Snapshot], Persist(stopped));
  }

  lemma {:induction false} NoSnap(log: seq<Command>, n: nat)
    ensures Life(log, AllAt(n, 0)).snap == None
  {
    if n > 0 {
      NoSnap(log, n - 1);
      assert AllAt(n, 0) == AllAt(n - 1, 0) + [Apply(Reads(0, 0))];
      LifeConcat(log, AllAt(n - 1, 0), Apply(Reads(0, 0)));
    }
  }

  /** Up to command j on time; then past s by an installed snapshot, if s is a later deletion. */
  function UpTo(j: nat, s: nat): seq<Event> {
    if s == j then AllAt(j + 1, 0) else AllAt(j + 1, 0) + [Install(Snapshotter(s + 1, None))]
  }

  lemma {:induction false} MissingInBackup(db: Db, backup: Db, k: string)
    requires At(backup, k) == None
    ensures At(Loaded(db, backup, backup.Keys), k) == At(db, k)
  {
    LoadedAt(db, backup, backup.Keys, k);
  }

  lemma {:induction false} UpToKeeps(log: seq<Command>, j: nat, s: nat)
    requires SaneLog(log) && StaleFrom(log, j, s, true) && Acts(log[j], log[j].key)
    ensures var r := Life(log, UpTo(j, s)); r.pos == s + 1 && At(r.db, log[j].key) == WhatItWrites(log[j])
  {
    hide Life, AllAt, Snapshotter, At, Loaded;
    var k := log[j].key;
    EarlySlot(log, j + 1, k);
    assert Ideal(log[..j + 1], k) == WhatItWrites(log[j]);
    if s > j {
      SnapshotterSnap(log, s + 1, None);
      EarlySlot(log, s + 1, k);
      assert Ideal(log[..s + 1], k) == None;
      LifeConcat(log, AllAt(j + 1, 0), Install(Snapshotter(s + 1, None)));
      var backup := Life(log, AllAt(s + 1, 0)).db;
      MissingInBackup(Life(log, AllAt(j + 1, 0)).db, backup, k);
    }
  }

  lemma {:induction false} SchedulesFit(log: seq<Command>, j: nat, s: nat, t: int, loads: Loads)
    requires SaneLog(log) && j <= s < |log| && t >= 0 && (loads == Own ==> s == j)
    ensures var a, b := AllAt(|log|, 0), UpTo(j, s) + AllAt(|log| - s - 1, t);
            && Monotone(a) && Monotone(b) && ClocksWithin(a, t) && ClocksWithin(b, t)
            && Within(a, loads) && Within(b, loads)
  {
    hide Monotone, ClocksWithin, Within;
    AllAtFits(|log|, 0, t, loads);
    AllAtFits(j + 1, 0, t, loads);
    AllAtFits(|log| - s - 1, t, t, loads);
    UpToFits(j, s, t, loads);
    FitsConcat(UpTo(j, s), AllAt(|log| - s - 1, t), t, loads);
    SchedulesMonotone(|log|, j, s, t);
  }

  lemma {:induction false} SchedulesMonotone(n: nat, j: nat, s: nat, t: int)
    requires j <= s < n && t >= 0
    ensures Monotone(AllAt(n, 0)) && Monotone(UpTo(j, s) + AllAt(n - s - 1, t))
  {
    hide Snapshotter;
  }

  lemma {:induction false} AllAtFits(n: nat, at: int, t: int, loads: Loads)
    requires 0 <= at <= t
    ensures ClocksWithin(AllAt(n, at), t) && Within(AllAt(n, at), loads)
  {
  }

  lemma {:induction false} FitsConcat(a: seq<Event>, b: seq<Event>, t: int, loads: Loads)
    requires ClocksWithin(a, t) && ClocksWithin(b, t) && Within(a, loads) && Within(b, loads)
    ensures ClocksWithin(a + b, t) && Within(a + b, loads)
  {
    var c := a + b;
    assert forall i :: 0 <= i < |c| ==> c[i] == if i < |a| then a[i] else b[i - |a|];
  }

  lemma {:induction false} SnapshotterFits(n: nat, stopped: Option<set<string>>, t: int, loads: Loads)
    requires t >= 0 && (loads == Whole ==> stopped == None)
    ensures ClocksWithin(Snapshotter(n, stopped), t) && Within(Snapshotter(n, stopped), loads)
  {
    hide AllAt;
    AllAtFits(n, 0, t, loads);
    FitsConcat(AllAt(n, 0), [Snapshot], t, loads);
    FitsConcat(AllAt(n, 0) + [Snapshot], [Persist(stopped)], t, loads);
  }

  lemma {:induction false} InstallFits(before: seq<Event>, from: seq<Event>, t: int, loads: Loads)
    requires loads != Own && ClocksWithin(before, t) && Within(before, loads)
    requires ClocksWithin(from, t) && Within(from, loads)
    ensures ClocksWithin(before + [Install(from)], t) && Within(before + [Install(from)], loads)
  {
    FitsConcat(before, [Install(from)], t, loads);
  }

  lemma {:induction false} UpToFits(j: nat, s: nat, t: int, loads: Loads)
    requires t >= 0 && (loads == Own ==> s == j)
    ensures ClocksWithin(UpTo(j, s), t) && Within(UpTo(j, s), loads)
  {
    hide ClocksWithin, Within, AllAt, Snapshotter;
    AllAtFits(j + 1, 0, t, loads);
    if s != j {
      SnapshotterFits(s + 1, None, t, loads);
      InstallFits(AllAt(j + 1, 0), Snapshotter(s + 1, None), t, loads);
    }
  }

  /** Some time in which log[j]'s value is all that can show. */
  function LastMoment(c: Command): int { if c.op == CMD_SETEX then c.exp - 1 else MAX_MILLIS }

  /** Applied at once, the last command, which does not outlive that time, is what shows. */
  lemma {:induction false} OnTimeShows(log: seq<Command>, j: nat, s: nat)
    requires SaneLog(log) && Outlives(log, j, true) && StaleFrom(log, j, s, true) && OutlivesAfter(log, j, s)
    ensures Shown(At(Life(log, AllAt(|log|, 0)).db, log[j].key), LastMoment(log[j])) == None
  {
    hide Life, AllAt;
    EarlySlot(log, |log|, log[j].key);
    assert log[..|log|] == log;
    var m :| j < m < |log| && Acts(log[m], log[j].key);
    var i := IdealIsLast(log, log[j].key, m);
    assert i >= s && (i > s ==> log[i].op == CMD_SETEX);
  }

  /** Applied late, everything after command s is dropped. */
  lemma {:induction false} LateShows(log: seq<Command>, j: nat, s: nat)
    requires SaneLog(log) && Outlives(log, j, true) && StaleFrom(log, j, s, true) && OutlivesAfter(log, j, s)
    ensures var t := LastMoment(log[j]);
            var r := Life(log, UpTo(j, s) + AllAt(|log| - s - 1, t));
            r.pos == |log| && Shown(At(r.db, log[j].key), t) == Some(log[j].value)
  {
    hide Life, AllAt, UpTo;
    UpToKeeps(log, j, s);
    LateSlot(log, UpTo(j, s), |log| - s - 1, LastMoment(log[j]), log[j].key);
  }

  /** If log[j] outlives what follows, a replica on time and one that falls behind
      after j show different values: one that applies the same commands late, with
      no snapshot or restart, unless deletions come between; then one that skips
      them by a complete snapshot installed over its older database. */
  lemma {:induction false} OutlivedDiverges(log: seq<Command>, j: nat, loads: Loads)
      returns (a: seq<Event>, b: seq<Event>, t: int)
    requires SaneLog(log) && loads != Any && Outlives(log, j, loads == Whole)
    ensures 0 <= t <= MAX_MILLIS && Monotone(a) && Monotone(b)
    ensures Finished(log, a, t, loads) && Finished(log, b, t, loads)
    ensures OutlivesAfter(log, j, j) ==> forall i :: 0 <= i < |b| ==> b[i].Apply?
    ensures Shown(At(Life(log, a).db, log[j].key), t) == None
    ensures Shown(At(Life(log, b).db, log[j].key), t) == Some(log[j].value)
  {
    hide Life, Monotone, ClocksWithin, Within, At, Shown;
    var s :| StaleFrom(log, j, s, loads == Whole) && OutlivesAfter(log, j, s);
    if OutlivesAfter(log, j, j) {
      s := j;
    }
    t := LastMoment(log[j]);
    a, b := AllAt(|log|, 0), UpTo(j, s) + AllAt(|log| - s - 1, t);
    SchedulesFit(log, j, s, t, loads);
    EarlySlot(log, |log|, log[j].key);
    assert Outlives(log, j, true) && StaleFrom(log, j, s, true);
    OnTimeShows(log, j, s);
    LateShows(log, j, s);
  }

  lemma {:induction false} ConvergesExact(log: seq<Command>, loads: Loads)
    requires SaneLog(log) && loads != Any
    ensures Converges(log, loads) <==> Settled(log, loads == Whole)
  {
    var over := loads == Whole;
    if Settled(log, over) {
      SettledConverges(log, loads);
    }
    if j: nat :| Outlives(log, j, over) {
      var a, b, t := OutlivedDiverges(log, j, loads);
      assert Shown(At(Life(log, a).db, log[j].key), t) != Shown(At(Life(log, b).db, log[j].key), t);
      assert !Converges(log, loads);
    }
  }

  /** Replicas that load their own snapshots, complete or not, agree through any
      snapshots, restarts, replays and clock differences exactly when no value
      outlives the expiring writes that alone follow it: a deletion resets its key. */
  lemma {:induction false} ConvergesIffSettled(log: seq<Command>)
    requires SaneLog(log)
    ensures Converges(log, Own) <==> Settled(log, false)
  {
    ConvergesExact(log, Own);
  }

  /** With complete snapshots installed over older databases as well, exactly when
      none outlives what follows it or what follows a deletion after it. */
  lemma {:induction false} InstalledConvergesIffSettled(log: seq<Command>)
    requires SaneLog(log)
    ensures Converges(log, Whole) <==> Settled(log, true)
  {
    ConvergesExact(log, Whole);
  }

  /** The two differ: a deleted value comes back where a snapshot is installed. */
  lemma {:induction false} DeletionResets(k: string, v: string)
    ensures var log := [Command(CMD_SET, k, v, 0), Command(CMD_DEL, k, "", 0)];
            Converges(log, Own) && !Converges(log, Whole)
  {
    var log := [Command(CMD_SET, k, v, 0), Command(CMD_DEL, k, "", 0)];
    hide Converges;
    ConvergesExact(log, Own);
    ConvergesExact(log, Whole);
    assert Acts(log[1], k) && log[1].op == CMD_DEL;
    forall j: nat ensures !Outlives(log, j, false) {
      assert j == 0 ==> !OutlivesAfter(log, j, 0);
    }
    assert StaleFrom(log, 0, 1, true) && OutlivesAfter(log, 0, 1);
    assert Outlives(log, 0, true);
  }

  /** A registration for `first` ns at time `reg`, then a heartbeat for `second`
      ns at time `beat`: replicas agree, whatever complete snapshots are installed or
      none, exactly when the heartbeat's deadline is at most one millisecond short of
      the registration's. */
  lemma {:induction false} HeartbeatConverges(k: string, up: string, first: int, second: int, reg: int, beat: int,
      loads: Loads)
    requires 0 < first && 0 < second && 0 <= reg && 0 <= beat && loads != Any
    requires InRange(reg + first / MILLI) && InRange(beat + second / MILLI)
    ensures Converges([SetCommand(k, up, first, reg), SetCommand(k, up, second, beat)], loads)
            <==> reg + first / MILLI <= beat + second / MILLI + 1
  {
    var log := [SetCommand(k, up, first, reg), SetCommand(k, up, second, beat)];
    hide Converges, Outlives;
    ConvergesExact(log, loads);
    var over := loads == Whole;
    FirstOutlives(log, over);
    forall j: nat | j > 1 ensures !Outlives(log, j, over) {
      OutlivesWithin(log, j, over);
    }
  }

  lemma {:induction false} OutlivesWithin(log: seq<Command>, j: nat, over: bool)
    ensures Outlives(log, j, over) ==> j < |log| - 1
  {
  }

  lemma {:induction false} FirstOutlives(log: seq<Command>, over: bool)
    requires |log| == 2 && log[0].key == log[1].key && log[0].op == log[1].op == CMD_SETEX && log[1].exp >= 0
    ensures Outlives(log, 0, over) <==> log[1].exp + 1 < log[0].exp
    ensures !Outlives(log, 1, over)
  {
    assert Acts(log[1], log[0].key);
    assert StaleFrom(log, 0, 0, over);
    assert OutlivesAfter(log, 0, 0) <==> log[1].exp + 1 < log[0].exp;
  }

  // ----- incomplete snapshots that are installed -----

  /** Nothing is backed up before the error. */
  const NOTHING: Option<set<string>> := Some({})

  /** Over any log, a node that applied commands up to j and was then sent an empty
      snapshot of the whole log is finished, and holds what it held. */
  function Emptied(n: nat, all: nat): seq<Event> {
    if n == all then AllAt(n, 0) else AllAt(n, 0) + [Install(Snapshotter(all, NOTHING))]
  }

  lemma {:induction false} EmptiedHolds(log: seq<Command>, n: nat, k: string)
    requires SaneLog(log) && n <= |log|
    ensures var r := Life(log, Emptied(n, |log|)); r.pos == |log| && At(r.db, k) == Ideal(log[..n], k)
  {
    hide Life, AllAt, Snapshotter, Loaded;
    EarlySlot(log, n, k);
    if n < |log| {
      SnapshotterSnap(log, |log|, NOTHING);
      LifeConcat(log, AllAt(n, 0), Install(Snapshotter(|log|, NOTHING)));
      assert Reached(Life(log, AllAt(|log|, 0)).db, NOTHING) == map[];
      MissingInBackup(Life(log, AllAt(n, 0)).db, map[], k);
    }
  }

  lemma {:induction false} EmptiedFits(n: nat, all: nat, t: int)
    requires t >= 0
    ensures ClocksWithin(Emptied(n, all), t) && Within(Emptied(n, all), Any)
  {
    hide ClocksWithin, Within, AllAt, Snapshotter;
    AllAtFits(n, 0, t, Any);
    SnapshotterFits(all, NOTHING, t, Any);
    InstallFits(AllAt(n, 0), Snapshotter(all, NOTHING), t, Any);
  }

  /** Where incomplete snapshots are installed, replicas agree exactly when there is
      nothing to show. */
  lemma {:induction false} AnyConvergesIffSilent(log: seq<Command>)
    requires SaneLog(log)
    ensures Converges(log, Any) <==> forall j :: 0 <= j < |log| ==> !Lives(log[j])
  {
    hide Life, ClocksWithin, Within, Emptied, Shown, At;
    if j :| 0 <= j < |log| && Lives(log[j]) {
      SomeEmptied(log, j);
    } else {
      forall a, t, k | 0 <= t <= MAX_MILLIS && Finished(log, a, t, Any)
        ensures Shown(At(Life(log, a).db, k), t) == None
      {
        SilentLife(log, a, t);
      }
    }
  }

  /** A node that holds a value and one that never did are both sent an empty snapshot. */
  lemma {:induction false} SomeEmptied(log: seq<Command>, j: nat)
    requires SaneLog(log) && j < |log| && Lives(log[j])
    ensures !Converges(log, Any)
  {
    hide Life, ClocksWithin, Within, Emptied, At;
    var t, k := LastMoment(log[j]), log[j].key;
    EmptiedHolds(log, j + 1, k);
    EmptiedHolds(log, 0, k);
    EmptiedFits(j + 1, |log|, t);
    EmptiedFits(0, |log|, t);
    assert Ideal(log[..j + 1], k) == WhatItWrites(log[j]);
    assert Finished(log, Emptied(j + 1, |log|), t, Any) && Finished(log, Emptied(0, |log|), t, Any);
    assert Shown(At(Life(log, Emptied(j + 1, |log|)).db, k), t) != Shown(At(Life(log, Emptied(0, |log|)).db, k), t);
  }

  /** Nothing that shows, now or in a snapshot. */
  ghost predicate Silent(db: Db, t: int) {
    forall k :: Shown(At(db, k), t) == None
  }

  ghost predicate SilentNode(log: seq<Command>, n: Node, t: int) {
    && Silent(n.db, t) && n.pos <= |log| && (n.pending.Some? ==> n.pending.value <= |log|)
    && (n.snap.Some? ==> Silent(n.snap.value.1, t) && n.snap.value.0 <= |log|)
  }

  lemma {:induction false} SilentLife(log: seq<Command>, evs: seq<Event>, t: int)
    requires SaneLog(log) && 0 <= t <= MAX_MILLIS && ClocksWithin(evs, t)
    requires forall j :: 0 <= j < |log| ==> !Lives(log[j])
    ensures SilentNode(log, Life(log, evs), t)
    decreases evs
  {
    if evs != [] {
      var init, ev := evs[..|evs| - 1], evs[|evs| - 1];
      SilentLife(log, init, t);
      if ev.Install? {
        SilentLife(log, ev.from, t);
      }
      SilentNext(log, Life(log, init), ev, t);
    }
  }

  lemma {:induction false} SilentNext(log: seq<Command>, n: Node, ev: Event, t: int)
    requires SaneLog(log) && 0 <= t <= MAX_MILLIS && (ev.Apply? ==> Sane(ev.clocks, t))
    requires forall j :: 0 <= j < |log| ==> !Lives(log[j])
    requires SilentNode(log, n, t) && (ev.Install? ==> SilentNode(log, Life(log, ev.from), t))
    ensures SilentNode(log, Next(log, n, ev), t)
  {
    hide Life, Step;
    if ev.Apply? && n.pos < |log| {
      forall k ensures Shown(At(Step(n.db, log[n.pos], ev.clocks), k), t) == None {
        SilentStep(n.db, log[n.pos], ev.clocks, k, t);
      }
    } else if ev.Persist? {
      forall k ensures Shown(At(Reached(n.db, ev.stopped), k), t) == None {
        assert At(Reached(n.db, ev.stopped), k) in {None, At(n.db, k)};
      }
    } else if ev.Restart? && n.snap.Some? {
      forall k ensures Shown(At(Loaded(n.db, n.snap.value.1, ev.winners), k), t) == None {
        LoadedAt(n.db, n.snap.value.1, ev.winners, k);
      }
    } else if ev.Install? && Life(log, ev.from).snap.Some? {
      var backup := Life(log, ev.from).snap.value.1;
      forall k ensures Shown(At(Loaded(n.db, backup, backup.Keys), k), t) == None {
        LoadedAt(n.db, backup, backup.Keys, k);
      }
    }
  }

  lemma {:induction false} SilentStep(db: Db, c: Command, r: Reads, k: string, t: int)
    requires Silent(db, t) && InRange(c.exp) && !Lives(c) && 0 <= t <= MAX_MILLIS && Sane(r, t)
    ensures Shown(At(Step(db, c, r), k), t) == None
  {
    hide Step, Deadline;
    StepAt(db, c, k, r);
    DeadlineExact(c.exp, r.second);
  }

  // ----- late replay, with no side condition -----

  function Run(db: Db, log: seq<Command>, rs: seq<Reads>): Db
    requires |log| == |rs|
  {
    if log == [] then db
    else Step(Run(db, log[..|log| - 1], rs[..|log| - 1]), log[|log| - 1], rs[|log| - 1])
  }

  /** A replica that applies every entry no later than another never shows a
      value the later one lacks: falling behind can only leave stale values. */
  lemma {:induction false} LateReplayKeepsLive(log: seq<Command>, a: seq<Reads>, b: seq<Reads>, k: string, t: int)
    requires |log| == |a| == |b| && SaneLog(log) && t <= MAX_MILLIS
    requires forall i :: 0 <= i < |log| ==> a[i].first <= b[i].first && Sane(a[i], t) && Sane(b[i], t)
    ensures var x, y := At(Run(map[], log, a), k), At(Run(map[], log, b), k);
            x == y || Shown(x, t) == None
  {
    if log != [] {
      var n := |log| - 1;
      LateReplayKeepsLive(log[..n], a[..n], b[..n], k, t);
      StepAt(Run(map[], log[..n], a[..n]), log[n], k, a[n]);
      StepAt(Run(map[], log[..n], b[..n]), log[n], k, b[n]);
      DeadlineExact(log[n].exp, a[n].second);
      DeadlineExact(log[n].exp, b[n].second);
    }
  }

  // ----- a snapshot loaded over some other database -----

  ghost predicate Untimed(log: seq<Command>) {
    forall i :: 0 <= i < |log| ==> log[i].op != CMD_SETEX
  }

  ghost predicate Touches(log: seq<Command>, k: string) {
    exists i :: 0 <= i < |log| && Acts(log[i], k)
  }

  lemma {:induction false} RunUntouched(db: Db, log: seq<Command>, rs: seq<Reads>, k: string)
    requires |log| == |rs| && !Touches(log, k)
    ensures At(Run(db, log, rs), k) == At(db, k)
  {
    if log != [] {
      var n := |log| - 1;
      assert forall i :: 0 <= i < n ==> log[..n][i] == log[i];
      assert !Acts(log[n], k);
      RunUntouched(db, log[..n], rs[..n], k);
      StepAt(Run(db, log[..n], rs[..n]), log[n], k, rs[n]);
    }
  }

  lemma {:induction false} RunTouched(x: Db, y: Db, log: seq<Command>, rs: seq<Reads>, ss: seq<Reads>, k: string)
    requires |log| == |rs| == |ss| && Untimed(log)
    requires Touches(log, k) || At(x, k) == At(y, k)
    ensures At(Run(x, log, rs), k) == At(Run(y, log, ss), k)
  {
    if log != [] {
      var n := |log| - 1;
      if !Acts(log[n], k) {
        if i :| 0 <= i < |log| && Acts(log[i], k) {
          assert Acts(log[..n][i], k);
        }
        RunTouched(x, y, log[..n], rs[..n], ss[..n], k);
      }
      StepAt(Run(x, log[..n], rs[..n]), log[n], k, rs[n]);
      StepAt(Run(y, log[..n], ss[..n]), log[n], k, ss[n]);
    }
  }

  lemma {:induction false} RunSplit(db: Db, log: seq<Command>, rs: seq<Reads>, i: nat)
    requires |log| == |rs| && i <= |log|
    ensures Run(db, log, rs) == Run(Run(db, log[..i], rs[..i]), log[i..], rs[i..])
  {
    if i == |log| {
      assert log[..i] == log && rs[..i] == rs;
    } else {
      var n := |log| - 1;
      RunSplit(db, log[..n], rs[..n], i);
      Slices(log, n, i);
      Slices(rs, n, i);
    }
  }

  lemma {:induction false} Slices<T>(s: seq<T>, n: nat, i: nat)
    requires i <= n <= |s|
    ensures s[..n][..i] == s[..i] && s[..n][i..] == s[i..][..n - i]
  {
  }

  lemma {:induction false} BackupSlot(log: seq<Command>, rs: seq<Reads>, i: nat, p: nat, k: string)
    requires |log| == |rs| && i <= p <= |log| && !Touches(log[i..], k)
    ensures At(Run(map[], log[..p], rs[..p]), k) == At(Run(map[], log[..i], rs[..i]), k)
  {
    RunSplit(map[], log[..p], rs[..p], i);
    assert log[..p][..i] == log[..i] && rs[..p][..i] == rs[..i];
    assert forall m :: 0 <= m < p - i ==> log[..p][i..][m] == log[i..][m];
    assert !Touches(log[..p][i..], k);
    RunUntouched(Run(map[], log[..i], rs[..i]), log[..p][i..], rs[..p][i..], k);
  }

  /** A set/del log: loading a snapshot of index i over any database and
      replaying the rest gives the state of the whole log exactly when every slot
      that is kept from the old database is touched by the replay or is as it was
      at the index.  The backup may hold any longer prefix p of the log, and which
      of its records win is arbitrary. */
  lemma {:induction false} RestoreExact(log: seq<Command>, rs: seq<Reads>, ss: seq<Reads>, i: nat, p: nat, old_: Db,
      winners: set<string>)
    requires |log| == |rs| && Untimed(log) && i <= p <= |log| && |ss| == |log| - i
    ensures var backup, base := Run(map[], log[..p], rs[..p]), Run(map[], log[..i], rs[..i]);
            Run(Loaded(old_, backup, winners), log[i..], ss) == Run(map[], log, rs)
            <==> forall k :: Touches(log[i..], k) || (k in backup && k in winners) || At(old_, k) == At(base, k)
  {
    var backup, base := Run(map[], log[..p], rs[..p]), Run(map[], log[..i], rs[..i]);
    var loaded := Loaded(old_, backup, winners);
    var left, right := Run(loaded, log[i..], ss), Run(map[], log, rs);
    RunSplit(map[], log, rs, i);
    forall k
      ensures At(left, k) == At(right, k) <==>
              (Touches(log[i..], k) || (k in backup && k in winners) || At(old_, k) == At(base, k))
    {
      LoadedAt(old_, backup, winners, k);
      if Touches(log[i..], k) {
        RunTouched(loaded, base, log[i..], ss, rs[i..], k);
      } else {
        RunUntouched(loaded, log[i..], ss, k);
        RunUntouched(base, log[i..], rs[i..], k);
        BackupSlot(log, rs, i, p, k);
      }
    }
    SameSlots(left, right);
  }

  /** When the backup's records always win, it is the keys only the old database has that matter. */
  lemma {:induction false} RestoreBackupWins(log: seq<Command>, rs: seq<Reads>, ss: seq<Reads>, i: nat, p: nat,
      old_: Db, winners: set<string>)
    requires |log| == |rs| && Untimed(log) && i <= p <= |log| && |ss| == |log| - i
    requires Run(map[], log[..p], rs[..p]).Keys <= winners
    ensures Run(Loaded(old_, Run(map[], log[..p], rs[..p]), winners), log[i..], ss) == Run(map[], log, rs)
            <==> forall k :: k in old_ ==> Touches(log[i..], k) || k in Run(map[], log[..i], rs[..i])
  {
    var backup, base := Run(map[], log[..p], rs[..p]), Run(map[], log[..i], rs[..i]);
    RestoreExact(log, rs, ss, i, p, old_, winners);
    forall k | !Touches(log[i..], k)
      ensures (k in backup && k in winners) || At(old_, k) == At(base, k) <==> k !in old_ || k in base
    {
      BackupSlot(log, rs, i, p, k);
    }
  }

  lemma {:induction false} SameSlots(x: Db, y: Db)
    ensures x == y <==> forall k :: At(x, k) == At(y, k)
  {
    if forall k :: At(x, k) == At(y, k) {
      forall k ensures k in x <==> k in y {
        assert At(x, k) == At(y, k);
      }
      forall k | k in x ensures x[k] == y[k] {
        assert At(x, k) == At(y, k);
      }
    }
  }

  /** A database at or beyond the snapshot's index meets the condition, whichever records win... */
  lemma {:induction false} RestoreOverNewer(log: seq<Command>, rs: seq<Reads>, ss: seq<Reads>, i: nat, p: nat, q: nat,
      winners: set<string>)
    requires |log| == |rs| && Untimed(log) && i <= p <= |log| && i <= q <= |log| && |ss| == |log| - i
    ensures Run(Loaded(Run(map[], log[..q], rs[..q]), Run(map[], log[..p], rs[..p]), winners), log[i..], ss)
        == Run(map[], log, rs)
  {
    var db, base := Run(map[], log[..q], rs[..q]), Run(map[], log[..i], rs[..i]);
    forall k | !Touches(log[i..], k) ensures At(db, k) == At(base, k) {
      BackupSlot(log, rs, i, q, k);
    }
    RestoreExact(log, rs, ss, i, p, db, winners);
  }

  /** ...and one behind it can miss it: the deletion it skipped never happens. */
  lemma {:induction false} RestoreOverOlder(r: Reads, winners: set<string>)
    ensures var log := [Command(CMD_SET, "k", "v", 0), Command(CMD_DEL, "k", "", 0)];
            var stale := Run(map[], log[..1], [r]);
            Run(Loaded(stale, Run(map[], log, [r, r]), winners), log[2..], []) == stale != Run(map[], log, [r, r])
  {
    var log := [Command(CMD_SET, "k", "v", 0), Command(CMD_DEL, "k", "", 0)];
    assert log[..1] == [log[0]] && log[..1][..0] == [] && [r][..0] == [] && [r, r][..1] == [r];
    assert Run(map[], [], []) == map[];
    var one := Run(map[], log[..1], [r]);
    assert one == map["k" := Entry("v", None)];
    assert Run(map[], log, [r, r]) == Step(one, log[1], r) == map[];
    assert Loaded(one, map[], winners) == one;
  }
}
