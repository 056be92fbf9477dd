/** The replicated key-value state machine: what one committed command does to
    the database (store/raft/fsm.go) and how the leader builds commands
    (store/raft/raft.go, store/raft/command.go).

    Clock readings are parameters.  Times are milliseconds since the epoch;
    deadlines inside the database are nanoseconds, the unit of a Go duration. */
module Fsm {
  import opened Results

  const TWO63 := 0x8000_0000_0000_0000
  const TWO64 := 0x1_0000_0000_0000_0000
  type uint64 = x: int | 0 <= x < TWO64

  /** Nanoseconds in a millisecond. */
  const MILLI := 1_000_000

  /** The largest millisecond count whose nanoseconds fit an int64 (year 2262). */
  const MAX_MILLIS := 9_223_372_036_854

  function ToUint64(x: int): uint64 { x % TWO64 }

  function ToInt64(u: uint64): int { if u < TWO63 then u else u - TWO64 }

  /** The one int64 that is congruent to u. */
  lemma {:induction false} ToInt64Exact(u: uint64, x: int)
    requires -TWO63 <= x < TWO63
    ensures ToInt64(u) == x <==> ToUint64(x) == u
    ensures -TWO63 <= ToInt64(u) < TWO63
  {
    if x >= 0 { Remainder(x, x, 0); } else { Remainder(x, x + TWO64, -1); }
  }

  lemma {:induction false} Remainder(x: int, r: uint64, q: int)
    requires x == q * TWO64 + r
    ensures x % TWO64 == r
  {
  }

  /** Go's integer division, which truncates toward zero. */
  function TruncDiv(a: int, b: int): int
    requires b > 0
  {
    if a >= 0 then a / b else -((-a) / b)
  }

  // ----- commands -----

  const CMD_SET := "set"
  const CMD_SETEX := "setex"
  const CMD_DEL := "del"

  datatype Command = Command(op: string, key: string, value: string, exp: uint64)

  /** The command Store.Set submits when the leader's clock shows `now`;
      `exp` is the requested lifetime in nanoseconds. */
  function SetCommand(key: string, value: string, exp: int, now: int): Command {
    Command(if exp > 0 then CMD_SETEX else CMD_SET, key, value, ToUint64(now + TruncDiv(exp, MILLI)))
  }

  /** The command Store.Delete submits; its op is not the one Apply knows. */
  function DeleteCommand(key: string): Command {
    Command("delete", key, "", 0)
  }

  predicate Known(c: Command) {
    c.op == CMD_SET || c.op == CMD_SETEX || c.op == CMD_DEL
  }

  // ----- the database -----

  /** A stored value with the instant, in nanoseconds, at which it expires. */
  datatype Entry = Entry(value: string, deadline: Option<int>)

  type Db = map<string, Entry>

  predicate Alive(e: Entry, t: int) {
    e.deadline.Some? ==> t * MILLI < e.deadline.value
  }

  /** What a reader sees of a slot at time t. */
  function Shown(e: Option<Entry>, t: int): Option<string> {
    if e.Some? && Alive(e.value, t) then Some(e.value.value) else None
  }

  // ----- applying a command -----

  /** applySet reads the clock twice: once to test lateness, once for the TTL. */
  datatype Reads = Reads(first: int, second: int)

  predicate Late(exp: uint64, now: int) { now > ToInt64(exp) }

  /** The duration handed to the database: unsigned subtraction and
      multiplication, both wrapping, then a cast to a signed duration. */
  function Ttl(exp: uint64, now: int): int {
    ToInt64(ToUint64(ToUint64(exp - ToUint64(now)) * MILLI))
  }

  function Deadline(exp: uint64, now: int): int { now * MILLI + Ttl(exp, now) }

  function Step(db: Db, c: Command, r: Reads): Db {
    if c.op == CMD_SET then
      db[c.key := Entry(c.value, None)]
    else if c.op == CMD_SETEX then
      if Late(c.exp, r.first) then db
      else db[c.key := Entry(c.value, Some(Deadline(c.exp, r.second)))]
    else if c.op == CMD_DEL then
      db - {c.key}
    else
      db
  }

  /** The wrapped computation gives the signed difference, and so the requested
      instant, exactly when that difference fits an int64 of nanoseconds; the
      second clock read may already be past the deadline. */
  lemma {:induction false} DeadlineExact(exp: uint64, now: int)
    ensures Deadline(exp, now) == exp * MILLI <==> -TWO63 <= (exp - now) * MILLI < TWO63
  {
    var d := exp - now;
    var q1, q2 := now / TWO64, (exp - ToUint64(now)) / TWO64;
    var u := ToUint64(exp - ToUint64(now));
    assert u == d + TWO64 * (q1 - q2);
    var w := u * MILLI;
    var q3 := w / TWO64;
    assert ToUint64(w) == d * MILLI + TWO64 * ((q1 - q2) * MILLI - q3);
  }

  /** From the requested lifetime to the stored deadline: on agreeing clocks the
      entry never outlives the request and loses less than a millisecond. */
  lemma {:induction false} RequestToDeadline(key: string, value: string, exp: int, now: int, r: Reads, db: Db)
    requires 0 < exp < TWO63 && 0 <= now
    requires now + exp / MILLI <= MAX_MILLIS && 0 <= r.second <= MAX_MILLIS
    ensures var c := SetCommand(key, value, exp, now);
            var db' := Step(db, c, r);
            if r.first > now + exp / MILLI then db' == db
            else key in db' && db'[key].value == value && db'[key].deadline.Some? &&
                 now * MILLI + exp - MILLI < db'[key].deadline.value <= now * MILLI + exp
  {
    var c := SetCommand(key, value, exp, now);
    DeadlineExact(c.exp, r.second);
  }

  /** A write without a lifetime is never late and never expires, whatever the clocks
      show, and touches no other key. */
  lemma {:induction false} UnlimitedStays(key: string, value: string, exp: int, now: int, r: Reads, db: Db)
    requires exp <= 0
    ensures var db' := Step(db, SetCommand(key, value, exp, now), r);
            && key in db' && db'[key].value == value && db'[key].deadline == None
            && (forall t :: Shown(At(db', key), t) == Some(value))
            && (forall k :: k != key ==> At(db', k) == At(db, k))
  {
  }

  /** Deleting through the store changes nothing on any replica, as written. */
  lemma {:induction false} DeleteHasNoEffect(db: Db, key: string, r: Reads)
    ensures !Known(DeleteCommand(key)) && Step(db, DeleteCommand(key), r) == db
    ensures key in db ==> Step(db, DeleteCommand(key), r) != Step(db, DeleteCommand(key).(op := CMD_DEL), r)
  {
  }

  /** Where a backup is loaded over a database, a key keeps its record unless the
      backup has one and that one wins: which of two records wins is the
      database's choice, and so is whether a deletion hides the backup's. */
  function Loaded(db: Db, backup: Db, winners: set<string>): Db {
    db + Within(backup, winners)
  }

  lemma {:induction false} LoadedAt(db: Db, backup: Db, winners: set<string>, k: string)
    ensures At(Loaded(db, backup, winners), k) == if k in backup && k in winners then At(backup, k) else At(db, k)
  {
  }

  /** The state machine object; every method is one critical section of f.mu. */
  class Machine {
    var data: Db

    constructor ()
      ensures data == map[]
    {
      data := map[];
    }

    method ApplySet(key: string, value: string, exp: Option<uint64>, r: Reads)
      modifies this
      ensures data == Step(old(data), Command(if exp.Some? then CMD_SETEX else CMD_SET, key, value,
                                              if exp.Some? then exp.value else 0), r)
    {
      if exp.Some? && r.first > ToInt64(exp.value) {
        return;
      }
      var e := Entry(value, None);
      if exp.Some? {
        var millis := ToUint64(ToUint64(exp.value - ToUint64(r.second)) * MILLI);
        e := e.(deadline := Some(r.second * MILLI + ToInt64(millis)));
      }
      data := data[key := e];
    }

    method ApplyDelete(key: string)
      modifies this
      ensures data == old(data) - {key}
    {
      data := data - {key};
    }

    /** Returns whether the command was known; an unknown one is answered with an error. */
    method Apply(c: Command, r: Reads) returns (ok: bool)
      modifies this
      ensures data == Step(old(data), c, r)
      ensures ok == Known(c)
    {
      ok := true;
      if c.op == CMD_SET {
        ApplySet(c.key, c.value, None, r);
      } else if c.op == CMD_SETEX {
        ApplySet(c.key, c.value, Some(c.exp), r);
      } else if c.op == CMD_DEL {
        ApplyDelete(c.key);
      } else {
        ok := false;
      }
    }

    /** Restore loads a backup over whatever the database already holds. */
    method Restore(backup: Db, winners: set<string>)
      modifies this
      ensures data == Loaded(old(data), backup, winners)
    {
      data := data + Within(backup, winners);
    }
  }
}
