/** Registration and heartbeats: how an instance's state is written, renewed
    and lost (service/conn/heartbeat.go, service/app/reg.go).

    Every write carries its own clock readings; a write through the store is
    taken to be committed and applied on the node that is read. */
module Heartbeat {
  import opened Results
  import opened Text
  import opened Fsm
  import opened OrderedKeys
  import opened Registry
  import opened Namespaces

  const SECOND := 1_000_000_000
  const META_EXPIRE := 86_400 * SECOND
  const INSTANCE_EXPIRE := 30 * SECOND
  const UP := "UP"
  const DISABLED := "DISABLED"

  /** When a key is read, when its write is stamped, and when that is applied. */
  datatype Times = Times(look: int, stamp: int, at: Reads)
  datatype Writes = Writes(meta: Times, inst: Times, ns: seq<Times>)

  datatype Id = Id(app: string, group: string, ip: string, port: int)

  /** `meta` is the encoded metadata, empty when there is none. */
  datatype Beat = Beat(id: Id, enableSvc: bool, enableCfg: bool, meta: string, namespaces: seq<string>, timeout: int)
  datatype Registration = Registration(id: Id, state: string, meta: string, namespaces: seq<string>)

  predicate ValidId(id: Id) { id.app != "" && id.group != "" && |id.ip| >= 7 && id.port >= 1 }

  function InfoKey(id: Id): string
    requires id.port >= 0
  {
    InstKey(id.app, id.group, id.ip, id.port)
  }

  function MetaKey(id: Id): string
    requires id.port >= 0
  {
    MetaKeyOf(id.app, id.group, id.ip, id.port)
  }

  predicate IsNsShared(v: string) { |Split(v, '.')| == 4 }

  /** Whose namespace a listed name is: a four-part name carries its owner. */
  function Target(id: Id, v: string): (string, string, string) {
    if IsNsShared(v) then var arr := Split(v, '.'); (arr[0], arr[1], arr[2] + "." + arr[3])
    else (id.app, id.group, v)
  }

  function TargetKey(id: Id, v: string): string
    requires id.port >= 0
  {
    var o := Target(id, v);
    NamespaceKey(o.0, o.1, o.2, id.ip, id.port)
  }

  // ----- what the operations do to the store -----

  function Put(db: Db, key: string, value: string, life: int, w: Times): Db {
    Step(db, SetCommand(key, value, life, w.stamp), w.at)
  }

  function Life(timeout: int): int { if timeout < SECOND then 10 * SECOND else timeout }

  /** The state a heartbeat writes, given the state it sees. */
  function NextState(enableSvc: bool, seen: Option<string>): string {
    if !enableSvc then DISABLED
    else if seen.Some? && seen.value != "" then seen.value
    else UP
  }

  function AppBeat(db: Db, b: Beat, w: Writes): Db
    requires b.id.port >= 0
  {
    var meta := Shown(At(db, MetaKey(b.id)), w.meta.look);
    var db1 := Put(db, MetaKey(b.id), if meta.Some? then meta.value else b.meta, META_EXPIRE, w.meta);
    Put(db1, InfoKey(b.id), NextState(b.enableSvc, Shown(At(db1, InfoKey(b.id)), w.inst.look)), Life(b.timeout), w.inst)
  }

  /** The writes for a list of namespace keys. */
  function Ups(db: Db, keys: seq<string>, life: int, ns: seq<Times>): Db
    requires |keys| == |ns|
  {
    if keys == [] then db
    else Put(Ups(db, keys[..|keys| - 1], life, ns[..|keys| - 1]), keys[|keys| - 1], UP, life, ns[|keys| - 1])
  }

  function TargetKeys(id: Id, namespaces: seq<string>): (keys: seq<string>)
    requires id.port >= 0
    ensures |keys| == |namespaces| && forall j :: 0 <= j < |keys| ==> keys[j] == TargetKey(id, namespaces[j])
  {
    seq(|namespaces|, j requires 0 <= j < |namespaces| => TargetKey(id, namespaces[j]))
  }

  function Beaten(db: Db, b: Beat, w: Writes): Db
    requires |w.ns| == |b.namespaces|
  {
    if !ValidId(b.id) then db
    else if b.enableCfg then Ups(AppBeat(db, b, w), TargetKeys(b.id, b.namespaces), Life(b.timeout), w.ns)
    else AppBeat(db, b, w)
  }

  function NSKeys(id: Id, namespaces: seq<string>): (keys: seq<string>)
    requires id.port >= 0
    ensures |keys| == |namespaces|
    ensures forall j :: 0 <= j < |keys| ==> keys[j] == NamespaceKey(id.app, id.group, namespaces[j], id.ip, id.port)
  {
    seq(|namespaces|, j requires 0 <= j < |namespaces| =>
      NamespaceKey(id.app, id.group, namespaces[j], id.ip, id.port))
  }

  predicate ValidRegistration(r: Registration, known: bool) { ValidId(r.id) && r.state != "" && known }

  /** `known` is the outcome of the checks on names, application and group. */
  function Registered(db: Db, r: Registration, known: bool, w: Writes): Db
    requires |w.ns| == |r.namespaces|
  {
    if !ValidRegistration(r, known) then db
    else
      var db1 := Put(db, MetaKey(r.id), r.meta, META_EXPIRE, w.meta);
      var db2 := Ups(db1, NSKeys(r.id, r.namespaces), INSTANCE_EXPIRE, w.ns);
      Put(db2, InfoKey(r.id), r.state, INSTANCE_EXPIRE, w.inst)
  }

  // ----- the operations -----

  method Set(rs: Machine, key: string, value: string, exp: int, w: Times)
    modifies rs
    ensures rs.data == Put(old(rs.data), key, value, exp, w)
  {
    var _ := rs.Apply(SetCommand(key, value, exp, w.stamp), w.at);
  }

  method SetAppHeartBeat(rs: Machine, b: Beat, w: Writes)
    requires b.id.port >= 0
    modifies rs
    ensures rs.data == AppBeat(old(rs.data), b, w)
  {
    var meta := Shown(At(rs.data, MetaKey(b.id)), w.meta.look);
    if meta == None {
      Set(rs, MetaKey(b.id), b.meta, META_EXPIRE, w.meta);
    } else {
      Set(rs, MetaKey(b.id), meta.value, META_EXPIRE, w.meta);
    }
    var seen := Shown(At(rs.data, InfoKey(b.id)), w.inst.look);
    var state := if seen.Some? then seen.value else "";
    if b.enableSvc {
      if |state| == 0 {
        state := UP;
      }
    } else {
      state := DISABLED;
    }
    var timeout := b.timeout;
    if b.timeout < SECOND {
      timeout := 10 * SECOND;
    }
    Set(rs, InfoKey(b.id), state, timeout, w.inst);
  }

  method SetUps(rs: Machine, keys: seq<string>, life: int, ns: seq<Times>)
    requires |keys| == |ns|
    modifies rs
    ensures rs.data == Ups(old(rs.data), keys, life, ns)
  {
    for i := 0 to |keys|
      invariant rs.data == Ups(old(rs.data), keys[..i], life, ns[..i])
    {
      assert keys[..i + 1][..i] == keys[..i] && ns[..i + 1][..i] == ns[..i];
      Set(rs, keys[i], UP, life, ns[i]);
    }
    assert keys[..|keys|] == keys && ns[..|keys|] == ns;
  }

  method RouteHeartbeat(rs: Machine, b: Beat, w: Writes)
    requires |w.ns| == |b.namespaces|
    modifies rs
    ensures rs.data == Beaten(old(rs.data), b, w)
  {
    if !ValidId(b.id) {
      return;
    }
    SetAppHeartBeat(rs, b, w);
    if b.enableCfg {
      SetUps(rs, TargetKeys(b.id, b.namespaces), Life(b.timeout), w.ns);
    }
  }

  method RegApp(rs: Machine, r: Registration, known: bool, w: Writes) returns (ok: bool)
    requires |w.ns| == |r.namespaces|
    modifies rs
    ensures ok == ValidRegistration(r, known) && rs.data == Registered(old(rs.data), r, known, w)
  {
    ok := ValidRegistration(r, known);
    if !ok {
      return;
    }
    Set(rs, MetaKey(r.id), r.meta, META_EXPIRE, w.meta);
    SetUps(rs, NSKeys(r.id, r.namespaces), INSTANCE_EXPIRE, w.ns);
    Set(rs, InfoKey(r.id), r.state, INSTANCE_EXPIRE, w.inst);
  }

  // ----- one write -----

  /** The millisecond until which a write keeps its key. */
  function Due(w: Times, life: int): int { w.stamp + TruncDiv(life, MILLI) }

  predicate InTime(w: Times, life: int) { w.at.first <= Due(w, life) }

  predicate Sane(w: Times, life: int) {
    life > 0 && 0 <= w.stamp && Due(w, life) <= MAX_MILLIS && 0 <= w.at.second <= MAX_MILLIS
  }

  lemma {:induction false} PutSlot(db: Db, key: string, value: string, life: int, w: Times, k: string)
    requires Sane(w, life)
    ensures At(Put(db, key, value, life, w), k)
            == if k == key && InTime(w, life) then Some(Entry(value, Some(Due(w, life) * MILLI))) else At(db, k)
  {
    DeadlineExact(SetCommand(key, value, life, w.stamp).exp, w.at.second);
  }

  lemma {:induction false} PutOther(db: Db, key: string, value: string, life: int, w: Times, k: string)
    requires k != key
    ensures At(Put(db, key, value, life, w), k) == At(db, k)
  {
  }

  lemma {:induction false} UpsOther(db: Db, keys: seq<string>, life: int, ns: seq<Times>, k: string)
    requires |keys| == |ns| && k !in keys
    ensures At(Ups(db, keys, life, ns), k) == At(db, k)
  {
    if keys != [] {
      UpsOther(db, keys[..|keys| - 1], life, ns[..|keys| - 1], k);
    }
  }

  // ----- keys of different kinds and instances -----

  lemma {:induction false} HeadsDiffer(a: string, b: string)
    ensures NAMESPACE + a != INSTANCE_INFO + b && INSTANCE_META + a != INSTANCE_INFO + b
  {
    assert (NAMESPACE + a)[4] == 'n' && (INSTANCE_INFO + b)[4] == 'i';
    assert (INSTANCE_META + a)[13] == 'm' && (INSTANCE_INFO + b)[13] == 'i';
  }

  lemma {:induction false} InfoForm(id: Id)
    requires id.port >= 0
    ensures InfoKey(id) == INSTANCE_INFO + Fields(id.app, id.group, Address(id.ip, id.port))
    ensures MetaKey(id) == INSTANCE_META + Fields(id.app, id.group, Address(id.ip, id.port))
  {
    KeyForm(INSTANCE_INFO, id.app, id.group, Address(id.ip, id.port));
    KeyForm(INSTANCE_META, id.app, id.group, Address(id.ip, id.port));
  }

  lemma {:induction false} KindsDiffer(id: Id, other: Id, app: string, group: string, ns: string, ip: string, port: nat)
    requires id.port >= 0 && other.port >= 0
    ensures MetaKey(other) != InfoKey(id) && NamespaceKey(app, group, ns, ip, port) != InfoKey(id)
  {
    InfoForm(id);
    InfoForm(other);
    var rest := ns + ("." + Address(ip, port));
    KeyForm(NAMESPACE, app, group, rest);
    var b := Fields(id.app, id.group, Address(id.ip, id.port));
    HeadsDiffer(Fields(other.app, other.group, Address(other.ip, other.port)), b);
    HeadsDiffer(Fields(app, group, rest), b);
  }

  predicate Dotless(id: Id) { '.' !in id.app && '.' !in id.group }

  /** Different instances of dot-free applications and groups have different keys. */
  lemma {:induction false} InstancesDiffer(a: Id, b: Id)
    requires Dotless(a) && Dotless(b) && a.port >= 0 && b.port >= 0
    ensures InfoKey(a) == InfoKey(b) <==> a == b
  {
    InfoForm(a);
    InfoForm(b);
    if InfoKey(a) == InfoKey(b) {
      SameFields(a, b, InfoKey(a)[|INSTANCE_INFO|..]);
    }
  }

  lemma {:induction false} SameFields(a: Id, b: Id, s: string)
    requires Dotless(a) && Dotless(b) && a.port >= 0 && b.port >= 0
    requires s == Fields(a.app, a.group, Address(a.ip, a.port)) && s == Fields(b.app, b.group, Address(b.ip, b.port))
    ensures a == b
  {
    SameSplit(a.app, b.app, '.', a.group + (['.'] + Address(a.ip, a.port)), b.group + (['.'] + Address(b.ip, b.port)));
    SameSplit(a.group, b.group, '.', Address(a.ip, a.port), Address(b.ip, b.port));
    SameAddress(a.ip, a.port, b.ip, b.port);
  }

  lemma {:induction false} SameAddress(ip: string, port: nat, ip': string, port': nat)
    requires Address(ip, port) == Address(ip', port')
    ensures ip == ip' && port == port'
  {
    NoColonInItoa(port);
    NoColonInItoa(port');
    assert Address(ip, port) == ip + (":" + Itoa(port)) && Address(ip', port') == ip' + (":" + Itoa(port'));
    SameDigits(ip, Itoa(port), ip', Itoa(port'));
    NumberItoa(port);
    NumberItoa(port');
  }

  lemma {:induction false} MetaApart(id: Id, other: Id, names: seq<string>)
    requires id.port >= 0 && other.port >= 0
    ensures MetaKey(id) != InfoKey(other)
    ensures MetaKey(id) !in TargetKeys(other, names) && MetaKey(id) !in NSKeys(other, names)
  {
    KindsDiffer(other, id, "", "", "", "", 0);
    forall j | 0 <= j < |names|
      ensures TargetKeys(other, names)[j] != MetaKey(id) && NSKeys(other, names)[j] != MetaKey(id)
    {
      var o := Target(other, names[j]);
      MetaNotNamespace(id, o.0, o.1, o.2, other.ip, other.port);
      MetaNotNamespace(id, other.app, other.group, names[j], other.ip, other.port);
    }
  }

  lemma {:induction false} MetaNotNamespace(id: Id, app: string, group: string, ns: string, ip: string, port: nat)
    requires id.port >= 0
    ensures NamespaceKey(app, group, ns, ip, port) != MetaKey(id)
  {
    var rest := ns + ("." + Address(ip, port));
    InfoForm(id);
    KeyForm(NAMESPACE, app, group, rest);
    var a, b := Fields(app, group, rest), Fields(id.app, id.group, Address(id.ip, id.port));
    assert (NAMESPACE + a)[4] == 'n' && (INSTANCE_META + b)[4] == 'i';
  }

  lemma {:induction false} MetasDiffer(a: Id, b: Id)
    requires Dotless(a) && Dotless(b) && a.port >= 0 && b.port >= 0
    ensures MetaKey(a) == MetaKey(b) <==> a == b
  {
    InfoForm(a);
    InfoForm(b);
    if MetaKey(a) == MetaKey(b) {
      SameFields(a, b, MetaKey(a)[|INSTANCE_META|..]);
    }
  }

  // ----- runs of registrations and heartbeats of many instances -----

  datatype Action =
    | Registers(r: Registration, known: bool, w: Writes)
    | Beats(b: Beat, w: Writes)

  function IdOf(a: Action): Id { if a.Beats? then a.b.id else a.r.id }

  function NamesOf(a: Action): seq<string> { if a.Beats? then a.b.namespaces else a.r.namespaces }

  function LifeOf(a: Action): int { if a.Beats? then Life(a.b.timeout) else INSTANCE_EXPIRE }

  predicate Accepted(a: Action) { if a.Beats? then ValidId(a.b.id) else ValidRegistration(a.r, a.known) }

  predicate WellFormed(a: Action) {
    |a.w.ns| == |NamesOf(a)| && Sane(a.w.inst, LifeOf(a)) && Dotless(IdOf(a))
  }

  type Actions = s: seq<Action> | forall i :: 0 <= i < |s| ==> WellFormed(s[i])

  function Do(db: Db, a: Action): Db
    requires WellFormed(a)
  {
    if a.Beats? then Beaten(db, a.b, a.w) else Registered(db, a.r, a.known, a.w)
  }

  function Run(db: Db, s: Actions): Db {
    if s == [] then db else Do(Run(db, s[..|s| - 1]), s[|s| - 1])
  }

  /** The state an accepted action writes, given the slot it finds. */
  function Written(a: Action, e: Option<Entry>): string {
    if a.Beats? then NextState(a.b.enableSvc, Shown(e, a.w.inst.look)) else a.r.state
  }

  predicate Renews(a: Action, id: Id) { IdOf(a) == id && Accepted(a) && InTime(a.w.inst, LifeOf(a)) }

  /** What one action does to the slot of one instance. */
  function SlotAfter(e: Option<Entry>, a: Action, id: Id): Option<Entry> {
    if Renews(a, id) then Some(Entry(Written(a, e), Some(Due(a.w.inst, LifeOf(a)) * MILLI))) else e
  }

  lemma {:induction false} NamespacesOther(id: Id, other: Id, names: seq<string>)
    requires id.port >= 0 && other.port >= 0
    ensures InfoKey(id) !in TargetKeys(other, names) && InfoKey(id) !in NSKeys(other, names)
  {
    forall j | 0 <= j < |names|
      ensures TargetKeys(other, names)[j] != InfoKey(id) && NSKeys(other, names)[j] != InfoKey(id)
    {
      var o := Target(other, names[j]);
      KindsDiffer(id, other, o.0, o.1, o.2, other.ip, other.port);
      KindsDiffer(id, other, other.app, other.group, names[j], other.ip, other.port);
    }
  }

  /** Over any run, an instance's slot is changed only by its own accepted, timely actions. */
  lemma {:induction false} DoSlot(db: Db, a: Action, id: Id)
    requires WellFormed(a) && Dotless(id) && ValidId(id)
    ensures At(Do(db, a), InfoKey(id)) == SlotAfter(At(db, InfoKey(id)), a, id)
  {
    if Accepted(a) {
      KindsDiffer(id, IdOf(a), "", "", "", "", 0);
      KindsDiffer(IdOf(a), IdOf(a), "", "", "", "", 0);
      InstancesDiffer(id, IdOf(a));
      NamespacesOther(id, IdOf(a), NamesOf(a));
      if a.Beats? { BeatSlot(db, a, id); } else { RegisterSlot(db, a, id); }
    }
  }

  /** What a heartbeat that is valid and in time stores: it keeps the state that is shown. */
  lemma {:induction false} BeatStates(db: Db, b: Beat, w: Writes)
    requires b.id.app != "" && b.id.group != "" && |b.id.ip| >= 7 && b.id.port >= 1
    requires WellFormed(Beats(b, w)) && w.inst.at.first <= w.inst.stamp + Granted(b.timeout)
    ensures var seen := Shown(At(db, InfoKey(b.id)), w.inst.look);
            At(Do(db, Beats(b, w)), InfoKey(b.id))
            == Some(Entry(if !b.enableSvc then "DISABLED" else if seen.Some? && seen.value != "" then seen.value
                          else "UP",
                          Some((w.inst.stamp + Granted(b.timeout)) * MILLI)))
  {
    DoSlot(db, Beats(b, w), b.id);
  }

  lemma {:induction false} BeatSlot(db: Db, a: Action, id: Id)
    requires WellFormed(a) && Dotless(id) && ValidId(id) && Accepted(a) && a.Beats?
    requires MetaKey(a.b.id) != InfoKey(id) && MetaKey(a.b.id) != InfoKey(a.b.id)
    requires InfoKey(id) == InfoKey(a.b.id) <==> id == a.b.id
    requires InfoKey(id) !in TargetKeys(a.b.id, a.b.namespaces)
    ensures At(Beaten(db, a.b, a.w), InfoKey(id)) == SlotAfter(At(db, InfoKey(id)), a, id)
  {
    var b, w := a.b, a.w;
    var meta := Shown(At(db, MetaKey(b.id)), w.meta.look);
    var value := if meta.Some? then meta.value else b.meta;
    var db1 := Put(db, MetaKey(b.id), value, META_EXPIRE, w.meta);
    PutOther(db, MetaKey(b.id), value, META_EXPIRE, w.meta, InfoKey(id));
    PutOther(db, MetaKey(b.id), value, META_EXPIRE, w.meta, InfoKey(b.id));
    PutSlot(db1, InfoKey(b.id), NextState(b.enableSvc, Shown(At(db1, InfoKey(b.id)), w.inst.look)), Life(b.timeout),
        w.inst, InfoKey(id));
    UpsOther(AppBeat(db, b, w), TargetKeys(b.id, b.namespaces), Life(b.timeout), w.ns, InfoKey(id));
  }

  lemma {:induction false} RegisterSlot(db: Db, a: Action, id: Id)
    requires WellFormed(a) && Dotless(id) && ValidId(id) && Accepted(a) && a.Registers?
    requires MetaKey(a.r.id) != InfoKey(id)
    requires InfoKey(id) == InfoKey(a.r.id) <==> id == a.r.id
    requires InfoKey(id) !in NSKeys(a.r.id, a.r.namespaces)
    ensures At(Registered(db, a.r, a.known, a.w), InfoKey(id)) == SlotAfter(At(db, InfoKey(id)), a, id)
  {
    var r, w := a.r, a.w;
    var db1 := Put(db, MetaKey(r.id), r.meta, META_EXPIRE, w.meta);
    var db2 := Ups(db1, NSKeys(r.id, r.namespaces), INSTANCE_EXPIRE, w.ns);
    PutOther(db, MetaKey(r.id), r.meta, META_EXPIRE, w.meta, InfoKey(id));
    UpsOther(db1, NSKeys(r.id, r.namespaces), INSTANCE_EXPIRE, w.ns, InfoKey(id));
    PutSlot(db2, InfoKey(r.id), r.state, INSTANCE_EXPIRE, w.inst, InfoKey(id));
  }

  /** The deadline of the instance's latest write, None before the first. */
  function LastDue(s: Actions, id: Id): Option<int> {
    if s == [] then None
    else
      var a := s[|s| - 1];
      if Renews(a, id) then Some(Due(a.w.inst, LifeOf(a))) else LastDue(s[..|s| - 1], id)
  }

  /** Over every run from an empty store, an instance is visible exactly until
      the deadline of its latest write. */
  lemma {:induction false} VisibleUntilDue(s: Actions, id: Id, t: int)
    requires Dotless(id) && ValidId(id)
    ensures Shown(At(Run(map[], s), InfoKey(id)), t).Some? <==> LastDue(s, id).Some? && t < LastDue(s, id).value
  {
    if s != [] {
      VisibleUntilDue(s[..|s| - 1], id, t);
      DoSlot(Run(map[], s[..|s| - 1]), s[|s| - 1], id);
    }
  }

  /** What follows is only heartbeats with the service enabled, as far as this
      instance is concerned; the others do as they please. */
  predicate Steady(s: Actions, id: Id) {
    forall i :: 0 <= i < |s| && IdOf(s[i]) == id ==> s[i].Beats? && s[i].b.enableSvc
  }

  /** Every renewing heartbeat sees the slot before the deadline it has then. */
  predicate OnTime(first: int, s: Actions, id: Id) {
    s == [] ||
    (OnTime(first, s[..|s| - 1], id)
     && (Renews(s[|s| - 1], id) ==> s[|s| - 1].w.inst.look < DueAfter(first, s[..|s| - 1], id)))
  }

  function DueAfter(first: int, s: Actions, id: Id): int {
    var last := LastDue(s, id);
    if last.Some? then last.value else first
  }

  lemma {:induction false} SlotKept(db: Db, s: Actions, id: Id, state: string, first: int)
    requires Dotless(id) && ValidId(id) && Steady(s, id)
    requires At(db, InfoKey(id)) == Some(Entry(state, Some(first * MILLI))) && state != ""
    ensures At(Run(db, s), InfoKey(id))
            == Some(Entry(if OnTime(first, s, id) then state else UP, Some(DueAfter(first, s, id) * MILLI)))
  {
    hide ValidId, InfoKey, WellFormed, Accepted;
    if s != [] {
      SlotKept(db, s[..|s| - 1], id, state, first);
      DoSlot(Run(db, s[..|s| - 1]), s[|s| - 1], id);
    }
  }

  /** After a state is written, whether by a registration or by a heartbeat of
      an instance with its service off, later heartbeats keep it exactly when
      each comes before the deadline then in force; one late heartbeat puts the
      instance back to UP for good. */
  lemma {:induction false} StateKeptExactly(db: Db, a: Action, s: Actions, id: Id)
    requires WellFormed(a) && Dotless(id) && Renews(a, id) && (a.Beats? ==> !a.b.enableSvc)
    requires Steady(s, id)
    ensures var state, first := if a.Beats? then DISABLED else a.r.state, Due(a.w.inst, LifeOf(a));
            At(Run(Do(db, a), s), InfoKey(id))
            == Some(Entry(if OnTime(first, s, id) then state else UP, Some(DueAfter(first, s, id) * MILLI)))
  {
    DoSlot(db, a, id);
    SlotKept(Do(db, a), s, id, if a.Beats? then DISABLED else a.r.state, Due(a.w.inst, LifeOf(a)));
  }

  // ----- metadata -----

  /** Milliseconds in a day. */
  const DAY := 86_400_000

  /** The metadata's write is stamped with a time whose deadline fits. */
  predicate MetaTimed(a: Action) {
    0 <= a.w.meta.stamp && a.w.meta.stamp + DAY <= MAX_MILLIS && 0 <= a.w.meta.at.second <= MAX_MILLIS
  }

  /** An accepted action of the instance whose metadata's write is applied in time. */
  predicate MetaRenews(a: Action, id: Id) {
    IdOf(a) == id && Accepted(a) && a.w.meta.at.first <= a.w.meta.stamp + DAY
  }

  /** The metadata slot of an instance: a registration writes its own text; a heartbeat
      writes what it still sees, or its own text if it sees none; either lasts a day. */
  lemma {:induction false} DoMeta(db: Db, a: Action, id: Id)
    requires WellFormed(a) && MetaTimed(a) && Dotless(id) && ValidId(id)
    ensures var before, after := At(db, MetaKey(id)), At(Do(db, a), MetaKey(id));
            var seen := Shown(before, a.w.meta.look);
            if !MetaRenews(a, id) then after == before
            else
              && after.Some? && after.value.deadline == Some((a.w.meta.stamp + DAY) * MILLI)
              && after.value.value == if a.Registers? then a.r.meta else if seen.Some? then seen.value else a.b.meta
  {
    if Accepted(a) {
      var me := IdOf(a);
      MetaApart(id, me, NamesOf(a));
      MetasDiffer(id, me);
      if a.Beats? { BeatMeta(db, a, id); } else { RegisterMeta(db, a, id); }
    }
  }

  lemma {:induction false} BeatMeta(db: Db, a: Action, id: Id)
    requires WellFormed(a) && MetaTimed(a) && ValidId(id) && Accepted(a) && a.Beats?
    requires MetaKey(id) != InfoKey(a.b.id) && MetaKey(id) !in TargetKeys(a.b.id, a.b.namespaces)
    requires MetaKey(id) == MetaKey(a.b.id) <==> id == a.b.id
    ensures var seen := Shown(At(db, MetaKey(id)), a.w.meta.look);
            At(Beaten(db, a.b, a.w), MetaKey(id))
            == if !MetaRenews(a, id) then At(db, MetaKey(id))
               else Some(Entry(if seen.Some? then seen.value else a.b.meta, Some((a.w.meta.stamp + DAY) * MILLI)))
  {
    hide MetaKey, InfoKey, Shown, AppBeat, Put, Ups;
    AppBeatMeta(db, a.b, a.w, MetaKey(id));
    UpsOther(AppBeat(db, a.b, a.w), TargetKeys(a.b.id, a.b.namespaces), Life(a.b.timeout), a.w.ns, MetaKey(id));
  }

  lemma {:induction false} AppBeatMeta(db: Db, b: Beat, w: Writes, k: string)
    requires b.id.port >= 0 && k != InfoKey(b.id)
    requires 0 <= w.meta.stamp && w.meta.stamp + DAY <= MAX_MILLIS && 0 <= w.meta.at.second <= MAX_MILLIS
    ensures var seen := Shown(At(db, MetaKey(b.id)), w.meta.look);
            At(AppBeat(db, b, w), k)
            == if k == MetaKey(b.id) && w.meta.at.first <= w.meta.stamp + DAY
               then Some(Entry(if seen.Some? then seen.value else b.meta, Some((w.meta.stamp + DAY) * MILLI)))
               else At(db, k)
  {
    hide MetaKey, InfoKey, Shown, Put;
    var seen := Shown(At(db, MetaKey(b.id)), w.meta.look);
    var value := if seen.Some? then seen.value else b.meta;
    var db1 := Put(db, MetaKey(b.id), value, META_EXPIRE, w.meta);
    PutSlot(db, MetaKey(b.id), value, META_EXPIRE, w.meta, k);
    PutOther(db1, InfoKey(b.id), NextState(b.enableSvc, Shown(At(db1, InfoKey(b.id)), w.inst.look)), Life(b.timeout),
        w.inst, k);
  }

  lemma {:induction false} RegisterMeta(db: Db, a: Action, id: Id)
    requires WellFormed(a) && MetaTimed(a) && ValidId(id) && Accepted(a) && a.Registers?
    requires MetaKey(id) != InfoKey(a.r.id) && MetaKey(id) !in NSKeys(a.r.id, a.r.namespaces)
    requires MetaKey(id) == MetaKey(a.r.id) <==> id == a.r.id
    ensures At(Registered(db, a.r, a.known, a.w), MetaKey(id))
            == if !MetaRenews(a, id) then At(db, MetaKey(id))
               else Some(Entry(a.r.meta, Some((a.w.meta.stamp + DAY) * MILLI)))
  {
    hide MetaKey, InfoKey;
    var r, w := a.r, a.w;
    var db1 := Put(db, MetaKey(r.id), r.meta, META_EXPIRE, w.meta);
    var db2 := Ups(db1, NSKeys(r.id, r.namespaces), INSTANCE_EXPIRE, w.ns);
    PutSlot(db, MetaKey(r.id), r.meta, META_EXPIRE, w.meta, MetaKey(id));
    UpsOther(db1, NSKeys(r.id, r.namespaces), INSTANCE_EXPIRE, w.ns, MetaKey(id));
    PutOther(db2, InfoKey(r.id), r.state, INSTANCE_EXPIRE, w.inst, MetaKey(id));
  }

  /** The day, in milliseconds, that the latest write of the metadata grants. */
  function MetaDue(first: int, s: Actions, id: Id): int {
    if s == [] then first
    else if MetaRenews(s[|s| - 1], id) then s[|s| - 1].w.meta.stamp + DAY
    else MetaDue(first, s[..|s| - 1], id)
  }

  /** Every heartbeat that renews the metadata looks before they lapse. */
  predicate MetaSeen(first: int, s: Actions, id: Id) {
    s == [] ||
    (MetaSeen(first, s[..|s| - 1], id)
     && (MetaRenews(s[|s| - 1], id) ==> s[|s| - 1].w.meta.look < MetaDue(first, s[..|s| - 1], id)))
  }

  /** The text of the first heartbeat, if any, that comes too late to see the metadata,
      and of each later one that is too late for those before it. */
  function MetaText(text: string, first: int, s: Actions, id: Id): string {
    if s == [] then text
    else
      var init, a := s[..|s| - 1], s[|s| - 1];
      if MetaRenews(a, id) && a.Beats? && a.w.meta.look >= MetaDue(first, init, id) then a.b.meta
      else MetaText(text, first, init, id)
  }

  /** Of this instance there are only heartbeats. */
  predicate OnlyBeats(s: Actions, id: Id) {
    forall i :: 0 <= i < |s| && IdOf(s[i]) == id ==> s[i].Beats?
  }

  lemma {:induction false} MetaRun(db: Db, s: Actions, id: Id, text: string, first: int)
    requires Dotless(id) && ValidId(id) && OnlyBeats(s, id) && forall i :: 0 <= i < |s| ==> MetaTimed(s[i])
    requires At(db, MetaKey(id)) == Some(Entry(text, Some(first * MILLI)))
    ensures At(Run(db, s), MetaKey(id))
            == Some(Entry(MetaText(text, first, s, id), Some(MetaDue(first, s, id) * MILLI)))
    ensures MetaSeen(first, s, id) ==> MetaText(text, first, s, id) == text
  {
    hide ValidId, MetaKey, WellFormed, Accepted, MetaTimed, Do;
    if s != [] {
      MetaRun(db, s[..|s| - 1], id, text, first);
      DoMeta(Run(db, s[..|s| - 1]), s[|s| - 1], id);
    }
  }

  /** Registered metadata stay, through any run of heartbeats and of other instances'
      actions, exactly until a day after the last of them, if each heartbeat of the
      instance comes within the day then in force; after that a heartbeat's own text
      takes their place. */
  lemma {:induction false} MetaKept(db: Db, a: Action, s: Actions, id: Id, t: int)
    requires WellFormed(a) && Dotless(id) && a.Registers? && MetaTimed(a) && MetaRenews(a, id) && OnlyBeats(s, id)
    requires forall i :: 0 <= i < |s| ==> MetaTimed(s[i])
    ensures var first, slot := a.w.meta.stamp + DAY, At(Run(Do(db, a), s), MetaKey(id));
            && (Shown(slot, t).Some? <==> t < MetaDue(first, s, id))
            && (t < MetaDue(first, s, id) ==> Shown(slot, t) == Some(MetaText(a.r.meta, first, s, id)))
            && (MetaSeen(first, s, id) ==> MetaText(a.r.meta, first, s, id) == a.r.meta)
  {
    DoMeta(db, a, id);
    MetaRun(Do(db, a), s, id, a.r.meta, a.w.meta.stamp + DAY);
  }

  // ----- what an action leaves alone -----

  /** A heartbeat that is not valid does nothing, and a valid one touches nothing but
      its metadata, its state and, if it serves configuration, its namespace keys. */
  lemma {:induction false} BeatTouches(db: Db, b: Beat, w: Writes, k: string)
    requires |w.ns| == |b.namespaces|
    requires b.id.app != "" && b.id.group != "" && |b.id.ip| >= 7 && b.id.port >= 1 ==>
               && k != MetaKey(b.id) && k != InfoKey(b.id)
               && (b.enableCfg ==> forall j :: 0 <= j < |b.namespaces| ==> k != TargetKey(b.id, b.namespaces[j]))
    ensures At(Beaten(db, b, w), k) == At(db, k)
  {
    if ValidId(b.id) {
      var seen := Shown(At(db, MetaKey(b.id)), w.meta.look);
      var value := if seen.Some? then seen.value else b.meta;
      var db1 := Put(db, MetaKey(b.id), value, META_EXPIRE, w.meta);
      PutOther(db, MetaKey(b.id), value, META_EXPIRE, w.meta, k);
      PutOther(db1, InfoKey(b.id), NextState(b.enableSvc, Shown(At(db1, InfoKey(b.id)), w.inst.look)),
          Life(b.timeout), w.inst, k);
      if b.enableCfg {
        UpsOther(AppBeat(db, b, w), TargetKeys(b.id, b.namespaces), Life(b.timeout), w.ns, k);
      }
    }
  }

  /** The same of a registration, which is not valid without a state. */
  lemma {:induction false} RegistrationTouches(db: Db, r: Registration, known: bool, w: Writes, k: string)
    requires |w.ns| == |r.namespaces|
    requires r.id.app != "" && r.id.group != "" && |r.id.ip| >= 7 && r.id.port >= 1 && r.state != "" && known ==>
               && k != MetaKey(r.id) && k != InfoKey(r.id)
               && forall j :: 0 <= j < |r.namespaces| ==>
                    k != NamespaceKey(r.id.app, r.id.group, r.namespaces[j], r.id.ip, r.id.port)
    ensures At(Registered(db, r, known, w), k) == At(db, k)
  {
    if ValidRegistration(r, known) {
      var db1 := Put(db, MetaKey(r.id), r.meta, META_EXPIRE, w.meta);
      PutOther(db, MetaKey(r.id), r.meta, META_EXPIRE, w.meta, k);
      UpsOther(db1, NSKeys(r.id, r.namespaces), INSTANCE_EXPIRE, w.ns, k);
      PutOther(Ups(db1, NSKeys(r.id, r.namespaces), INSTANCE_EXPIRE, w.ns), InfoKey(r.id), r.state, INSTANCE_EXPIRE,
          w.inst, k);
    }
  }

  /** A namespace key that shows after the writes showed before, or shows UP until the
      deadline of a write of it that was applied in time. */
  lemma {:induction false} UpsUntil(db: Db, keys: seq<string>, life: int, ns: seq<Times>, k: string, t: int)
    requires |keys| == |ns| && forall i :: 0 <= i < |ns| ==> Sane(ns[i], life)
    ensures var e := At(Ups(db, keys, life, ns), k);
            || e == At(db, k)
            || exists i :: 0 <= i < |keys| && keys[i] == k && InTime(ns[i], life)
                           && (Shown(e, t) == if t < Due(ns[i], life) then Some(UP) else None)
  {
    if keys != [] {
      var n := |keys| - 1;
      UpsUntil(db, keys[..n], life, ns[..n], k, t);
      PutSlot(Ups(db, keys[..n], life, ns[..n]), keys[n], UP, life, ns[n], k);
      if keys[n] == k && InTime(ns[n], life) {
        assert ns[n] == ns[n];
      } else if At(Ups(db, keys[..n], life, ns[..n]), k) != At(db, k) {
        var before := Shown(At(Ups(db, keys[..n], life, ns[..n]), k), t);
        var i :| 0 <= i < n && keys[..n][i] == k && InTime(ns[..n][i], life)
            && before == if t < Due(ns[..n][i], life) then Some(UP) else None;
        assert keys[i] == k && InTime(ns[i], life);
      }
    }
  }

  /** The time a heartbeat grants, in milliseconds: what it asks for, or ten seconds if
      it asks for less than one. */
  function Granted(timeout: int): int {
    if timeout < 1_000_000_000 then 10_000 else timeout / 1_000_000
  }

  /** So a namespace key that a heartbeat writes lasts as long as its state. */
  lemma {:induction false} BeatNamespaces(db: Db, b: Beat, w: Writes, j: nat, t: int)
    requires ValidId(b.id) && b.enableCfg && |w.ns| == |b.namespaces| && j < |w.ns|
    requires forall i :: 0 <= i < |w.ns| ==> Sane(w.ns[i], Life(b.timeout))
    requires forall i :: 0 <= i < |w.ns| ==> t >= w.ns[i].stamp + Granted(b.timeout)
    requires Shown(At(db, TargetKey(b.id, b.namespaces[j])), t) == None
    ensures Shown(At(Beaten(db, b, w), TargetKey(b.id, b.namespaces[j])), t) == None
  {
    var k := TargetKey(b.id, b.namespaces[j]);
    var o := Target(b.id, b.namespaces[j]);
    UpsUntil(AppBeat(db, b, w), TargetKeys(b.id, b.namespaces), Life(b.timeout), w.ns, k, t);
    MetaNotNamespace(b.id, o.0, o.1, o.2, b.id.ip, b.id.port);
    KindsDiffer(b.id, b.id, o.0, o.1, o.2, b.id.ip, b.id.port);
    BeatTouches(db, b.(enableCfg := false), w, k);
  }

  lemma {:induction false} RegisteredNamespaces(db: Db, r: Registration, w: Writes, j: nat, t: int)
    requires ValidRegistration(r, true) && |w.ns| == |r.namespaces| && j < |w.ns|
    requires forall i :: 0 <= i < |w.ns| ==> Sane(w.ns[i], INSTANCE_EXPIRE) && t >= w.ns[i].stamp + 30_000
    requires Shown(At(db, NSKeys(r.id, r.namespaces)[j]), t) == None
    ensures Shown(At(Registered(db, r, true, w), NSKeys(r.id, r.namespaces)[j]), t) == None
  {
    var id, k := r.id, NSKeys(r.id, r.namespaces)[j];
    var db1 := Put(db, MetaKey(id), r.meta, META_EXPIRE, w.meta);
    UpsUntil(db1, NSKeys(id, r.namespaces), INSTANCE_EXPIRE, w.ns, k, t);
    MetaNotNamespace(id, id.app, id.group, r.namespaces[j], id.ip, id.port);
    KindsDiffer(id, id, id.app, id.group, r.namespaces[j], id.ip, id.port);
    PutOther(db, MetaKey(id), r.meta, META_EXPIRE, w.meta, k);
    PutOther(Ups(db1, NSKeys(id, r.namespaces), INSTANCE_EXPIRE, w.ns), InfoKey(id), r.state, INSTANCE_EXPIRE,
        w.inst, k);
  }

  // ----- how long a heartbeat lasts -----

  /** A heartbeat with a name for its application and group, an address of at least
      seven characters and a port, applied no later than it is due, shows its instance
      for the time it asks for, up to a millisecond, or for ten seconds if it asks for
      less than one; no longer. */
  lemma {:induction false} BeatLasts(db: Db, b: Beat, w: Writes, t: int)
    requires b.id.app != "" && b.id.group != "" && |b.id.ip| >= 7 && b.id.port >= 1
    requires WellFormed(Beats(b, w)) && w.inst.at.first <= w.inst.stamp + Granted(b.timeout)
    ensures Shown(At(Do(db, Beats(b, w)), InfoKey(b.id)), t).Some? <==> t < w.inst.stamp + Granted(b.timeout)
  {
    DoSlot(db, Beats(b, w), b.id);
  }

  /** A registration of that kind with a state, and an application and group that
      exist, shows its instance in that state for thirty seconds. */
  lemma {:induction false} RegistrationLasts(db: Db, r: Registration, w: Writes, t: int)
    requires r.id.app != "" && r.id.group != "" && |r.id.ip| >= 7 && r.id.port >= 1 && r.state != ""
    requires WellFormed(Registers(r, true, w)) && w.inst.at.first <= w.inst.stamp + 30_000
    ensures Shown(At(Do(db, Registers(r, true, w)), InfoKey(r.id)), t)
            == if t < w.inst.stamp + 30_000 then Some(r.state) else None
  {
    DoSlot(db, Registers(r, true, w), r.id);
  }

  // ----- whose namespace a name is -----

  /** A name of four parts is its owner's application, group, and namespace with its
      format; any other name belongs to the instance that names it. */
  lemma {:induction false} TargetExact(id: Id, a: string, g: string, n: string, f: string, v: string)
    requires '.' !in a && '.' !in g && '.' !in n && '.' !in f
    ensures Target(id, a + "." + g + "." + n + "." + f) == (a, g, n + "." + f)
    ensures |Split(v, '.')| != 4 ==> Target(id, v) == (id.app, id.group, v)
  {
    var parts := [a, g, n, f];
    assert parts[1..] == [g, n, f] && [g, n, f][1..] == [n, f] && [n, f][1..] == [f];
    assert Join([f], ".") == f && Join([n, f], ".") == n + "." + f;
    assert Join([g, n, f], ".") == g + "." + (n + "." + f);
    assert Join(parts, ".") == a + "." + (g + "." + (n + "." + f));
    assert a + "." + (g + "." + (n + "." + f)) == a + "." + g + "." + n + "." + f;
    SplitJoin(parts, '.');
  }

  // ----- from a heartbeat to the listing of a namespace -----

  lemma {:induction false} UpsLive(db: Db, keys: seq<string>, life: int, ns: seq<Times>, j: nat, t: int)
    requires |keys| == |ns| && j < |keys|
    requires forall i :: 0 <= i < |ns| ==> Sane(ns[i], life) && InTime(ns[i], life) && t < Due(ns[i], life)
    ensures Shown(At(Ups(db, keys, life, ns), keys[j]), t) == Some(UP)
  {
    var n := |keys| - 1;
    var before := Ups(db, keys[..n], life, ns[..n]);
    PutSlot(before, keys[n], UP, life, ns[n], keys[j]);
    if keys[j] != keys[n] {
      UpsLive(db, keys[..n], life, ns[..n], j, t);
    }
  }

  function TargetListener(id: Id, v: string): Listener {
    Listener(id.ip, id.port, Format(Target(id, v).2), Target(id, v).2)
  }

  /** Until its deadlines pass, a heartbeat that serves configuration puts its
      instance, once, under every namespace it names, shared ones included. */
  lemma {:induction false} HeartbeatIsListed(db: Db, b: Beat, w: Writes, j: nat, t: int, keys: seq<string>,
      result: Option<map<string, seq<Listener>>>)
    requires ValidId(b.id) && b.enableCfg && |w.ns| == |b.namespaces| && j < |w.ns|
    requires forall i :: 0 <= i < |w.ns| ==>
               Sane(w.ns[i], Life(b.timeout)) && InTime(w.ns[i], Life(b.timeout)) && t < Due(w.ns[i], Life(b.timeout))
    requires var o := Target(b.id, b.namespaces[j]);
             && GoodListener(o.0, o.1, o.2, b.id.ip, b.id.port) && CleanNamespaces(Beaten(db, b, w))
             && Lists(keys, Scanned(Beaten(db, b, w), PairPrefix(NAMESPACE, o.0, o.1), t).Keys) && Answers(result, keys)
    ensures var l := TargetListener(b.id, b.namespaces[j]);
            result.Some? && l.namespace in result.value && multiset(result.value[l.namespace])[l] == 1
  {
    var names := TargetKeys(b.id, b.namespaces);
    var o := Target(b.id, b.namespaces[j]);
    UpsLive(AppBeat(db, b, w), names, Life(b.timeout), w.ns, j, t);
    ListenersAreLiveKeys(Beaten(db, b, w), o.0, o.1, t, keys, result, TargetListener(b.id, b.namespaces[j]), names[j]);
  }

  /** Until its deadlines pass, a registration puts its instance, once, under every
      namespace it names, in its own application and group. */
  lemma {:induction false} RegistrationIsListed(db: Db, r: Registration, w: Writes, j: nat, t: int, keys: seq<string>,
      result: Option<map<string, seq<Listener>>>)
    requires ValidRegistration(r, true) && |w.ns| == |r.namespaces| && j < |w.ns|
    requires forall i :: 0 <= i < |w.ns| ==>
               && Sane(w.ns[i], INSTANCE_EXPIRE) && InTime(w.ns[i], INSTANCE_EXPIRE)
               && t < w.ns[i].stamp + 30_000
    requires var db' := Registered(db, r, true, w);
             && GoodListener(r.id.app, r.id.group, r.namespaces[j], r.id.ip, r.id.port) && CleanNamespaces(db')
             && Lists(keys, Scanned(db', PairPrefix(NAMESPACE, r.id.app, r.id.group), t).Keys) && Answers(result, keys)
    ensures var l := Listener(r.id.ip, r.id.port, Format(r.namespaces[j]), r.namespaces[j]);
            result.Some? && l.namespace in result.value && multiset(result.value[l.namespace])[l] == 1
  {
    var id, names := r.id, NSKeys(r.id, r.namespaces);
    var db1 := Put(db, MetaKey(id), r.meta, META_EXPIRE, w.meta);
    var db2 := Ups(db1, names, INSTANCE_EXPIRE, w.ns);
    UpsLive(db1, names, INSTANCE_EXPIRE, w.ns, j, t);
    KindsDiffer(id, id, id.app, id.group, r.namespaces[j], id.ip, id.port);
    PutOther(db2, InfoKey(id), r.state, INSTANCE_EXPIRE, w.inst, names[j]);
    ListenersAreLiveKeys(Registered(db, r, true, w), id.app, id.group, t, keys, result,
        Listener(id.ip, id.port, Format(r.namespaces[j]), r.namespaces[j]), names[j]);
  }
}
