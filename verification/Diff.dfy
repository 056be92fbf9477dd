/** Comparing two versions of a namespace and replaying the difference
    (service/cfg/differ.go, and the events of service/cfg/change_listener.go).

    strings.EqualFold is an equivalence given by a canonical form, `fold`. */
module Diff {
  import opened Results

  type Config = map<string, string>

  datatype NamespaceDiff = NamespaceDiff(
    same: bool, added: Config, removed: Config, changed: map<string, (string, string)>, kept: Config)

  predicate EqualFold(a: string, b: string, fold: string -> string) { fold(a) == fold(b) }

  /** Two slots hold the same up to case, or nothing both. */
  predicate Alike(a: Option<string>, b: Option<string>, fold: string -> string) {
    a.Some? == b.Some? && (a.Some? ==> EqualFold(a.value, b.value, fold))
  }

  ghost predicate Agree(a: Config, b: Config, fold: string -> string) {
    forall k :: Alike(At(a, k), At(b, k), fold)
  }

  // ----- buildNamespaceDiff -----

  function Kept(old_: Config, new_: Config, keys: set<string>, fold: string -> string): Config {
    Within(old_, set k | k in keys && k in old_ && k in new_ && EqualFold(new_[k], old_[k], fold))
  }

  ghost function Changed(old_: Config, new_: Config, keys: set<string>, fold: string -> string)
    : map<string, (string, string)>
  {
    Over((set k | k in keys && k in old_ && k in new_ && !EqualFold(new_[k], old_[k], fold)),
         k requires k in old_ && k in new_ => (old_[k], new_[k]))
  }

  /** The entries of a under the given keys that b does not have. */
  function Only(a: Config, b: Config, keys: set<string>): Config {
    Within(a, keys) - b.Keys
  }

  ghost function DiffOf(old_: Config, new_: Config, fold: string -> string): NamespaceDiff {
    if new_ == map[] then NamespaceDiff(true, map[], map[], map[], old_)
    else
      var added, removed := Only(new_, old_, new_.Keys), Only(old_, new_, old_.Keys);
      var changed := Changed(old_, new_, old_.Keys, fold);
      NamespaceDiff(added == map[] && removed == map[] && changed == map[], added, removed, changed,
                    Kept(old_, new_, old_.Keys, fold))
  }

  /** Both loops, over each map in an arbitrary order. */
  method BuildNamespaceDiff(oldMap: Config, newMap: Config, fold: string -> string) returns (d: NamespaceDiff)
    ensures d == DiffOf(oldMap, newMap, fold)
  {
    if newMap == map[] {
      return NamespaceDiff(true, map[], map[], map[], oldMap);
    }
    var removed, changed, kept := DiffOld(oldMap, newMap, fold);
    var added := DiffNew(oldMap, newMap);
    var isSame := added == map[] && removed == map[] && changed == map[];
    d := NamespaceDiff(isSame, added, removed, changed, kept);
  }

  /** The loop over the old map. */
  method DiffOld(oldMap: Config, newMap: Config, fold: string -> string)
    returns (removed: Config, changed: map<string, (string, string)>, kept: Config)
    ensures removed == Only(oldMap, newMap, oldMap.Keys)
    ensures changed == Changed(oldMap, newMap, oldMap.Keys, fold) && kept == Kept(oldMap, newMap, oldMap.Keys, fold)
  {
    removed, changed, kept := map[], map[], map[];
    var rest, seen := oldMap.Keys, {};
    while rest != {}
      invariant rest + seen == oldMap.Keys && rest !! seen
      invariant removed == Only(oldMap, newMap, seen)
      invariant changed == Changed(oldMap, newMap, seen, fold) && kept == Kept(oldMap, newMap, seen, fold)
      decreases rest
    {
      hide Only, Changed, Kept, EqualFold;
      var k :| k in rest;
      OnlyNext(oldMap, newMap, seen, k);
      ChangedNext(oldMap, newMap, seen, k, fold);
      KeptNext(oldMap, newMap, seen, k, fold);
      rest, seen := rest - {k}, seen + {k};
      if k in newMap {
        if EqualFold(newMap[k], oldMap[k], fold) {
          kept := kept[k := oldMap[k]];
        } else {
          changed := changed[k := (oldMap[k], newMap[k])];
        }
      } else {
        removed := removed[k := oldMap[k]];
      }
    }
  }

  lemma {:induction false} OnlyNext(a: Config, b: Config, keys: set<string>, k: string)
    requires k in a
    ensures Only(a, b, keys + {k}) == if k in b then Only(a, b, keys) else Only(a, b, keys)[k := a[k]]
  {
  }

  lemma {:induction false} ChangedNext(old_: Config, new_: Config, keys: set<string>, k: string, fold: string -> string)
    requires k in old_
    ensures Changed(old_, new_, keys + {k}, fold) ==
            if k in new_ && !EqualFold(new_[k], old_[k], fold)
            then Changed(old_, new_, keys, fold)[k := (old_[k], new_[k])] else Changed(old_, new_, keys, fold)
  {
    hide EqualFold;
  }

  lemma {:induction false} KeptNext(old_: Config, new_: Config, keys: set<string>, k: string, fold: string -> string)
    requires k in old_
    ensures Kept(old_, new_, keys + {k}, fold) ==
            if k in new_ && EqualFold(new_[k], old_[k], fold)
            then Kept(old_, new_, keys, fold)[k := old_[k]] else Kept(old_, new_, keys, fold)
  {
    hide EqualFold;
  }

  /** The loop over the new map. */
  method DiffNew(oldMap: Config, newMap: Config) returns (added: Config)
    ensures added == Only(newMap, oldMap, newMap.Keys)
  {
    added := map[];
    var rest, seen := newMap.Keys, {};
    while rest != {}
      invariant rest + seen == newMap.Keys && rest !! seen
      invariant added == Only(newMap, oldMap, seen)
      decreases rest
    {
      var k :| k in rest;
      rest, seen := rest - {k}, seen + {k};
      if k !in oldMap {
        added := added[k := newMap[k]];
      }
    }
  }

  /** Key by key, for every new version: an empty one leaves everything unchanged;
      otherwise what both have alike up to case is unchanged, with the old value, what
      only one has is removed or added, and the rest changed. */
  lemma {:induction false} DiffAt(old_: Config, new_: Config, fold: string -> string, k: string)
    ensures var d, a, b := DiffOf(old_, new_, fold), At(old_, k), At(new_, k);
            && At(d.kept, k) == (if new_ == map[] || (a.Some? && b.Some? && Alike(a, b, fold)) then a else None)
            && At(d.removed, k) == (if new_ != map[] && b == None then a else None)
            && At(d.added, k) == (if a == None then b else None)
            && At(d.changed, k)
               == if a.Some? && b.Some? && !Alike(a, b, fold) then Some((a.value, b.value)) else None
  {
  }

  /** The parts split the old keys and the new keys, each key in one part. */
  lemma {:induction false} DiffPartitions(old_: Config, new_: Config, fold: string -> string)
    requires new_ != map[]
    ensures var d := DiffOf(old_, new_, fold);
            && old_.Keys == d.removed.Keys + d.changed.Keys + d.kept.Keys
            && new_.Keys == d.added.Keys + d.changed.Keys + d.kept.Keys
            && d.added.Keys !! d.removed.Keys !! d.changed.Keys !! d.kept.Keys
  {
    hide DiffOf, Alike;
    forall k
      ensures var d := DiffOf(old_, new_, fold);
              && (k in old_ <==> k in d.removed || k in d.changed || k in d.kept)
              && (k in new_ <==> k in d.added || k in d.changed || k in d.kept)
              && (k in d.added ==> k !in old_) && (k in d.removed ==> k !in new_)
              && !(k in d.changed && k in d.kept)
    {
      DiffAt(old_, new_, fold, k);
    }
  }

  /** The versions count as the same exactly when they agree up to case, or the
      new one is empty. */
  lemma {:induction false} SameExact(old_: Config, new_: Config, fold: string -> string)
    ensures DiffOf(old_, new_, fold).same <==> new_ == map[] || Agree(old_, new_, fold)
  {
    OnlyEmpty(new_, old_);
    OnlyEmpty(old_, new_);
    ChangedEmpty(old_, new_, fold);
    AgreeExact(old_, new_, fold);
  }

  lemma {:induction false} OnlyEmpty(a: Config, b: Config)
    ensures Only(a, b, a.Keys) == map[] <==> a.Keys <= b.Keys
  {
    if !(a.Keys <= b.Keys) {
      var k :| k in a && k !in b;
      assert k in Only(a, b, a.Keys);
    }
  }

  lemma {:induction false} ChangedEmpty(old_: Config, new_: Config, fold: string -> string)
    ensures Changed(old_, new_, old_.Keys, fold) == map[] <==>
            forall k :: k in old_ && k in new_ ==> EqualFold(new_[k], old_[k], fold)
  {
    if k :| k in old_ && k in new_ && !EqualFold(new_[k], old_[k], fold) {
      assert k in Changed(old_, new_, old_.Keys, fold);
    }
  }

  lemma {:induction false} AgreeExact(a: Config, b: Config, fold: string -> string)
    ensures Agree(a, b, fold) <==> a.Keys == b.Keys && forall k :: k in a && k in b ==> EqualFold(b[k], a[k], fold)
  {
    if Agree(a, b, fold) {
      forall k ensures k in a <==> k in b {
        assert Alike(At(a, k), At(b, k), fold);
      }
      forall k | k in a && k in b ensures EqualFold(b[k], a[k], fold) {
        assert Alike(At(a, k), At(b, k), fold);
      }
    }
  }

  // ----- diff: choosing the parser -----

  /** A parse error leaves a nil map. */
  function Entries(p: Parsed): Config { if p.Ok? then p.entries else map[] }

  /** The format is what follows the last dot.  Two readings are compared: of the
      old text and of the new one, or for json two of the new one; .yml has no case.
      Only an error of the second reading is looked at. */
  ghost function DiffTexts(format: string, first: Parsed, second: Parsed, fold: string -> string)
    : Option<NamespaceDiff>
  {
    if format == "yaml" || format == "props" || format == "json" then
      if first.Panic? || !second.Ok? then None else Some(DiffOf(Entries(first), second.entries, fold))
    else Some(DiffOf(map[], map[], fold))
  }

  /** There is something to release exactly when the format has a case, the first
      reading does not panic, the second has an entry, and they differ by more
      than case. */
  lemma {:induction false} ReleasableExact(format: string, first: Parsed, second: Parsed, fold: string -> string)
    ensures var d := DiffTexts(format, first, second, fold);
            d.Some? && !d.value.same <==>
              && (format == "yaml" || format == "props" || format == "json")
              && !first.Panic? && second.Ok? && second.entries != map[]
              && !Agree(Entries(first), second.entries, fold)
  {
    SameExact(Entries(first), Entries(second), fold);
    SameExact(map[], map[], fold);
  }

  // ----- events and their replay -----

  datatype Event =
    | Add(key: string, current: string)
    | Remove(key: string, current: string)
    | Change(key: string, current: string, before: string)

  function Effect(e: Event): Option<string> {
    if e.Remove? then None else Some(e.current)
  }

  function Apply(m: Config, e: Event): Config {
    if e.Remove? then m - {e.key} else m[e.key := e.current]
  }

  function Replay(m: Config, events: seq<Event>): Config
    decreases |events|
  {
    if events == [] then m else Replay(Apply(m, events[0]), events[1..])
  }

  /** e tells of one added, removed or changed key. */
  predicate Tells(d: NamespaceDiff, e: Event) {
    match e
    case Add(k, current) => k in d.added && d.added[k] == current
    case Remove(k, current) => k in d.removed && d.removed[k] == current
    case Change(k, current, before) => k in d.changed && d.changed[k] == (before, current)
  }

  /** The events there are and what they carry: the new content, the old one of a key
      that is gone, and both of one that changed by more than case. */
  lemma {:induction false} TellsExact(old_: Config, new_: Config, fold: string -> string, e: Event)
    ensures Tells(DiffOf(old_, new_, fold), e) <==>
              match e
              case Add(k, current) => At(old_, k) == None && At(new_, k) == Some(current)
              case Remove(k, current) => new_ != map[] && At(old_, k) == Some(current) && At(new_, k) == None
              case Change(k, current, before) =>
                At(old_, k) == Some(before) && At(new_, k) == Some(current) && fold(current) != fold(before)
  {
  }

  /** The events of a diff in some order, each once. */
  ghost predicate Pushes(events: seq<Event>, d: NamespaceDiff) {
    (forall e :: e in events <==> Tells(d, e)) && Once(events)
  }

  ghost predicate Once(events: seq<Event>) {
    forall i, j :: 0 <= i < j < |events| ==> events[i] != events[j]
  }

  /** doPush for one client: the added, the removed and the changed keys, each map in an arbitrary order. */
  method DoPush(d: NamespaceDiff) returns (events: seq<Event>)
    ensures Pushes(events, d)
  {
    var a := SendAll(set k | k in d.added :: Add(k, d.added[k]));
    var r := SendAll(set k | k in d.removed :: Remove(k, d.removed[k]));
    var c := SendAll(set k | k in d.changed :: Change(k, d.changed[k].1, d.changed[k].0));
    assert forall e :: e in a <==> Tells(d, e) && e.Add?;
    assert forall e :: e in r <==> Tells(d, e) && e.Remove?;
    assert forall e :: e in c <==> Tells(d, e) && e.Change?;
    OnceConcat(a, r);
    OnceConcat(a + r, c);
    events := a + r + c;
  }

  lemma {:induction false} OnceConcat(a: seq<Event>, b: seq<Event>)
    requires Once(a) && Once(b) && forall e :: e in a ==> e !in b
    ensures Once(a + b)
  {
    var c := a + b;
    forall i, j | 0 <= i < j < |c| ensures c[i] != c[j] {
      assert c[i] in (if i < |a| then a else b) && c[j] in (if j < |a| then a else b);
    }
  }

  method SendAll(todo: set<Event>) returns (events: seq<Event>)
    ensures forall e :: e in events <==> e in todo
    ensures Once(events)
  {
    events := [];
    var rest := todo;
    while rest != {}
      invariant rest <= todo && forall e :: e in todo <==> e in events || e in rest
      invariant forall e :: e in events ==> e !in rest
      invariant Once(events)
      decreases rest
    {
      var e :| e in rest;
      events, rest := events + [e], rest - {e};
    }
  }

  /** What the events leave under k: the last effect on it, if any. */
  function LastOn(events: seq<Event>, k: string): Option<Option<string>> {
    if events == [] then None
    else if events[|events| - 1].key == k then Some(Effect(events[|events| - 1]))
    else LastOn(events[..|events| - 1], k)
  }

  lemma {:induction false} ReplayLast(m: Config, events: seq<Event>)
    requires events != []
    ensures Replay(m, events) == Apply(Replay(m, events[..|events| - 1]), events[|events| - 1])
    decreases |events|
  {
    if |events| > 1 {
      assert events[1..][..|events| - 2] == events[..|events| - 1][1..];
      ReplayLast(Apply(m, events[0]), events[1..]);
    }
  }

  lemma {:induction false} ReplayAt(m: Config, events: seq<Event>, k: string)
    ensures At(Replay(m, events), k) == if LastOn(events, k).Some? then LastOn(events, k).value else At(m, k)
  {
    if events != [] {
      ReplayLast(m, events);
      ReplayAt(m, events[..|events| - 1], k);
    }
  }

  lemma {:induction false} LastOnIs(events: seq<Event>, k: string, x: Option<string>)
    requires forall e :: e in events && e.key == k ==> Effect(e) == x
    ensures LastOn(events, k) == None || LastOn(events, k) == Some(x)
    ensures LastOn(events, k) == None <==> forall e :: e in events ==> e.key != k
  {
    if events != [] {
      var n := |events| - 1;
      assert forall e :: e in events <==> e in events[..n] || e == events[n];
      LastOnIs(events[..n], k, x);
    }
  }

  /** Each event of a diff is about a key that differs, and carries its new content. */
  lemma {:induction false} EventSets(e: Event, old_: Config, new_: Config, fold: string -> string)
    requires Tells(DiffOf(old_, new_, fold), e)
    ensures Effect(e) == At(new_, e.key) && !Alike(At(old_, e.key), At(new_, e.key), fold)
  {
  }

  /** Each key that differs has its event. */
  lemma {:induction false} EventFor(k: string, old_: Config, new_: Config, fold: string -> string) returns (e: Event)
    requires new_ != map[] && !Alike(At(old_, k), At(new_, k), fold)
    ensures e.key == k && Tells(DiffOf(old_, new_, fold), e)
  {
    e := if k !in old_ then Add(k, new_[k]) else if k !in new_ then Remove(k, old_[k]) else Change(k, new_[k], old_[k]);
  }

  /** A pushed diff sets exactly the keys that differ, to their new contents. */
  lemma {:induction false} PushSets(events: seq<Event>, old_: Config, new_: Config, fold: string -> string, k: string)
    requires Pushes(events, DiffOf(old_, new_, fold)) && new_ != map[]
    ensures LastOn(events, k) == if Alike(At(old_, k), At(new_, k), fold) then None else Some(At(new_, k))
  {
    var d := DiffOf(old_, new_, fold);
    LastOnIs(events, k, At(new_, k));
    if k in d.added {
      assert Add(k, d.added[k]) in events;
    } else if k in d.removed {
      assert Remove(k, d.removed[k]) in events;
    } else if k in d.changed {
      assert Change(k, d.changed[k].1, d.changed[k].0) in events;
    }
  }

  /** Each key as in the one version or as in the other. */
  ghost predicate Between(m: Config, a: Config, b: Config, fold: string -> string) {
    forall k :: Alike(At(m, k), At(a, k), fold) || Alike(At(m, k), At(b, k), fold)
  }

  /** Replayed in any order on a client anywhere between the two versions, the
      events give the new version up to case. */
  lemma {:induction false} ReplayFollows(m: Config, events: seq<Event>, old_: Config, new_: Config,
      fold: string -> string)
    requires Pushes(events, DiffOf(old_, new_, fold)) && new_ != map[] && Between(m, old_, new_, fold)
    ensures Agree(Replay(m, events), new_, fold)
  {
    forall k ensures Alike(At(Replay(m, events), k), At(new_, k), fold) {
      ReplayAt(m, events, k);
      PushSets(events, old_, new_, fold, k);
      assert Alike(At(m, k), At(old_, k), fold) || Alike(At(m, k), At(new_, k), fold);
    }
  }
}
