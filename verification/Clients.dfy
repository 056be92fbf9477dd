/** The clients that follow a namespace: what they load, the events they are sent,
    and what they hold (service/cfg/change_listener.go, service/cfg/cfg_api.go). */
module Clients {
  import opened Results
  import opened Diff
  import opened Release

  // ----- what a text is read as -----

  /** However the text is read, it gives the same entries up to case. */
  ghost predicate OneReading(c: Setting, text: string) {
    forall a, b :: c.readAs(text, a) && c.readAs(text, b) && !a.Panic? && !b.Panic? ==>
      Agree(Entries(a), Entries(b), c.fold)
  }

  ghost predicate OneReadings(c: Setting, w: World) {
    OneReading(c, "") && forall text :: text in w.staged ==> OneReading(c, text)
  }

  /** One reading of it, if it has any. */
  ghost function Flat(c: Setting, text: string): Config {
    if exists p :: c.readAs(text, p) && !p.Panic?
    then var p :| c.readAs(text, p) && !p.Panic?; Entries(p)
    else map[]
  }

  lemma {:induction false} FlatAgrees(c: Setting, text: string, p: Parsed)
    requires OneReading(c, text) && c.readAs(text, p) && !p.Panic?
    ensures Agree(Entries(p), Flat(c, text), c.fold)
  {
  }

  // ----- what a client is headed for -----

  predicate ToldOn(x: Client, k: string) {
    exists e :: e in x.told && e.key == k
  }

  /** The contents before and after the release in progress, once it is written;
      else the current content twice. */
  ghost function Older(c: Setting, w: World): Config {
    if w.phase.Live? then Flat(c, w.phase.r.cur) else Newest(c, w)
  }

  ghost function Newest(c: Setting, w: World): Config {
    if w.ns.current.Some? then Flat(c, w.ns.current.value) else map[]
  }

  /** What the client will hold under k when it has replayed its queue. */
  function Held(x: Client, k: string): Option<string> {
    At(Replay(x.config, x.queue), k)
  }

  /** A key as in the old version or in the new one; as in the new one if its event was sent. */
  predicate Heads(x: Client, k: string, held: Option<string>, before: Config, after: Config, fold: string -> string) {
    Alike(held, At(after, k), fold) || (!ToldOn(x, k) && !x.late && Alike(held, At(before, k), fold))
  }

  /** What is queued and, once loaded, what the client will hold, key by key. */
  ghost predicate Follows(x: Client, before: Config, after: Config, fold: string -> string) {
    && (forall k :: LastOn(x.queue, k).Some? ==> Heads(x, k, LastOn(x.queue, k).value, before, after, fold))
    && (x.loaded ==> forall k :: Heads(x, k, Held(x, k), before, after, fold))
  }

  /** Only events of the release in progress have been told. */
  ghost predicate ToldRight(c: Setting, w: World, x: Client) {
    w.phase.Live? ==> forall e :: e in x.told ==> Tells(Difference(c, w.phase.r), e)
  }

  ghost predicate ClientFollows(c: Setting, w: World, x: Client) {
    && Follows(x, Older(c, w), Newest(c, w), c.fold) && ToldRight(c, w, x)
    && (w.ns.current == None ==> x.queue == [] && !x.loaded)
  }

  /** The contents were read as they may be, and there is something to release. */
  ghost predicate RightlyRead(c: Setting, r: Going) {
    && r.after != map[]
    && Agree(r.before, Flat(c, r.cur), c.fold) && Agree(r.after, Flat(c, r.next), c.fold)
  }

  ghost predicate RightPhase(c: Setting, w: World) {
    && (w.phase.Decided? || w.phase.Logged? ==> w.ns.current == Some(w.phase.r.cur) && RightlyRead(c, w.phase.r))
    && (w.phase.Live? ==> w.ns.current == Some(w.phase.r.next) && RightlyRead(c, w.phase.r))
    && (w.phase == Told ==> w.ns.current.Some?)
  }

  ghost predicate AllFollow(c: Setting, w: World) {
    RightPhase(c, w) && forall id :: id in w.clients ==> ClientFollows(c, w, w.clients[id])
  }

  // ----- events one by one -----

  lemma {:induction false} LastOnConcat(a: seq<Event>, b: seq<Event>, k: string)
    ensures LastOn(a + b, k) == if LastOn(b, k).Some? then LastOn(b, k) else LastOn(a, k)
    decreases |b|
  {
    if b == [] {
      assert a + b == a;
    } else {
      assert (a + b)[..|a + b| - 1] == a + b[..|b| - 1];
      LastOnConcat(a, b[..|b| - 1], k);
    }
  }

  lemma {:induction false} ReplayConcat(m: Config, a: seq<Event>, b: seq<Event>)
    ensures Replay(m, a + b) == Replay(Replay(m, a), b)
    decreases |a|
  {
    if a == [] {
      assert a + b == b;
    } else {
      assert (a + b)[1..] == a[1..] + b;
      ReplayConcat(Apply(m, a[0]), a[1..], b);
    }
  }

  /** What one event more changes: the last event, the told keys and the content at its key. */
  lemma {:induction false} SentAt(x: Client, e: Event, k: string)
    ensures var y := Sent(x, e);
            && LastOn(y.queue, k) == (if k == e.key then Some(Effect(e)) else LastOn(x.queue, k))
            && (ToldOn(y, k) <==> ToldOn(x, k) || k == e.key)
            && Held(y, k) == if k == e.key then Effect(e) else Held(x, k)
  {
    hide Effect;
    var y := Sent(x, e);
    ReplayConcat(x.config, x.queue, [e]);
    assert y.queue[..|x.queue|] == x.queue;
    assert e in y.told;
    ReplayOne(Replay(x.config, x.queue), e, k);
  }

  lemma {:induction false} ReplayOne(m: Config, e: Event, k: string)
    ensures At(Replay(m, [e]), k) == if k == e.key then Effect(e) else At(m, k)
  {
    assert Replay(m, [e]) == Replay(Apply(m, e), []);
  }

  lemma {:induction false} DeliveredHeld(x: Client)
    requires x.queue != []
    ensures Replay(Delivered(x).config, Delivered(x).queue) == Replay(x.config, x.queue)
  {
  }

  // ----- what each step keeps -----

  /** One event more: its key heads for the new content, the others as before. */
  lemma {:induction false} SendFollows(x: Client, e: Event, before: Config, after: Config, fold: string -> string)
    requires Follows(x, before, after, fold) && Alike(Effect(e), At(after, e.key), fold)
    ensures Follows(Sent(x, e), before, after, fold)
  {
    hide Effect, Held, LastOn, ToldOn, Alike;
    var y := Sent(x, e);
    forall k | LastOn(y.queue, k).Some? ensures Heads(y, k, LastOn(y.queue, k).value, before, after, fold) {
      SentAt(x, e, k);
    }
    forall k | x.loaded ensures Heads(y, k, Held(y, k), before, after, fold) {
      SentAt(x, e, k);
    }
  }

  /** With every event sent, or connected since the write, a client is headed for the new version alone. */
  lemma {:induction false} AllTold(c: Setting, x: Client, r: Going)
    requires RightlyRead(c, r) && Follows(x, Flat(c, r.cur), Flat(c, r.next), c.fold)
    requires x.late || ToldAll(x, Difference(c, r))
    ensures Follows(x, Flat(c, r.next), Flat(c, r.next), c.fold)
  {
    hide Flat;
    var old_, new_ := Flat(c, r.cur), Flat(c, r.next);
    forall k, held | Heads(x, k, held, old_, new_, c.fold) ensures Heads(x, k, held, new_, new_, c.fold) {
      if !Alike(At(r.before, k), At(r.after, k), c.fold) && !x.late {
        var e := EventFor(k, r.before, r.after, c.fold);
        assert ToldOn(x, k);
      } else {
        assert Alike(At(r.before, k), At(old_, k), c.fold) && Alike(At(r.after, k), At(new_, k), c.fold);
      }
    }
  }

  /** Writing a new version: what headed for the old one may still hold it. */
  lemma {:induction false} WriteFollows(x: Client, old_: Config, new_: Config, fold: string -> string)
    requires Follows(x, old_, old_, fold)
    ensures Follows(x.(told := {}, late := false), old_, new_, fold)
  {
    var y := x.(told := {}, late := false);
    forall k | LastOn(y.queue, k).Some? ensures Heads(y, k, LastOn(y.queue, k).value, old_, new_, fold) {
      assert Heads(x, k, LastOn(x.queue, k).value, old_, old_, fold);
    }
    forall k | y.loaded ensures Heads(y, k, Held(y, k), old_, new_, fold) {
      assert Heads(x, k, Held(x, k), old_, old_, fold);
    }
  }

  lemma {:induction false} SameTold(x: Client, y: Client, k: string)
    requires x.told == y.told
    ensures ToldOn(x, k) == ToldOn(y, k)
  {
  }

  /** Loading overtakes the queue without harm. */
  lemma {:induction false} LoadFollows(x: Client, m: Config, before: Config, after: Config, fold: string -> string)
    requires Follows(x, before, after, fold) && Agree(m, after, fold)
    ensures Follows(x.(loaded := true, config := m), before, after, fold)
  {
    hide LastOn, Replay, ToldOn, Alike;
    var y := x.(loaded := true, config := m);
    forall k | LastOn(y.queue, k).Some? ensures Heads(y, k, LastOn(y.queue, k).value, before, after, fold) {
      assert Heads(x, k, LastOn(x.queue, k).value, before, after, fold);
      SameTold(x, y, k);
    }
    forall k ensures Heads(y, k, Held(y, k), before, after, fold) {
      ReplayAt(m, x.queue, k);
      SameTold(x, y, k);
      assert Alike(At(m, k), At(after, k), fold);
    }
  }

  lemma {:induction false} DeliverFollows(x: Client, before: Config, after: Config, fold: string -> string)
    requires Follows(x, before, after, fold) && x.queue != []
    ensures Follows(Delivered(x), before, after, fold)
  {
    var y := Delivered(x);
    assert x.queue == [x.queue[0]] + x.queue[1..];
    forall k | LastOn(y.queue, k).Some? ensures Heads(y, k, LastOn(y.queue, k).value, before, after, fold) {
      LastOnConcat([x.queue[0]], x.queue[1..], k);
      assert Heads(x, k, LastOn(x.queue, k).value, before, after, fold);
    }
    DeliveredHeld(x);
    forall k | x.loaded ensures Heads(y, k, Held(y, k), before, after, fold) {
      assert Heads(x, k, Held(x, k), before, after, fold);
    }
  }

  lemma {:induction false} NewFollows(x: Client, before: Config, after: Config, fold: string -> string)
    requires x.queue == [] && !x.loaded
    ensures Follows(x, before, after, fold)
  {
  }

  lemma {:induction false} FollowStep(c: Setting, w: World, s: Step)
    requires Staged(w) && OneReadings(c, w) && AllFollow(c, w) && Enabled(c, w, s) && !(s.Crash? && w.phase.Live?)
    ensures AllFollow(c, Next(c, w, s))
  {
    hide Pending, Flat, ClientFollows, RightPhase;
    PhaseStep(c, w, s);
    var w' := Next(c, w, s);
    forall id | id in w'.clients ensures ClientFollows(c, w', w'.clients[id]) {
      ClientStep(c, w, s, id);
    }
  }

  lemma {:induction false} PhaseStep(c: Setting, w: World, s: Step)
    requires Staged(w) && OneReadings(c, w) && RightPhase(c, w) && Enabled(c, w, s) && !(s.Crash? && w.phase.Live?)
    ensures RightPhase(c, Next(c, w, s))
  {
    hide Flat, OneReading, Agree;
    if s.Begin? && w.ns.current.Some? && w.ns.future.Some? && Pending(s.a, s.b, c.fold).Some? {
      SameExact(Entries(s.a), Entries(s.b), c.fold);
      FlatAgrees(c, w.ns.current.value, s.a);
      FlatAgrees(c, w.ns.future.value, s.b);
    }
  }

  lemma {:induction false} ClientStep(c: Setting, w: World, s: Step, id: string)
    requires Staged(w) && OneReadings(c, w) && AllFollow(c, w) && Enabled(c, w, s) && !(s.Crash? && w.phase.Live?)
    requires id in Next(c, w, s).clients
    ensures ClientFollows(c, Next(c, w, s), Next(c, w, s).clients[id])
  {
    hide Pending, Flat, Heads, Follows, OneReading;
    var before, after := Older(c, w), Newest(c, w);
    if id in w.clients {
      assert ClientFollows(c, w, w.clients[id]);
    }
    match s
    case Send(i, e) =>
      SendRight(c, w.phase.r, e);
      SendFollows(w.clients[i], e, before, after, c.fold);
    case PushDone =>
      AllTold(c, w.clients[id], w.phase.r);
    case Write =>
      WriteFollows(w.clients[id], before, Flat(c, w.phase.r.next), c.fold);
    case Load(i, p) =>
      FlatAgrees(c, w.ns.current.value, p);
      LoadFollows(w.clients[i], Entries(p), before, after, c.fold);
    case Deliver(i) =>
      DeliverFollows(w.clients[i], before, after, c.fold);
    case Create =>
      if w.ns.current == None {
        NewFollows(w.clients[id], Older(c, Next(c, w, s)), Newest(c, Next(c, w, s)), c.fold);
      }
    case Connect(i) =>
      NewFollows(Next(c, w, s).clients[i], before, after, c.fold);
    case _ =>
  }

  lemma {:induction false} SendRight(c: Setting, r: Going, e: Event)
    requires RightlyRead(c, r) && Tells(Difference(c, r), e)
    ensures Alike(Effect(e), At(Flat(c, r.next), e.key), c.fold)
  {
    hide Flat;
    EventSets(e, r.before, r.after, c.fold);
    assert Alike(At(r.after, e.key), At(Flat(c, r.next), e.key), c.fold);
  }

  // ----- over whole runs -----

  /** No crash falls between the current-write and the end of the push. */
  ghost predicate PushesReached(c: Setting, steps: seq<Step>) {
    forall n :: 0 <= n < |steps| && steps[n].Crash? ==> !Run(c, steps[..n]).phase.Live?
  }

  lemma {:induction false} StagedGrows(c: Setting, w: World, s: Step)
    ensures w.staged <= Next(c, w, s).staged
  {
  }

  /** Over every such run, with the events sent one at a time among everything
      else that happens, if each content that was staged has one reading: a loaded
      client that replays its queue will hold, key by key, the current content up to
      case, or, while the push goes on and only on keys whose event it has not been
      sent, the content before. */
  lemma {:induction false} ClientsFollow(c: Setting, steps: seq<Step>)
    requires Possible(c, steps) && PushesReached(c, steps) && OneReadings(c, Run(c, steps))
    ensures AllFollow(c, Run(c, steps))
  {
    hide Next, Enabled, AllFollow, OneReading;
    if steps != [] {
      var n := |steps| - 1;
      PossibleInit(c, steps);
      assert forall m :: 0 <= m < n ==> steps[..n][..m] == steps[..m];
      StagedGrows(c, Run(c, steps[..n]), steps[n]);
      HistoryKeeps(c, steps[..n]);
      ClientsFollow(c, steps[..n]);
      FollowStep(c, Run(c, steps[..n]), steps[n]);
    } else {
      StartFollows(c);
    }
  }

  lemma {:induction false} StartFollows(c: Setting)
    ensures AllFollow(c, START)
  {
  }

  /** A loaded client with nothing queued, while no push goes on. */
  predicate Drained(w: World, id: string) {
    id in w.clients && w.clients[id].loaded && w.clients[id].queue == [] && !w.phase.Live?
  }

  lemma {:induction false} DrainedClientHoldsCurrent(c: Setting, steps: seq<Step>, id: string, p: Parsed)
    requires Possible(c, steps) && PushesReached(c, steps) && OneReadings(c, Run(c, steps))
        && Drained(Run(c, steps), id)
    ensures var w := Run(c, steps);
            && w.ns.current.Some?
            && (c.readAs(w.ns.current.value, p) && !p.Panic? ==> Agree(w.clients[id].config, Entries(p), c.fold))
  {
    hide Next, Enabled, Flat;
    ClientsFollow(c, steps);
    HistoryKeeps(c, steps);
    var w := Run(c, steps);
    var x := w.clients[id];
    assert ClientFollows(c, w, x);
    assert Replay(x.config, []) == x.config;
    forall k ensures Alike(At(x.config, k), At(Newest(c, w), k), c.fold) {
      assert Heads(x, k, Held(x, k), Older(c, w), Newest(c, w), c.fold);
    }
    if c.readAs(w.ns.current.value, p) && !p.Panic? {
      FlatAgrees(c, w.ns.current.value, p);
      AgreeBoth(x.config, Entries(p), Newest(c, w), c.fold);
    }
  }

  lemma {:induction false} AgreeBoth(a: Config, b: Config, m: Config, fold: string -> string)
    requires Agree(a, m, fold) && Agree(b, m, fold)
    ensures Agree(a, b, fold)
  {
    forall k ensures Alike(At(a, k), At(b, k), fold) {
      assert Alike(At(a, k), At(m, k), fold) && Alike(At(b, k), At(m, k), fold);
    }
  }

  ghost predicate StagesOnly(steps: seq<Step>, texts: iset<string>) {
    forall n :: 0 <= n < |steps| && steps[n].Stage? ==> steps[n].content in texts
  }

  /** In every run that stages no other contents and reaches its pushes, each drained
      client holds what the current content is read as. */
  ghost predicate AlwaysCurrent(c: Setting, texts: iset<string>) {
    forall steps, id, p ::
      Possible(c, steps) && PushesReached(c, steps) && StagesOnly(steps, texts) && Drained(Run(c, steps), id)
      && Run(c, steps).ns.current.Some? && c.readAs(Run(c, steps).ns.current.value, p) && !p.Panic?
      ==> Agree(Run(c, steps).clients[id].config, Entries(p), c.fold)
  }

  lemma {:induction false} StagedWithin(c: Setting, steps: seq<Step>, texts: iset<string>)
    requires StagesOnly(steps, texts)
    ensures forall text :: text in Run(c, steps).staged ==> text in texts
  {
    if steps != [] {
      var init := steps[..|steps| - 1];
      assert forall n :: 0 <= n < |init| ==> init[n] == steps[n];
      StagedWithin(c, init, texts);
    }
  }

  /** Clients follow exactly when every content has one reading, given that a new
      namespace's empty content is read as no entries. */
  lemma {:induction false} ClientsFollowExact(c: Setting, texts: iset<string>)
    requires exists p :: c.readAs("", p) && !p.Panic?
    requires forall p :: c.readAs("", p) && !p.Panic? ==> Entries(p) == map[]
    ensures AlwaysCurrent(c, texts) <==> forall text :: text in texts ==> OneReading(c, text)
  {
    hide OneReading, Possible, PushesReached, Run, Agree;
    if forall text :: text in texts ==> OneReading(c, text) {
      forall steps, id, p |
        Possible(c, steps) && PushesReached(c, steps) && StagesOnly(steps, texts) && Drained(Run(c, steps), id)
        && Run(c, steps).ns.current.Some? && c.readAs(Run(c, steps).ns.current.value, p) && !p.Panic?
        ensures Agree(Run(c, steps).clients[id].config, Entries(p), c.fold)
      {
        EmptyHasOne(c);
        StagedWithin(c, steps, texts);
        DrainedClientHoldsCurrent(c, steps, id, p);
      }
    }
    if text :| text in texts && !OneReading(c, text) {
      UnluckyLoad(c, texts, text);
    }
  }

  lemma {:induction false} EmptyHasOne(c: Setting)
    requires forall p :: c.readAs("", p) && !p.Panic? ==> Entries(p) == map[]
    ensures OneReading(c, "")
  {
  }

  /** The run in which a new namespace's first content is released, then a client
      connects and loads it. */
  function FirstRelease(text: string, a: Parsed, b: Parsed, p: Parsed): seq<Step> {
    [Create, Stage(text), Begin(a, b), Record(0), Write, PushDone, DropStaged(false), Connect("x"), Load("x", p)]
  }

  lemma {:induction false} FirstReleaseRuns(c: Setting, text: string, a: Parsed, b: Parsed, p: Parsed)
    requires c.readAs("", a) && Entries(a) == map[] && !a.Panic? && c.readAs(text, b) && b.Ok? && b.entries != map[]
    requires c.readAs(text, p) && !p.Panic?
    ensures Possible(c, FirstRelease(text, a, b, p))
    ensures var w := Run(c, FirstRelease(text, a, b, p));
            && Drained(w, "x") && w.ns.current == Some(text) && w.clients["x"].config == Entries(p) && w.phase == Idle
  {
    hide Pending, AllSends, RunOn, PossibleOn, Run, Possible, Next, Drained;
    var w0 := Next(c, Next(c, START, Create), Stage(text));
    StagedFirst(c, text);
    FirstPending(a, b, c.fold);
    HandlerIsSteps(c, w0, a, b, 0, false, [], map[]);
    NoSends();
    var writes, last := [Begin(a, b), Record(0), Write], [PushDone, DropStaged(false)];
    var load := [Connect("x"), Load("x", p)];
    var steps := writes + AllSends([], map[]) + last;
    var w1 := RunOn(c, w0, steps);
    LoadsFirst(c, w1, p);
    RunOnConcat(c, w0, steps, load);
    RunOnConcat(c, START, [Create, Stage(text)], steps + load);
    assert [Create, Stage(text)] + (steps + load) == FirstRelease(text, a, b, p);
    FromStart(c, FirstRelease(text, a, b, p));
  }

  lemma {:induction false} FirstPending(a: Parsed, b: Parsed, fold: string -> string)
    requires Entries(a) == map[] && !a.Panic? && b.Ok? && b.entries != map[]
    ensures Pending(a, b, fold).Some?
  {
    SameExact(Entries(a), b.entries, fold);
    var k :| k in b.entries;
    assert !Alike(At(Entries(a), k), At(b.entries, k), fold);
  }

  lemma {:induction false} NoSends()
    ensures AllSends([], map[]) == []
  {
  }

  lemma {:induction false} LoadNext(c: Setting, w: World, p: Parsed)
    requires w.phase == Idle && w.ns.current.Some? && c.readAs(w.ns.current.value, p) && !p.Panic?
    ensures var w1 := Next(c, w, Connect("x"));
            var w2 := Next(c, w1, Load("x", p));
            && Enabled(c, w, Connect("x")) && Enabled(c, w1, Load("x", p))
            && w2.ns == w.ns && w2.phase == Idle && Drained(w2, "x") && w2.clients["x"].config == Entries(p)
  {
  }

  lemma {:induction false} LoadsFirst(c: Setting, w: World, p: Parsed)
    requires w.phase == Idle && w.ns.current.Some? && c.readAs(w.ns.current.value, p) && !p.Panic?
    ensures var steps, w' := [Connect("x"), Load("x", p)], RunOn(c, w, [Connect("x"), Load("x", p)]);
            && PossibleOn(c, w, steps) && w'.ns == w.ns && w'.phase == Idle
            && Drained(w', "x") && w'.clients["x"].config == Entries(p)
  {
    hide RunOn, PossibleOn, Next, Enabled;
    LoadNext(c, w, p);
    NoSteps(c, w);
    RunOnLast(c, w, [], Connect("x"));
    RunOnLast(c, w, [Connect("x")], Load("x", p));
    assert [] + [Connect("x")] == [Connect("x")] && [Connect("x")] + [Load("x", p)] == [Connect("x"), Load("x", p)];
  }

  /** A client that loads one reading of a released content does not hold the other. */
  lemma {:induction false} UnluckyLoad(c: Setting, texts: iset<string>, text: string)
    requires exists p :: c.readAs("", p) && !p.Panic?
    requires forall p :: c.readAs("", p) && !p.Panic? ==> Entries(p) == map[]
    requires text in texts && !OneReading(c, text)
    ensures !AlwaysCurrent(c, texts)
  {
    hide Run, Possible, Agree;
    var a :| c.readAs("", a) && !a.Panic?;
    var p, q :| c.readAs(text, p) && c.readAs(text, q) && !p.Panic? && !q.Panic?
        && !Agree(Entries(p), Entries(q), c.fold);
    AgreeSelf(map[], c.fold);
    var b := if Entries(p) != map[] then p else q;
    var steps := FirstRelease(text, a, b, p);
    FirstReleaseRuns(c, text, a, b, p);
    assert PushesReached(c, steps) && StagesOnly(steps, texts);
    assert !Agree(Run(c, steps).clients["x"].config, Entries(q), c.fold);
  }

  lemma {:induction false} AgreeSelf(m: Config, fold: string -> string)
    ensures Agree(m, m, fold)
  {
  }

  // ----- a crash before the push is over -----

  /** The step sends the client the key's event, or loads for it while no event on
      the key is queued. */
  predicate Catches(w: World, s: Step, id: string, k: string) {
    || (s.Send? && s.id == id && s.event.key == k)
    || (s.Load? && s.id == id && id in w.clients && LastOn(w.clients[id].queue, k) == None)
  }

  ghost predicate Caught(c: Setting, w: World, steps: seq<Step>, id: string, k: string) {
    exists n :: 0 <= n < |steps| && Catches(RunOn(c, w, steps[..n]), steps[n], id, k)
  }

  /** Neither the end of the push nor a crash. */
  predicate Pushing(steps: seq<Step>) {
    forall n :: 0 <= n < |steps| ==> !steps[n].PushDone? && !steps[n].Crash?
  }

  /** What the client has queued under the key and, once loaded, will hold there. */
  predicate SlotIs(x: Client, k: string, v: Option<string>, fold: string -> string) {
    && (LastOn(x.queue, k).Some? ==> Alike(LastOn(x.queue, k).value, v, fold))
    && (x.loaded ==> Alike(Held(x, k), v, fold))
  }

  /** Caught up, the slot is as after the release; not caught up, it is as before,
      and a client that has connected since has nothing there. */
  predicate Tracks(r: Going, x: Client, k: string, caught: bool, fold: string -> string) {
    if caught then SlotIs(x, k, At(r.after, k), fold)
    else if x.late then !x.loaded && LastOn(x.queue, k) == None
    else x.loaded && SlotIs(x, k, At(r.before, k), fold)
  }

  /** The state of a push: the new content is current and any reading of it is the
      one that was released, up to case. */
  ghost predicate PushState(c: Setting, w: World, r: Going) {
    && w.phase == Live(r) && w.ns.current == Some(r.next)
    && forall p :: c.readAs(r.next, p) && !p.Panic? ==> Agree(Entries(p), r.after, c.fold)
  }

  lemma {:induction false} SendTracks(r: Going, x: Client, e: Event, k: string, caught: bool, fold: string -> string)
    requires Tells(DiffOf(r.before, r.after, fold), e) && Tracks(r, x, k, caught, fold)
    ensures Tracks(r, Sent(x, e), k, caught || e.key == k, fold)
  {
    hide Effect, Held, LastOn, Tells;
    EventSets(e, r.before, r.after, fold);
    SentAt(x, e, k);
  }

  lemma {:induction false} LoadTracks(r: Going, x: Client, m: Config, k: string, caught: bool, fold: string -> string)
    requires Agree(m, r.after, fold) && Tracks(r, x, k, caught, fold)
    ensures Tracks(r, x.(loaded := true, config := m), k, caught || LastOn(x.queue, k) == None, fold)
  {
    hide LastOn, Replay;
    ReplayAt(m, x.queue, k);
    assert Alike(At(m, k), At(r.after, k), fold);
  }

  lemma {:induction false} DeliverTracks(r: Going, x: Client, k: string, caught: bool, fold: string -> string)
    requires x.queue != [] && Tracks(r, x, k, caught, fold)
    ensures Tracks(r, Delivered(x), k, caught, fold)
  {
    DeliveredHeld(x);
    assert x.queue == [x.queue[0]] + x.queue[1..];
    LastOnConcat([x.queue[0]], x.queue[1..], k);
    hide LastOn, Apply;
  }

  lemma {:induction false} TracksStep(c: Setting, w: World, s: Step, r: Going, id: string, k: string, caught: bool)
    requires PushState(c, w, r) && Enabled(c, w, s) && !s.PushDone? && !s.Crash?
    requires id in w.clients ==> Tracks(r, w.clients[id], k, caught, c.fold)
    ensures var w' := Next(c, w, s);
            && PushState(c, w', r)
            && (id in w'.clients ==> Tracks(r, w'.clients[id], k, caught || Catches(w, s, id, k), c.fold))
  {
    hide Tracks, Pending, LastOn, Agree, Tells;
    match s
    case Send(i, e) =>
      if i == id {
        SendTracks(r, w.clients[id], e, k, caught, c.fold);
      }
    case Load(i, p) =>
      if i == id {
        LoadTracks(r, w.clients[id], Entries(p), k, caught, c.fold);
      }
    case Deliver(i) =>
      if i == id {
        DeliverTracks(r, w.clients[id], k, caught, c.fold);
      }
    case Connect(i) =>
      NewTracks(r, Client(false, map[], [], {}, true), k, caught, c.fold);
    case _ =>
  }

  lemma {:induction false} NewTracks(r: Going, x: Client, k: string, caught: bool, fold: string -> string)
    requires x.late && !x.loaded && x.queue == []
    ensures Tracks(r, x, k, caught, fold)
  {
  }

  lemma {:induction false} TracksRun(c: Setting, w: World, steps: seq<Step>, r: Going, id: string, k: string)
    requires PushState(c, w, r) && PossibleOn(c, w, steps) && Pushing(steps)
    requires id in w.clients && Tracks(r, w.clients[id], k, false, c.fold)
    ensures var w' := RunOn(c, w, steps);
            && PushState(c, w', r)
            && (id in w'.clients ==> Tracks(r, w'.clients[id], k, Caught(c, w, steps, id, k), c.fold))
  {
    hide Next, Enabled, PossibleOn, RunOn, PushState, Tracks, Catches;
    if steps == [] {
      NoSteps(c, w);
    } else {
      var init, s := steps[..|steps| - 1], steps[|steps| - 1];
      assert steps == init + [s];
      assert forall n :: 0 <= n < |init| ==> init[..n] == steps[..n] && init[n] == steps[n];
      RunOnLast(c, w, init, s);
      TracksRun(c, w, init, r, id, k);
      TracksStep(c, RunOn(c, w, init), s, r, id, k, Caught(c, w, init, id, k));
      CaughtLast(c, w, steps, id, k);
    }
  }

  lemma {:induction false} CaughtLast(c: Setting, w: World, steps: seq<Step>, id: string, k: string)
    requires steps != []
    ensures var n := |steps| - 1;
            Caught(c, w, steps, id, k)
            <==> Caught(c, w, steps[..n], id, k) || Catches(RunOn(c, w, steps[..n]), steps[n], id, k)
  {
    hide RunOn, Catches;
    var init := steps[..|steps| - 1];
    assert forall n :: 0 <= n < |init| ==> init[..n] == steps[..n] && init[n] == steps[n];
  }

  /** What a loaded client holds as the new version is written. */
  lemma {:induction false} TracksWrite(c: Setting, w: World, id: string, k: string)
    requires AllFollow(c, w) && w.phase.Logged? && OneReading(c, w.phase.r.next)
    requires id in w.clients && w.clients[id].loaded
    ensures var w' := Next(c, w, Write);
            PushState(c, w', w.phase.r) && Tracks(w.phase.r, w'.clients[id], k, false, c.fold)
  {
    hide Flat;
    var r, x := w.phase.r, w.clients[id];
    assert ClientFollows(c, w, x);
    assert Alike(At(r.before, k), At(Flat(c, r.cur), k), c.fold);
    assert Heads(x, k, Held(x, k), Older(c, w), Newest(c, w), c.fold);
    if LastOn(x.queue, k).Some? {
      assert Heads(x, k, LastOn(x.queue, k).value, Older(c, w), Newest(c, w), c.fold);
    }
    forall p | c.readAs(r.next, p) && !p.Panic? ensures Agree(Entries(p), r.after, c.fold) {
      FlatAgrees(c, r.next, p);
      AgreeBoth(Entries(p), r.after, Flat(c, r.next), c.fold);
    }
  }

  /** A crash while the push goes on, in any run: a client loaded at the write and
      loaded still will hold the new content under a key exactly when the contents
      agree there, or since the write it was sent the key's event, or loaded with no
      event on the key queued. */
  lemma {:induction false} CrashBeforePushExact(c: Setting, before: seq<Step>, steps: seq<Step>, id: string, k: string)
    requires Possible(c, before) && PushesReached(c, before) && OneReadings(c, Run(c, before))
    requires var w := Run(c, before); w.phase.Logged? && id in w.clients && w.clients[id].loaded
    requires var w1 := Next(c, Run(c, before), Write);
             && PossibleOn(c, w1, steps) && Pushing(steps)
             && id in RunOn(c, w1, steps).clients && RunOn(c, w1, steps).clients[id].loaded
    ensures var r, w1 := Run(c, before).phase.r, Next(c, Run(c, before), Write);
            var w2 := Next(c, RunOn(c, w1, steps), Crash);
            && w2.phase == Idle && w2.ns.current == Some(r.next)
            && (Alike(Held(w2.clients[id], k), At(r.after, k), c.fold) <==>
                  Alike(At(r.before, k), At(r.after, k), c.fold) || Caught(c, w1, steps, id, k))
  {
    hide RunOn, PossibleOn, Caught, Run, Held, LastOn, Flat;
    var w := Run(c, before);
    ClientsFollow(c, before);
    HistoryKeeps(c, before);
    TracksWrite(c, w, id, k);
    TracksRun(c, Next(c, w, Write), steps, w.phase.r, id, k);
  }

  /** A run that leaves a client behind: it holds the content released first, and the
      next release crashes as soon as it is current. */
  lemma {:induction false} LeftBehind(c: Setting, text: string, a: Parsed, b: Parsed, p: Parsed,
      later: string, q: Parsed)
    requires c.readAs("", a) && Entries(a) == map[] && !a.Panic? && c.readAs(text, b) && b.Ok? && b.entries != map[]
    requires c.readAs(text, p) && c.readAs(later, q) && Pending(p, q, c.fold).Some?
    ensures var steps := FirstRelease(text, a, b, p) + [Stage(later), Begin(p, q), Record(1), Write, Crash];
            var w := Run(c, steps);
            && Possible(c, steps) && w.phase == Idle && w.ns.current == Some(later)
            && Drained(w, "x") && w.clients["x"].config == Entries(p) && !Agree(Entries(p), q.entries, c.fold)
  {
    hide Pending, RunOn, PossibleOn, Run, Possible, Next, Enabled, Agree, FirstRelease;
    var first, rest := FirstRelease(text, a, b, p), [Begin(p, q), Record(1), Write];
    PendingExact(p, q, c.fold);
    FirstReleaseRuns(c, text, a, b, p);
    var w0 := Run(c, first);
    FromStart(c, first);
    NoSteps(c, w0);
    RunOnLast(c, w0, [], Stage(later));
    StageNext(c, w0, later);
    var w1 := Next(c, w0, Stage(later));
    var w3 := WritesRun(c, w1, p, q, 1, false);
    CrashNext(c, w3);
    RunOnLast(c, w1, rest, Crash);
    assert [] + [Stage(later)] == [Stage(later)];
    RunOnConcat(c, w0, [Stage(later)], rest + [Crash]);
    RunOnConcat(c, START, first, [Stage(later)] + (rest + [Crash]));
    var steps := first + [Stage(later), Begin(p, q), Record(1), Write, Crash];
    assert [Stage(later)] + (rest + [Crash]) == [Stage(later), Begin(p, q), Record(1), Write, Crash];
    FromStart(c, steps);
  }

  /** The step is not one that loads for this client, connects it or drops it. */
  predicate LeavesClient(s: Step, id: string) {
    !(s.Load? && s.id == id) && !(s.Connect? && s.id == id) && !(s.Leave? && s.id == id)
  }

  /** What it then holds under a key stays, crashes and releases or not, until it
      loads, or connects anew, or a release is pushed whose contents differ there. */
  lemma {:induction false} StaysBehind(c: Setting, w: World, steps: seq<Step>, id: string, k: string)
    requires id in w.clients && PossibleOn(c, w, steps) && forall n :: 0 <= n < |steps| ==> LeavesClient(steps[n], id)
    requires forall n :: 0 <= n < |steps| && RunOn(c, w, steps[..n]).phase.Live? ==>
               var r := RunOn(c, w, steps[..n]).phase.r; Alike(At(r.before, k), At(r.after, k), c.fold)
    ensures var w' := RunOn(c, w, steps);
            id in w'.clients && w'.clients[id].loaded == w.clients[id].loaded
                && Held(w'.clients[id], k) == Held(w.clients[id], k)
  {
    hide Next, Enabled, PossibleOn, RunOn, Held, Alike;
    if steps == [] {
      NoSteps(c, w);
    } else {
      var init, s := steps[..|steps| - 1], steps[|steps| - 1];
      assert steps == init + [s];
      assert forall n :: 0 <= n < |init| ==> init[..n] == steps[..n] && init[n] == steps[n];
      RunOnLast(c, w, init, s);
      StaysBehind(c, w, init, id, k);
      HeldStays(c, RunOn(c, w, init), s, id, k);
    }
  }

  lemma {:induction false} HeldStays(c: Setting, w: World, s: Step, id: string, k: string)
    requires id in w.clients && Enabled(c, w, s) && LeavesClient(s, id)
    requires w.phase.Live? ==> Alike(At(w.phase.r.before, k), At(w.phase.r.after, k), c.fold)
    ensures var w' := Next(c, w, s);
            id in w'.clients && w'.clients[id].loaded == w.clients[id].loaded
                && Held(w'.clients[id], k) == Held(w.clients[id], k)
  {
    hide Pending, Apply;
    if s.Send? && s.id == id {
      EventSets(s.event, w.phase.r.before, w.phase.r.after, c.fold);
      SentAt(w.clients[id], s.event, k);
    } else if s.Deliver? && s.id == id {
      DeliveredHeld(w.clients[id]);
    }
  }
}
