/** One namespace's life: staging, releasing in separate store writes with a
    crash possible between any two, and the clients that follow it
    (service/cfg/cfg_admin.go, service/cfg/change_listener.go, service/cfg/cfg_api.go). */
module Release {
  import opened Results
  import opened Diff

  /** The three groups of store keys of one namespace. */
  datatype Namespace = Namespace(current: Option<string>, future: Option<string>, history: map<int, string>)

  /** What does not change: case folding, and what a text of the namespace's
      format (yaml or props) may be read as.  One text may be read differently each
      time, since the order in which its maps are iterated can matter. */
  datatype Setting = Setting(readAs: (string, Parsed) -> bool, fold: string -> string)

  /** The difference that is pushed, for a reading of the current content and one of
      the staged content; none if there is nothing to release. */
  ghost function Pending(a: Parsed, b: Parsed, fold: string -> string): Option<NamespaceDiff> {
    if a.Panic? || !b.Ok? then None
    else
      var d := DiffOf(Entries(a), b.entries, fold);
      if d.same then None else Some(d)
  }

  /** There is something to release exactly when both contents can be read, the staged
      one has an entry, and they differ by more than case. */
  lemma {:induction false} PendingExact(a: Parsed, b: Parsed, fold: string -> string)
    ensures Pending(a, b, fold).Some? <==>
              !a.Panic? && b.Ok? && b.entries != map[] && !Agree(Entries(a), b.entries, fold)
    ensures Pending(a, b, fold).Some? ==> Pending(a, b, fold).value == DiffOf(Entries(a), b.entries, fold)
  {
    SameExact(Entries(a), Entries(b), fold);
  }

  // ----- releaseNamespace as a handler -----

  /** How far a release got before it crashed or failed. */
  datatype Progress = Refused | Compared | Recorded | Written | Done

  /** The stored keys of one namespace, changed in place by the handlers. */
  class ConfigStore {
    var ns: Namespace

    constructor ()
      ensures ns == Namespace(None, None, map[])
    {
      ns := Namespace(None, None, map[]);
    }

    method CreateNamespace() returns (ok: bool)
      modifies this
      ensures ok <==> old(ns.current) == None
      ensures ns == if ok then old(ns).(current := Some("")) else old(ns)
      ensures forall c, w: World :: w.ns == old(ns) ==> Next(c, w, Create).ns == ns
    {
      ok := ns.current == None;
      if ok {
        ns := ns.(current := Some(""));
      }
    }

    method ChangeNamespaceContent(content: string) returns (ok: bool)
      modifies this
      ensures ok <==> old(ns.current).Some?
      ensures ns == if ok then old(ns).(future := Some(content)) else old(ns)
      ensures forall c, w: World :: w.ns == old(ns) ==> Next(c, w, Stage(content)).ns == ns
    {
      ok := ns.current.Some?;
      if ok {
        ns := ns.(future := Some(content));
      }
    }

    /** Runs at clock second `now` up to `until`, with the current content read as a
        and the staged one as b; `deletes` says whether the last step's delete takes
        effect in the store. */
    method ReleaseNamespace(a: Parsed, b: Parsed, fold: string -> string, now: int, until: Progress, deletes: bool)
      returns (reached: Progress, pushed: seq<Event>)
      modifies this
      ensures reached == Refused <==>
                || old(ns.current) == None || old(ns.future) == None
                || a.Panic? || !b.Ok? || b.entries == map[] || Agree(Entries(a), b.entries, fold)
      ensures reached != Refused ==> reached == if until == Refused then Compared else until
      ensures ns == After(old(ns), now, reached, deletes)
      ensures if reached == Done then Pushes(pushed, DiffOf(Entries(a), b.entries, fold)) else pushed == []
    {
      SameExact(Entries(a), Entries(b), fold);
      pushed := [];
      if ns.current == None || ns.future == None {
        return Refused, [];
      }
      var currentContent, toRelease := ns.current.value, ns.future.value;
      if a.Panic? || !b.Ok? {
        return Refused, [];
      }
      var d := BuildNamespaceDiff(Entries(a), b.entries, fold);
      if d.same {
        return Refused, [];
      }
      if until == Refused || until == Compared { return Compared, []; }
      ns := ns.(history := ns.history[now := currentContent]);
      if until == Recorded { return Recorded, []; }
      ns := ns.(current := Some(toRelease));
      if until == Written { return Written, []; }
      pushed := DoPush(d);
      if deletes {
        ns := ns.(future := None);
      }
      return Done, pushed;
    }
  }

  /** The store after a release got that far. */
  function After(ns: Namespace, now: int, reached: Progress, deletes: bool): Namespace
    requires reached != Refused ==> ns.current.Some? && ns.future.Some?
  {
    match reached
    case Refused | Compared => ns
    case Recorded => ns.(history := ns.history[now := ns.current.value])
    case Written => ns.(history := ns.history[now := ns.current.value], current := ns.future)
    case Done => Namespace(ns.future, if deletes then None else ns.future, ns.history[now := ns.current.value])
  }

  // ----- the state machine -----

  /** The release in progress: the contents it found and what it read them as. */
  datatype Going = Going(cur: string, next: string, before: Config, after: Config)

  /** Where it stands. */
  datatype Phase = Idle | Decided(r: Going) | Logged(r: Going) | Live(r: Going) | Told

  ghost function Difference(c: Setting, r: Going): NamespaceDiff { DiffOf(r.before, r.after, c.fold) }

  /** A client's map, the events sent to it but not yet replayed, those of the
      release in progress it has been sent, and whether it connected since the write. */
  datatype Client = Client(loaded: bool, config: Config, queue: seq<Event>, told: set<Event>, late: bool)

  /** ever: all contents that were current; staged: all contents put up for release. */
  datatype World = World(ns: Namespace, phase: Phase, clients: map<string, Client>, ever: set<string>,
      staged: set<string>)

  datatype Step =
    | Create
    | Stage(content: string)
    | Begin(a: Parsed, b: Parsed)           // with the two contents read so
    | Record(now: int)
    | Write
    | Send(id: string, event: Event)        // one event to one client
    | PushDone
    | DropStaged(deletes: bool)
    | Crash
    | Connect(id: string)
    | Leave(id: string)
    | Load(id: string, p: Parsed)           // with the current content read so
    | Deliver(id: string)

  const START := World(Namespace(None, None, map[]), Idle, map[], {}, {})

  ghost predicate Enabled(c: Setting, w: World, s: Step) {
    match s
    case Begin(a, b) =>
      && w.phase == Idle
      && (w.ns.current.Some? && w.ns.future.Some? ==> c.readAs(w.ns.current.value, a) && c.readAs(w.ns.future.value, b))
    case Record(_) => w.phase.Decided?
    case Write => w.phase.Logged?
    case Send(id, e) => w.phase.Live? && id in w.clients && Tells(Difference(c, w.phase.r), e)
        && e !in w.clients[id].told
    case PushDone =>
      && w.phase.Live?
      && forall id :: id in w.clients ==> (w.clients[id].late || ToldAll(w.clients[id], Difference(c, w.phase.r)))
    case DropStaged(_) => w.phase == Told
    case Load(id, p) => id in w.clients && w.ns.current.Some? && c.readAs(w.ns.current.value, p) && !p.Panic?
    case Deliver(id) => id in w.clients && w.clients[id].queue != []
    case _ => true
  }

  ghost function Next(c: Setting, w: World, s: Step): World {
    match s
    case Create =>
      if w.ns.current == None then w.(ns := w.ns.(current := Some("")), ever := w.ever + {""}) else w
    case Stage(content) =>
      if w.ns.current.Some? then w.(ns := w.ns.(future := Some(content)), staged := w.staged + {content}) else w
    case Begin(a, b) =>
      if w.ns.current.Some? && w.ns.future.Some? && Pending(a, b, c.fold).Some?
      then w.(phase := Decided(Going(w.ns.current.value, w.ns.future.value, Entries(a), b.entries))) else w
    case Record(now) =>
      if w.phase.Decided?
      then w.(ns := w.ns.(history := w.ns.history[now := w.phase.r.cur]), phase := Logged(w.phase.r)) else w
    case Write =>
      if w.phase.Logged?
      then w.(ns := w.ns.(current := Some(w.phase.r.next)), ever := w.ever + {w.phase.r.next}, phase := Live(w.phase.r),
              clients := Informed(w.clients))
      else w
    case Send(id, e) =>
      if id in w.clients then w.(clients := w.clients[id := Sent(w.clients[id], e)]) else w
    case PushDone => w.(phase := Told)
    case DropStaged(deletes) => w.(ns := if deletes then w.ns.(future := None) else w.ns, phase := Idle)
    case Crash => w.(phase := Idle)
    case Connect(id) => w.(clients := w.clients[id := Client(false, map[], [], {}, w.phase.Live?)])
    case Leave(id) => w.(clients := w.clients - {id})
    case Load(id, p) =>
      if id in w.clients then w.(clients := w.clients[id := w.clients[id].(loaded := true, config := Entries(p))])
          else w
    case Deliver(id) =>
      if id in w.clients && w.clients[id].queue != []
      then w.(clients := w.clients[id := Delivered(w.clients[id])]) else w
  }

  /** Every client, with no event of the release told yet. */
  ghost function Informed(clients: map<string, Client>): map<string, Client> {
    Over(clients.Keys, id requires id in clients => clients[id].(told := {}, late := false))
  }

  function Delivered(x: Client): Client
    requires x.queue != []
  {
    x.(config := Apply(x.config, x.queue[0]), queue := x.queue[1..])
  }

  function Sent(x: Client, e: Event): Client { x.(queue := x.queue + [e], told := x.told + {e}) }

  /** The client has been sent every event of the diff. */
  ghost predicate ToldAll(x: Client, d: NamespaceDiff) {
    forall e :: Tells(d, e) ==> e in x.told
  }

  ghost function Run(c: Setting, steps: seq<Step>): World {
    if steps == [] then START else Next(c, Run(c, steps[..|steps| - 1]), steps[|steps| - 1])
  }

  ghost predicate Possible(c: Setting, steps: seq<Step>) {
    forall n :: 0 <= n < |steps| ==> Enabled(c, Run(c, steps[..n]), steps[n])
  }

  lemma {:induction false} PossibleInit(c: Setting, steps: seq<Step>)
    requires steps != [] && Possible(c, steps)
    ensures Possible(c, steps[..|steps| - 1])
    ensures Enabled(c, Run(c, steps[..|steps| - 1]), steps[|steps| - 1])
  {
    var init := steps[..|steps| - 1];
    forall n | 0 <= n < |init| ensures Enabled(c, Run(c, init[..n]), init[n]) {
      assert init[..n] == steps[..n];
    }
  }

  // ----- running on from a state -----

  ghost function RunOn(c: Setting, w: World, steps: seq<Step>): World {
    if steps == [] then w else Next(c, RunOn(c, w, steps[..|steps| - 1]), steps[|steps| - 1])
  }

  ghost predicate PossibleOn(c: Setting, w: World, steps: seq<Step>) {
    forall n :: 0 <= n < |steps| ==> Enabled(c, RunOn(c, w, steps[..n]), steps[n])
  }

  lemma {:induction false} RunOnLast(c: Setting, w: World, steps: seq<Step>, s: Step)
    ensures RunOn(c, w, steps + [s]) == Next(c, RunOn(c, w, steps), s)
    ensures PossibleOn(c, w, steps + [s]) <==> PossibleOn(c, w, steps) && Enabled(c, RunOn(c, w, steps), s)
  {
    hide Next, Enabled;
    var all := steps + [s];
    assert all[..|steps|] == steps;
    assert forall n :: 0 <= n < |steps| ==> all[..n] == steps[..n] && all[n] == steps[n];
  }

  lemma {:induction false} RunOnConcat(c: Setting, w: World, a: seq<Step>, b: seq<Step>)
    ensures RunOn(c, w, a + b) == RunOn(c, RunOn(c, w, a), b)
    ensures PossibleOn(c, w, a + b) <==> PossibleOn(c, w, a) && PossibleOn(c, RunOn(c, w, a), b)
    decreases |b|
  {
    hide Next, Enabled, PossibleOn, RunOn;
    if b == [] {
      assert a + b == a;
      NoSteps(c, RunOn(c, w, a));
    } else {
      var init, s := b[..|b| - 1], b[|b| - 1];
      assert a + b == (a + init) + [s] && b == init + [s];
      RunOnConcat(c, w, a, init);
      RunOnLast(c, w, a + init, s);
      RunOnLast(c, RunOn(c, w, a), init, s);
    }
  }

  lemma {:induction false} NoSteps(c: Setting, w: World)
    ensures RunOn(c, w, []) == w && PossibleOn(c, w, [])
  {
  }

  lemma {:induction false} FromStart(c: Setting, steps: seq<Step>)
    ensures Run(c, steps) == RunOn(c, START, steps)
    ensures Possible(c, steps) <==> PossibleOn(c, START, steps)
  {
    hide Next, Enabled, PossibleOn, Possible;
    if steps != [] {
      FromStart(c, steps[..|steps| - 1]);
    }
    assert Possible(c, steps) <==> PossibleOn(c, START, steps) by {
      forall n | 0 <= n < |steps| ensures Run(c, steps[..n]) == RunOn(c, START, steps[..n]) {
        SameStart(c, steps[..n]);
      }
      SamePossible(c, steps);
    }
  }

  lemma {:induction false} SameStart(c: Setting, steps: seq<Step>)
    ensures Run(c, steps) == RunOn(c, START, steps)
  {
    hide Next;
    if steps != [] {
      SameStart(c, steps[..|steps| - 1]);
    }
  }

  lemma {:induction false} SamePossible(c: Setting, steps: seq<Step>)
    requires forall n :: 0 <= n < |steps| ==> Run(c, steps[..n]) == RunOn(c, START, steps[..n])
    ensures Possible(c, steps) <==> PossibleOn(c, START, steps)
  {
    hide Run, RunOn, Enabled;
  }

  lemma {:induction false} StagedFirst(c: Setting, text: string)
    ensures var steps, w := [Create, Stage(text)], Next(c, Next(c, START, Create), Stage(text));
            && RunOn(c, START, steps) == w && PossibleOn(c, START, steps)
            && w.phase == Idle && w.clients == map[] && w.ever == {""}
            && w.ns == Namespace(Some(""), Some(text), map[])
  {
    hide RunOn, PossibleOn;
    NoSteps(c, START);
    RunOnLast(c, START, [], Create);
    RunOnLast(c, START, [Create], Stage(text));
    assert [] + [Create] == [Create] && [Create] + [Stage(text)] == [Create, Stage(text)];
  }

  lemma {:induction false} StageNext(c: Setting, w: World, content: string)
    requires w.ns.current.Some?
    ensures Enabled(c, w, Stage(content))
    ensures Next(c, w, Stage(content)) == w.(ns := w.ns.(future := Some(content)), staged := w.staged + {content})
  {
  }

  lemma {:induction false} CrashNext(c: Setting, w: World)
    ensures Enabled(c, w, Crash) && Next(c, w, Crash) == w.(phase := Idle)
  {
  }

  // ----- the handler is the machine's steps in a row -----

  function Sends(id: string, events: seq<Event>): seq<Step> {
    seq(|events|, i requires 0 <= i < |events| => Send(id, events[i]))
  }

  /** doPush: one client after the other. */
  function AllSends(ids: seq<string>, pushed: map<string, seq<Event>>): seq<Step>
    requires forall i :: 0 <= i < |ids| ==> ids[i] in pushed
  {
    if ids == [] then [] else Sends(ids[0], pushed[ids[0]]) + AllSends(ids[1..], pushed)
  }

  function Got(x: Client, events: seq<Event>): Client {
    x.(queue := x.queue + events, told := x.told + set e | e in events)
  }

  lemma {:induction false} SendsRun(c: Setting, w: World, id: string, events: seq<Event>)
    requires w.phase.Live? && id in w.clients && w.clients[id].told == {} && Once(events)
    requires forall e :: e in events ==> Tells(Difference(c, w.phase.r), e)
    ensures PossibleOn(c, w, Sends(id, events))
    ensures RunOn(c, w, Sends(id, events)) == w.(clients := w.clients[id := Got(w.clients[id], events)])
    decreases |events|
  {
    hide Tells, Difference, Got, Next, Enabled, RunOn, PossibleOn;
    if events == [] {
      assert Sends(id, events) == [];
      NoSteps(c, w);
      NothingGot(w.clients[id]);
      assert w.clients[id := w.clients[id]] == w.clients;
    } else {
      var init, e := events[..|events| - 1], events[|events| - 1];
      assert events == init + [e] && e in events;
      assert forall x :: x in init ==> x in events;
      SendsRun(c, w, id, init);
      assert Sends(id, events) == Sends(id, init) + [Send(id, e)];
      RunOnLast(c, w, Sends(id, init), Send(id, e));
      GotMore(w.clients[id], init, e);
      SendNext(c, w, id, Got(w.clients[id], init), e);
    }
  }

  lemma {:induction false} NothingGot(x: Client)
    ensures Got(x, []) == x
  {
    assert x.queue + [] == x.queue;
  }

  lemma {:induction false} GotMore(x: Client, events: seq<Event>, e: Event)
    ensures Got(x, events + [e]) == Sent(Got(x, events), e)
    ensures x.told == {} && e !in events ==> e !in Got(x, events).told
  {
    assert x.queue + (events + [e]) == x.queue + events + [e];
  }

  lemma {:induction false} SendNext(c: Setting, w: World, id: string, x: Client, e: Event)
    requires w.phase.Live? && id in w.clients && Tells(Difference(c, w.phase.r), e) && e !in x.told
    ensures var w1 := w.(clients := w.clients[id := x]);
            Enabled(c, w1, Send(id, e)) && Next(c, w1, Send(id, e)) == w.(clients := w.clients[id := Sent(x, e)])
  {
    hide Tells, Difference;
  }

  ghost predicate Different(ids: seq<string>) {
    forall i, j :: 0 <= i < j < |ids| ==> ids[i] != ids[j]
  }

  /** Every event has been sent to each of these clients and nothing else has happened. */
  ghost predicate AllGot(w: World, w': World, ids: seq<string>, pushed: map<string, seq<Event>>)
    requires forall i :: 0 <= i < |ids| ==> ids[i] in pushed
  {
    && w' == w.(clients := w'.clients) && w'.clients.Keys == w.clients.Keys
    && forall id :: id in w.clients ==>
         w'.clients[id] == if id in ids then Got(w.clients[id], pushed[id]) else w.clients[id]
  }

  lemma {:induction false} AllSendsRun(c: Setting, w: World, ids: seq<string>, pushed: map<string, seq<Event>>)
    requires w.phase.Live? && Different(ids)
    requires forall i :: 0 <= i < |ids| ==>
               ids[i] in w.clients && w.clients[ids[i]].told == {} && ids[i] in pushed
                   && Pushes(pushed[ids[i]], Difference(c, w.phase.r))
    ensures PossibleOn(c, w, AllSends(ids, pushed))
    ensures AllGot(w, RunOn(c, w, AllSends(ids, pushed)), ids, pushed)
    decreases |ids|
  {
    hide Difference, Got, PossibleOn, RunOn, Once, Tells;
    if ids == [] {
      NoSteps(c, w);
    } else {
      var id := ids[0];
      SendsRun(c, w, id, pushed[id]);
      var w1 := RunOn(c, w, Sends(id, pushed[id]));
      assert forall i :: 0 < i < |ids| ==> ids[i] == ids[1..][i - 1];
      AllSendsRun(c, w1, ids[1..], pushed);
      RunOnConcat(c, w, Sends(id, pushed[id]), AllSends(ids[1..], pushed));
      assert id !in ids[1..];
      assert forall x :: x in ids <==> x == id || x in ids[1..];
    }
  }

  /** The clients that are pushed to, each with its events in some order. */
  ghost predicate PushedTo(w: World, ids: seq<string>, pushed: map<string, seq<Event>>, d: NamespaceDiff) {
    && Different(ids) && (forall id :: id in ids <==> id in w.clients)
    && (forall i :: 0 <= i < |ids| ==> ids[i] in pushed && Pushes(pushed[ids[i]], d))
  }

  /** The handler is a run of the machine: its writes one by one, each event of its
      push sent to each client, then the delete.  However far it gets, the store is
      what the steps up to there leave. */
  lemma {:induction false} HandlerIsSteps(c: Setting, w: World, a: Parsed, b: Parsed, now: int, deletes: bool,
      ids: seq<string>, pushed: map<string, seq<Event>>)
    requires w.phase == Idle && w.ns.current.Some? && w.ns.future.Some?
    requires c.readAs(w.ns.current.value, a) && c.readAs(w.ns.future.value, b) && Pending(a, b, c.fold).Some?
    requires PushedTo(w, ids, pushed, Pending(a, b, c.fold).value)
    ensures var writes := [Begin(a, b), Record(now), Write];
            var steps := writes + AllSends(ids, pushed) + [PushDone, DropStaged(deletes)];
            && PossibleOn(c, w, steps)
            && RunOn(c, w, writes[..1]).ns == After(w.ns, now, Compared, deletes)
            && RunOn(c, w, writes[..2]).ns == After(w.ns, now, Recorded, deletes)
            && RunOn(c, w, writes).ns == After(w.ns, now, Written, deletes)
            && RunOn(c, w, steps).ns == After(w.ns, now, Done, deletes) && RunOn(c, w, steps).phase == Idle
            && RunOn(c, w, steps).clients.Keys == w.clients.Keys
            && forall id :: id in w.clients ==>
                 var x := RunOn(c, w, steps).clients[id];
                 x.queue == w.clients[id].queue + pushed[id] && x.config == w.clients[id].config
                     && x.loaded == w.clients[id].loaded
  {
    hide RunOn, PossibleOn, Pending, AllSends, Pushes, Difference;
    var writes, last := [Begin(a, b), Record(now), Write], [PushDone, DropStaged(deletes)];
    var w3 := WritesRun(c, w, a, b, now, deletes);
    AllSendsRun(c, w3, ids, pushed);
    var w4 := RunOn(c, w3, AllSends(ids, pushed));
    LastRun(c, w3, w4, ids, pushed, deletes);
    RunOnConcat(c, w, writes, AllSends(ids, pushed));
    RunOnConcat(c, w, writes + AllSends(ids, pushed), last);
  }

  lemma {:induction false} WritesRun(c: Setting, w: World, a: Parsed, b: Parsed, now: int, deletes: bool)
      returns (w3: World)
    requires w.phase == Idle && w.ns.current.Some? && w.ns.future.Some?
    requires c.readAs(w.ns.current.value, a) && c.readAs(w.ns.future.value, b) && Pending(a, b, c.fold).Some?
    ensures var writes := [Begin(a, b), Record(now), Write];
            && PossibleOn(c, w, writes) && w3 == RunOn(c, w, writes)
            && RunOn(c, w, writes[..1]).ns == After(w.ns, now, Compared, deletes)
            && RunOn(c, w, writes[..2]).ns == After(w.ns, now, Recorded, deletes)
            && w3.ns == After(w.ns, now, Written, deletes)
    ensures w3.phase == Live(Going(w.ns.current.value, w.ns.future.value, Entries(a), b.entries))
    ensures Difference(c, w3.phase.r) == Pending(a, b, c.fold).value
    ensures w3.clients == Informed(w.clients)
  {
    hide RunOn, PossibleOn, Next, Enabled;
    var s1, s2, s3 := Begin(a, b), Record(now), Write;
    WritesNext(c, w, a, b, now, deletes);
    NoSteps(c, w);
    RunOnLast(c, w, [], s1);
    RunOnLast(c, w, [s1], s2);
    RunOnLast(c, w, [s1, s2], s3);
    assert [] + [s1] == [s1] && [s1] + [s2] == [s1, s2] && [s1, s2] + [s3] == [s1, s2, s3];
    assert [s1, s2, s3][..1] == [s1] && [s1, s2, s3][..2] == [s1, s2];
    w3 := RunOn(c, w, [s1, s2, s3]);
  }

  /** The same state by state. */
  lemma {:induction false} WritesNext(c: Setting, w: World, a: Parsed, b: Parsed, now: int, deletes: bool)
    requires w.phase == Idle && w.ns.current.Some? && w.ns.future.Some?
    requires c.readAs(w.ns.current.value, a) && c.readAs(w.ns.future.value, b) && Pending(a, b, c.fold).Some?
    ensures var w1 := Next(c, w, Begin(a, b));
            var w2 := Next(c, w1, Record(now));
            var w3 := Next(c, w2, Write);
            && Enabled(c, w, Begin(a, b)) && Enabled(c, w1, Record(now)) && Enabled(c, w2, Write)
            && w1.ns == After(w.ns, now, Compared, deletes) && w2.ns == After(w.ns, now, Recorded, deletes)
            && w3.ns == After(w.ns, now, Written, deletes)
            && w3.phase == Live(Going(w.ns.current.value, w.ns.future.value, Entries(a), b.entries))
            && Difference(c, w3.phase.r) == Pending(a, b, c.fold).value
            && w3.clients == Informed(w.clients)
  {
  }

  lemma {:induction false} LastRun(c: Setting, w3: World, w4: World, ids: seq<string>,
      pushed: map<string, seq<Event>>, deletes: bool)
    requires w3.phase.Live? && PushedTo(w3, ids, pushed, Difference(c, w3.phase.r)) && AllGot(w3, w4, ids, pushed)
    ensures var last := [PushDone, DropStaged(deletes)];
            && PossibleOn(c, w4, last)
            && RunOn(c, w4, last) == w4.(ns := if deletes then w4.ns.(future := None) else w4.ns, phase := Idle)
  {
    hide Tells, Difference, RunOn, PossibleOn;
    NoSteps(c, w4);
    RunOnLast(c, w4, [], PushDone);
    RunOnLast(c, w4, [PushDone], DropStaged(deletes));
    assert [] + [PushDone] == [PushDone] && [PushDone] + [DropStaged(deletes)] == [PushDone, DropStaged(deletes)];
    forall id | id in w4.clients ensures ToldAll(w4.clients[id], Difference(c, w4.phase.r)) {
      assert id in ids;
    }
  }

  // ----- nothing released is lost -----

  ghost predicate InHistory(history: map<int, string>, text: string) {
    exists k :: k in history && history[k] == text
  }

  /** Every content that was current is current still or in the history. */
  ghost predicate Kept(w: World) {
    forall text :: text in w.ever ==> w.ns.current == Some(text) || InHistory(w.ns.history, text)
  }

  ghost predicate Staged(w: World) {
    && (w.ns.current.Some? ==> w.ns.current.value == "" || w.ns.current.value in w.staged)
    && (w.ns.future.Some? ==> w.ns.future.value in w.staged)
    && (w.phase.Decided? || w.phase.Logged? ==> w.phase.r.next in w.staged && w.ns.current == Some(w.phase.r.cur))
    && (w.phase.Logged? ==> InHistory(w.ns.history, w.phase.r.cur))
    && (w.phase.Live? ==> w.ns.current == Some(w.phase.r.next) && w.phase.r.next in w.staged)
    && (w.ns.current.Some? ==> w.ns.current.value in w.ever)
  }

  /** What is in the history was current. */
  ghost predicate FromEver(w: World) {
    forall k :: k in w.ns.history ==> w.ns.history[k] in w.ever
  }

  /** The history key of this second is free, or holds the very content being recorded. */
  predicate FreshSecond(w: World, s: Step) {
    s.Record? && w.phase.Decided? && s.now in w.ns.history ==> w.ns.history[s.now] == w.phase.r.cur
  }

  ghost predicate FreshSeconds(c: Setting, steps: seq<Step>) {
    forall n :: 0 <= n < |steps| ==> FreshSecond(Run(c, steps[..n]), steps[n])
  }

  lemma {:induction false} StagedStep(c: Setting, w: World, s: Step)
    requires Staged(w) && Enabled(c, w, s)
    ensures Staged(Next(c, w, s)) && (FromEver(w) ==> FromEver(Next(c, w, s)))
  {
    if s.Record? {
      var h := Next(c, w, s).ns.history;
      assert h[s.now] == w.phase.r.cur;
    }
  }

  lemma {:induction false} KeptStep(c: Setting, w: World, s: Step)
    requires Staged(w) && Kept(w) && Enabled(c, w, s) && FreshSecond(w, s)
    ensures Kept(Next(c, w, s))
  {
    var w' := Next(c, w, s);
    forall text | text in w'.ever ensures w'.ns.current == Some(text) || InHistory(w'.ns.history, text) {
      if s.Record? && InHistory(w.ns.history, text) {
        var k :| k in w.ns.history && w.ns.history[k] == text;
        assert w'.ns.history[k] == text;
      }
    }
  }

  /** Over every run, crashes and retries anywhere: current only takes staged
      contents, and while no history second is reused for another content,
      nothing that was current is lost. */
  lemma {:induction false} HistoryKeeps(c: Setting, steps: seq<Step>)
    requires Possible(c, steps)
    ensures Staged(Run(c, steps)) && FromEver(Run(c, steps))
    ensures FreshSeconds(c, steps) ==> Kept(Run(c, steps))
  {
    hide Next, Enabled, FreshSecond;
    if steps != [] {
      var n := |steps| - 1;
      PossibleInit(c, steps);
      HistoryKeeps(c, steps[..n]);
      var w := Run(c, steps[..n]);
      StagedStep(c, w, steps[n]);
      if FreshSeconds(c, steps) {
        assert forall m :: 0 <= m < n ==> steps[..n][..m] == steps[..m];
        assert FreshSecond(Run(c, steps[..n]), steps[n]);
        KeptStep(c, w, steps[n]);
      }
    }
  }

  /** Recording in a used second overwrites, in any run: nothing is lost exactly when
      the overwritten content is the one recorded or kept under another second. */
  lemma {:induction false} RecordExact(c: Setting, steps: seq<Step>, now: int)
    requires Possible(c, steps) && Kept(Run(c, steps))
    requires Run(c, steps).phase.Decided? && now in Run(c, steps).ns.history
    ensures var w := Run(c, steps);
            Kept(Next(c, w, Record(now))) <==>
              || w.ns.history[now] == w.phase.r.cur
              || exists k :: k in w.ns.history && k != now && w.ns.history[k] == w.ns.history[now]
  {
    HistoryKeeps(c, steps);
    RecordAt(c, Run(c, steps), now);
  }

  lemma {:induction false} RecordAt(c: Setting, w: World, now: int)
    requires Staged(w) && Kept(w) && FromEver(w) && w.phase.Decided? && now in w.ns.history
    ensures Kept(Next(c, w, Record(now))) <==>
              || w.ns.history[now] == w.phase.r.cur
              || exists k :: k in w.ns.history && k != now && w.ns.history[k] == w.ns.history[now]
  {
    var w', lost := Next(c, w, Record(now)), w.ns.history[now];
    assert InHistory(w.ns.history, lost);
    if lost != w.phase.r.cur && Kept(w') {
      assert InHistory(w'.ns.history, lost);
      var k :| k in w'.ns.history && w'.ns.history[k] == lost;
      assert k != now;
    }
    if lost == w.phase.r.cur || exists k :: k in w.ns.history && k != now && w.ns.history[k] == lost {
      forall text | text in w'.ever ensures w'.ns.current == Some(text) || InHistory(w'.ns.history, text) {
        if w.ns.current != Some(text) {
          var k :| k in w.ns.history && w.ns.history[k] == text;
          if k == now && lost != w.phase.r.cur {
            k :| k in w.ns.history && k != now && w.ns.history[k] == lost;
          }
          assert w'.ns.history[k] == text;
        }
      }
    }
  }

  lemma {:induction false} ThreeParts(text: string, a: Parsed, b: Parsed, later: string, p: Parsed, q: Parsed)
    ensures [Create, Stage(text)] + ([Begin(a, b), Record(0), Write] + [Crash, Stage(later), Begin(p, q), Record(0)])
         == TwoInOneSecond(text, a, b, later, p, q)
  {
  }

  lemma {:induction false} ThreeRuns(c: Setting, a: seq<Step>, b: seq<Step>, d: seq<Step>)
    requires PossibleOn(c, START, a) && PossibleOn(c, RunOn(c, START, a), b)
    requires PossibleOn(c, RunOn(c, RunOn(c, START, a), b), d)
    ensures Run(c, a + (b + d)) == RunOn(c, RunOn(c, RunOn(c, START, a), b), d) && Possible(c, a + (b + d))
  {
    hide RunOn, PossibleOn, Run, Possible;
    RunOnConcat(c, RunOn(c, START, a), b, d);
    RunOnConcat(c, START, a, b + d);
    FromStart(c, a + (b + d));
  }

  lemma {:induction false} TwoRecords(c: Setting, text: string, a: Parsed, b: Parsed,
      later: string, p: Parsed, q: Parsed)
    requires text != "" && c.readAs("", a) && c.readAs(text, b) && Pending(a, b, c.fold).Some?
    requires c.readAs(text, p) && c.readAs(later, q) && Pending(p, q, c.fold).Some?
    ensures var steps := TwoInOneSecond(text, a, b, later, p, q);
            var w := Run(c, steps);
            && Possible(c, steps) && "" in w.ever && w.ns.current == Some(text) && w.ns.history == map[0 := text]
  {
    hide Pending, RunOn, PossibleOn, Run, Possible, Next, Enabled, TwoInOneSecond;
    var first := [Create, Stage(text)];
    var writes, rest := [Begin(a, b), Record(0), Write], [Crash, Stage(later), Begin(p, q), Record(0)];
    StagedFirst(c, text);
    var w0 := RunOn(c, START, first);
    var w1 := WritesRun(c, w0, a, b, 0, false);
    WritesEver(c, w0, a, b, 0);
    SecondRecord(c, w1, later, p, q);
    ThreeRuns(c, first, writes, rest);
    ThreeParts(text, a, b, later, p, q);
  }

  /** A run that loses a content: two releases recorded in one second. */
  function TwoInOneSecond(text: string, a: Parsed, b: Parsed, later: string, p: Parsed, q: Parsed): seq<Step> {
    [Create, Stage(text), Begin(a, b), Record(0), Write, Crash, Stage(later), Begin(p, q), Record(0)]
  }

  lemma {:induction false} SameSecondLoses(c: Setting, text: string, a: Parsed, b: Parsed,
      later: string, p: Parsed, q: Parsed)
    requires text != "" && c.readAs("", a) && c.readAs(text, b) && Pending(a, b, c.fold).Some?
    requires c.readAs(text, p) && c.readAs(later, q) && Pending(p, q, c.fold).Some?
    ensures var steps := TwoInOneSecond(text, a, b, later, p, q);
            var w := Run(c, steps);
            && Possible(c, steps) && "" in w.ever && w.ns.current == Some(text) && w.ns.history == map[0 := text]
            && !Kept(w)
  {
    hide Pending, RunOn, PossibleOn, Run, Possible, Next;
    TwoRecords(c, text, a, b, later, p, q);
    var w := Run(c, TwoInOneSecond(text, a, b, later, p, q));
    assert !InHistory(w.ns.history, "");
  }

  lemma {:induction false} WritesEver(c: Setting, w: World, a: Parsed, b: Parsed, now: int)
    requires w.phase == Idle && w.ns.current.Some? && w.ns.future.Some?
    requires c.readAs(w.ns.current.value, a) && c.readAs(w.ns.future.value, b) && Pending(a, b, c.fold).Some?
    ensures RunOn(c, w, [Begin(a, b), Record(now), Write]).ever == w.ever + {w.ns.future.value}
  {
    hide RunOn, PossibleOn, Pending;
    NoSteps(c, w);
    RunOnLast(c, w, [], Begin(a, b));
    RunOnLast(c, w, [Begin(a, b)], Record(now));
    RunOnLast(c, w, [Begin(a, b), Record(now)], Write);
    assert [] + [Begin(a, b)] == [Begin(a, b)] && [Begin(a, b)] + [Record(now)] == [Begin(a, b), Record(now)];
    assert [Begin(a, b), Record(now)] + [Write] == [Begin(a, b), Record(now), Write];
  }

  lemma {:induction false} SecondRecord(c: Setting, w: World, later: string, p: Parsed, q: Parsed)
    requires w.ns.current.Some? && c.readAs(w.ns.current.value, p) && c.readAs(later, q) && Pending(p, q, c.fold).Some?
    ensures var rest := [Crash, Stage(later), Begin(p, q), Record(0)];
            var w' := RunOn(c, w, rest);
            && PossibleOn(c, w, rest) && w'.ever == w.ever && w'.ns.current == w.ns.current
            && w'.ns.history == w.ns.history[0 := w.ns.current.value]
  {
    hide RunOn, PossibleOn, Pending;
    NoSteps(c, w);
    RunOnLast(c, w, [], Crash);
    RunOnLast(c, w, [Crash], Stage(later));
    RunOnLast(c, w, [Crash, Stage(later)], Begin(p, q));
    RunOnLast(c, w, [Crash, Stage(later), Begin(p, q)], Record(0));
    assert [] + [Crash] == [Crash] && [Crash] + [Stage(later)] == [Crash, Stage(later)];
    assert [Crash, Stage(later)] + [Begin(p, q)] == [Crash, Stage(later), Begin(p, q)];
    assert [Crash, Stage(later), Begin(p, q)] + [Record(0)] == [Crash, Stage(later), Begin(p, q), Record(0)];
  }

  // ----- retries after a crash -----

  /** However a text is read, twice, there is nothing to release between the readings. */
  ghost predicate Settled(c: Setting, text: string) {
    forall a, b :: c.readAs(text, a) && c.readAs(text, b) ==> Pending(a, b, c.fold) == None
  }

  /** Retries, crashes and whatever clients do, but nothing newly staged. */
  ghost predicate OnlyRetries(c: Setting, w: World, steps: seq<Step>) {
    PossibleOn(c, w, steps) && forall n :: 0 <= n < |steps| ==> !steps[n].Stage?
  }

  lemma {:induction false} SettledRetries(c: Setting, w: World, steps: seq<Step>)
    requires w.phase == Idle && w.ns.current.Some? && w.ns.future == w.ns.current && Settled(c, w.ns.current.value)
    requires OnlyRetries(c, w, steps)
    ensures RunOn(c, w, steps).ns == w.ns && RunOn(c, w, steps).phase == Idle
  {
    hide Next, Enabled, RunOn, PossibleOn, Settled;
    if steps == [] {
      NoSteps(c, w);
    } else {
      var init, s := steps[..|steps| - 1], steps[|steps| - 1];
      assert steps == init + [s];
      RunOnLast(c, w, init, s);
      assert forall n :: 0 <= n < |init| ==> init[n] == steps[n];
      SettledRetries(c, w, init);
      SettledStep(c, RunOn(c, w, init), s);
    }
  }

  lemma {:induction false} SettledStep(c: Setting, w: World, s: Step)
    requires w.phase == Idle && w.ns.current.Some? && w.ns.future == w.ns.current && Settled(c, w.ns.current.value)
    requires Enabled(c, w, s) && !s.Stage?
    ensures Next(c, w, s).ns == w.ns && Next(c, w, s).phase == Idle
  {
    hide Pending;
  }

  lemma {:induction false} Beyond(s: set<int>) returns (n: int)
    ensures forall k :: k in s ==> k < n
  {
    if k :| k in s {
      n := Beyond(s - {k});
      assert forall x :: x in s ==> x == k || x in s - {k};
      n := if n <= k then k + 1 else n;
    } else {
      n := 0;
    }
  }

  /** Once the staged content is current, retries and crashes change nothing in the
      store exactly when there is nothing to release between any two readings of it. */
  lemma {:induction false} RetriesChangeNothing(c: Setting, w: World)
    requires w.phase == Idle && w.ns.current.Some? && w.ns.future == w.ns.current
    ensures (forall retries :: OnlyRetries(c, w, retries) ==> RunOn(c, w, retries).ns == w.ns)
        <==> Settled(c, w.ns.current.value)
  {
    hide OnlyRetries, RunOn, Pending;
    if Settled(c, w.ns.current.value) {
      forall retries | OnlyRetries(c, w, retries) ensures RunOn(c, w, retries).ns == w.ns {
        SettledRetries(c, w, retries);
      }
    } else {
      var a, b :| c.readAs(w.ns.current.value, a) && c.readAs(w.ns.current.value, b) && Pending(a, b, c.fold) != None;
      RetryReleases(c, w, a, b);
    }
  }

  lemma {:induction false} RetryReleases(c: Setting, w: World, a: Parsed, b: Parsed)
    requires w.phase == Idle && w.ns.current.Some? && w.ns.future == w.ns.current
    requires c.readAs(w.ns.current.value, a) && c.readAs(w.ns.current.value, b) && Pending(a, b, c.fold).Some?
    ensures exists retries :: OnlyRetries(c, w, retries) && RunOn(c, w, retries).ns != w.ns
  {
    hide Pending, RunOn, PossibleOn;
    var now := Beyond(w.ns.history.Keys);
    var _ := WritesRun(c, w, a, b, now, false);
    var retries := [Begin(a, b), Record(now), Write];
    assert now in RunOn(c, w, retries).ns.history;
    assert OnlyRetries(c, w, retries) && RunOn(c, w, retries).ns != w.ns;
  }

  /** After a crash past the current-write, retries, crashing or not, leave current,
      staged and history as they are, exactly under that condition. */
  lemma {:induction false} CrashAfterWriteThenRetries(c: Setting, before: seq<Step>)
    requires Possible(c, before) && Run(c, before).phase.Live?
    requires Run(c, before).ns.future == Some(Run(c, before).phase.r.next)
    ensures var w := Next(c, Run(c, before), Crash);
            && w.ns == Run(c, before).ns
            && ((forall retries :: OnlyRetries(c, w, retries) ==> RunOn(c, w, retries).ns == w.ns)
                <==> Settled(c, Run(c, before).phase.r.next))
  {
    hide OnlyRetries, Settled, Enabled;
    HistoryKeeps(c, before);
    RetriesChangeNothing(c, Next(c, Run(c, before), Crash));
  }
}
