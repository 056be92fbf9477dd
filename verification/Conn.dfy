/** Websocket clients closed by several goroutines at once, and the registry
    that maps a key to its client (service/conn/client.go, client_mgr.go and
    websocket.go).  Every step below is one atomic action of one goroutine. */
module Conn {
  import opened Results

  /** Where a goroutine stands in Close. */
  datatype Pc =
    | Entered      // about to take the lock
    | Locked       // holds the lock
    | Marked       // holds the lock, has set closed
    | Released     // has released the lock after setting closed
    | ChanClosed | Unregistered | ConnClosed
    | Returned     // found closed already set

  datatype Thread = Thread(client: nat, pc: Pc)

  /** `closedBy` is the goroutine that set closed; the lists tell which
      goroutines closed the channel, unregistered and closed the connection. */
  datatype Client = Client(
    key: string, lock: Option<nat>, closedBy: Option<nat>,
    chan: seq<nat>, unregister: seq<nat>, conn: seq<nat>)

  /** Clients and goroutines are numbered in the order they start. */
  datatype State = State(clients: seq<Client>, registry: map<string, nat>, threads: seq<Thread>)

  datatype Step = Serve(key: string) | CallClose(client: nat) | Go(thread: nat)

  const START := State([], map[], [])

  function GetClient(s: State, key: string): Option<nat> { At(s.registry, key) }

  predicate CanGo(s: State, t: nat) {
    && t < |s.threads| && s.threads[t].client < |s.clients|
    && s.threads[t].pc != ConnClosed && s.threads[t].pc != Returned
    && (s.threads[t].pc == Entered ==> s.clients[s.threads[t].client].lock == None)
  }

  predicate Enabled(s: State, step: Step) {
    match step
    case Serve(_) => true
    case CallClose(c) => c < |s.clients|
    case Go(t) => CanGo(s, t)
  }

  function SetClient(s: State, t: nat, pc: Pc, x: Client): State
    requires t < |s.threads| && s.threads[t].client < |s.clients|
  {
    s.(clients := s.clients[s.threads[t].client := x], threads := s.threads[t := s.threads[t].(pc := pc)])
  }

  /** What goroutine t, standing at pc, does to its client, and where it stands then. */
  function Act(x: Client, t: nat, pc: Pc): (Pc, Client) {
    match pc
    case Entered => (Locked, x.(lock := Some(t)))
    case Locked =>
      if x.closedBy.Some? then (Returned, x.(lock := None)) else (Marked, x.(closedBy := Some(t)))
    case Marked => (Released, x.(lock := None))
    case Released =>
      // closing twice panics, and Close recovers
      if x.chan != [] then (Returned, x) else (ChanClosed, x.(chan := x.chan + [t]))
    case ChanClosed => (Unregistered, x.(unregister := x.unregister + [t]))
    case Unregistered => (ConnClosed, x.(conn := x.conn + [t]))
    case ConnClosed => (pc, x)
    case Returned => (pc, x)
  }

  function Next(s: State, step: Step): State
    requires Enabled(s, step)
  {
    match step
    case Serve(key) =>
      s.(clients := s.clients + [Client(key, None, None, [], [], [])], registry := s.registry[key := |s.clients|])
    case CallClose(c) => s.(threads := s.threads + [Thread(c, Entered)])
    case Go(t) =>
      var x, pc := s.clients[s.threads[t].client], s.threads[t].pc;
      var r := Act(x, t, pc);
      var s' := SetClient(s, t, r.0, r.1);
      // unregistering deletes whatever client the key maps to
      if pc == ChanClosed then s'.(registry := s.registry - {x.key}) else s'
  }

  /** The states along a run, given its steps. */
  function Run(steps: seq<Step>): Option<State> {
    if steps == [] then Some(START)
    else
      var s := Run(steps[..|steps| - 1]);
      if s.Some? && Enabled(s.value, steps[|steps| - 1]) then Some(Next(s.value, steps[|steps| - 1])) else None
  }

  // ----- once, and by the goroutine that set closed -----

  predicate Owns(pc: Pc) {
    pc == Marked || pc == Released || pc == ChanClosed || pc == Unregistered || pc == ConnClosed
  }

  predicate Holds(pc: Pc) { pc == Locked || pc == Marked }

  /** What goroutine t, which set closed, has done by the time it stands at pc. */
  predicate DoneBy(x: Client, t: nat, pc: Pc) {
    && x.chan == (if pc == ChanClosed || pc == Unregistered || pc == ConnClosed then [t] else [])
    && x.unregister == (if pc == Unregistered || pc == ConnClosed then [t] else [])
    && x.conn == (if pc == ConnClosed then [t] else [])
  }

  predicate ClientInv(s: State, c: nat)
    requires c < |s.clients|
  {
    var x := s.clients[c];
    && (x.closedBy == None ==> x.chan == [] && x.unregister == [] && x.conn == [])
    && (x.closedBy.Some? ==>
          var t := x.closedBy.value;
          t < |s.threads| && s.threads[t].client == c && Owns(s.threads[t].pc) && DoneBy(x, t, s.threads[t].pc))
    && (x.lock.Some? ==>
          x.lock.value < |s.threads| && s.threads[x.lock.value].client == c && Holds(s.threads[x.lock.value].pc))
  }

  predicate ThreadInv(s: State, t: nat)
    requires t < |s.threads|
  {
    var c, pc := s.threads[t].client, s.threads[t].pc;
    && c < |s.clients|
    && (Owns(pc) ==> s.clients[c].closedBy == Some(t))
    && (Holds(pc) ==> s.clients[c].lock == Some(t))
    && (pc == Returned ==> s.clients[c].closedBy.Some?)
  }

  ghost predicate Inv(s: State) {
    && (forall c :: 0 <= c < |s.clients| ==> ClientInv(s, c))
    && (forall t :: 0 <= t < |s.threads| ==> ThreadInv(s, t))
    && (forall k :: k in s.registry ==>
          s.registry[k] < |s.clients| && s.clients[s.registry[k]].key == k && s.clients[s.registry[k]].unregister == [])
  }

  lemma {:induction false} StepKeepsInv(s: State, step: Step)
    requires Inv(s) && Enabled(s, step)
    ensures Inv(Next(s, step))
  {
    if step.Go? {
      GoKeepsInv(s, step.thread);
    } else {
      var s' := Next(s, step);
      forall c | 0 <= c < |s'.clients| ensures ClientInv(s', c) {
        if c < |s.clients| { assert ClientInv(s, c); }
      }
      forall t | 0 <= t < |s'.threads| ensures ThreadInv(s', t) {
        if t < |s.threads| { assert ThreadInv(s, t); }
      }
    }
  }

  lemma {:induction false} GoKeepsInv(s: State, t: nat)
    requires Inv(s) && CanGo(s, t)
    ensures Inv(Next(s, Go(t)))
  {
    var s', mine := Next(s, Go(t)), s.threads[t].client;
    forall c | 0 <= c < |s'.clients| ensures ClientInv(s', c) {
      GoKeepsClient(s, t, c);
    }
    forall u | 0 <= u < |s'.threads| ensures ThreadInv(s', u) {
      GoKeepsThread(s, t, u);
    }
  }

  /** The invariant between a client and one of its goroutines. */
  predicate Between(x: Client, t: nat, pc: Pc) {
    && (x.closedBy == None ==> x.chan == [] && x.unregister == [] && x.conn == [])
    && (if Owns(pc) then x.closedBy == Some(t) && DoneBy(x, t, pc) else x.closedBy != Some(t))
    && (Holds(pc) <==> x.lock == Some(t))
    && (pc == Returned ==> x.closedBy.Some?)
  }

  lemma {:induction false} ActKeeps(x: Client, t: nat, pc: Pc)
    requires Between(x, t, pc) && (pc == Entered ==> x.lock == None)
    ensures var r := Act(x, t, pc);
            && Between(r.1, t, r.0) && r.1.key == x.key
            && (x.closedBy.Some? ==> r.1.closedBy == x.closedBy)
            && (x.closedBy.Some? && x.closedBy != Some(t) ==>
                  r.1.chan == x.chan && r.1.unregister == x.unregister && r.1.conn == x.conn)
            && (x.lock.Some? && x.lock != Some(t) ==> r.1.lock == x.lock)
            && (r.1.unregister != x.unregister ==> pc == ChanClosed)
  {
  }

  lemma {:induction false} BetweenHolds(s: State, t: nat)
    requires t < |s.threads| && ThreadInv(s, t) && ClientInv(s, s.threads[t].client)
    ensures Between(s.clients[s.threads[t].client], t, s.threads[t].pc)
  {
  }

  lemma {:induction false} GoKeepsClient(s: State, t: nat, c: nat)
    requires CanGo(s, t) && c < |s.clients| && ClientInv(s, c) && ThreadInv(s, t)
    ensures |Next(s, Go(t)).clients| == |s.clients| && ClientInv(Next(s, Go(t)), c)
  {
    if s.threads[t].client == c {
      BetweenHolds(s, t);
      ActKeeps(s.clients[c], t, s.threads[t].pc);
    }
  }

  lemma {:induction false} GoKeepsThread(s: State, t: nat, u: nat)
    requires CanGo(s, t) && u < |s.threads| && ThreadInv(s, t) && ThreadInv(s, u) && ClientInv(s, s.threads[t].client)
    ensures |Next(s, Go(t)).threads| == |s.threads| && ThreadInv(Next(s, Go(t)), u)
  {
    BetweenHolds(s, t);
    ActKeeps(s.clients[s.threads[t].client], t, s.threads[t].pc);
  }

  lemma {:induction false} RunKeepsInv(steps: seq<Step>)
    requires Run(steps).Some?
    ensures Inv(Run(steps).value)
  {
    if steps != [] {
      RunKeepsInv(steps[..|steps| - 1]);
      StepKeepsInv(Run(steps[..|steps| - 1]).value, steps[|steps| - 1]);
    }
  }

  /** Over every interleaving: a client's channel close, unregistration and
      connection close run at most once, only by the goroutine that set closed,
      and in that order. */
  lemma {:induction false} CloseRunsOnce(steps: seq<Step>, c: nat)
    requires Run(steps).Some? && c < |Run(steps).value.clients|
    ensures var x := Run(steps).value.clients[c];
            && (forall t :: t in x.chan + x.unregister + x.conn ==> x.closedBy == Some(t))
            && |x.conn| <= |x.unregister| <= |x.chan| <= 1
  {
    RunKeepsInv(steps);
    assert ClientInv(Run(steps).value, c);
  }

  // ----- and in the end -----

  predicate Ended(pc: Pc) { pc == ConnClosed || pc == Returned }

  /** Once every Close that was called on a client has ended, and one was, its channel
      and its connection are closed and it is unregistered, each exactly once. */
  lemma {:induction false} CloseCompletes(steps: seq<Step>, c: nat, t: nat)
    requires Run(steps).Some? && t < |Run(steps).value.threads| && Run(steps).value.threads[t].client == c
    requires forall u :: 0 <= u < |Run(steps).value.threads| && Run(steps).value.threads[u].client == c ==>
               Ended(Run(steps).value.threads[u].pc)
    ensures c < |Run(steps).value.clients|
    ensures var x := Run(steps).value.clients[c];
            |x.chan| == 1 && x.unregister == x.chan && x.conn == x.chan && x.lock == None
  {
    RunKeepsInv(steps);
    var s := Run(steps).value;
    assert ThreadInv(s, t);
    assert ClientInv(s, c);
  }

  /** No Close waits for ever: until it has ended, it or the goroutine that holds
      the lock it waits for can take a step, */
  lemma {:induction false} SomeoneGoes(steps: seq<Step>, t: nat)
    requires Run(steps).Some? && t < |Run(steps).value.threads| && !Ended(Run(steps).value.threads[t].pc)
    ensures var s := Run(steps).value;
            exists u: nat :: CanGo(s, u) && s.threads[u].client == s.threads[t].client
  {
    RunKeepsInv(steps);
    var s := Run(steps).value;
    var c := s.threads[t].client;
    assert ThreadInv(s, t);
    assert ClientInv(s, c);
    if s.threads[t].pc == Entered && s.clients[c].lock.Some? {
      assert CanGo(s, s.clients[c].lock.value);
    } else {
      assert CanGo(s, t);
    }
  }

  function Goes(steps: seq<Step>, t: nat): nat {
    if steps == [] then 0 else Goes(steps[..|steps| - 1], t) + (if steps[|steps| - 1] == Go(t) then 1 else 0)
  }

  function Left(pc: Pc): nat {
    match pc
    case Entered => 6
    case Locked => 5
    case Marked => 4
    case Released => 3
    case ChanClosed => 2
    case Unregistered => 1
    case ConnClosed => 0
    case Returned => 0
  }

  lemma {:induction false} StepLeft(s: State, step: Step, t: nat)
    requires Enabled(s, step)
    ensures |s.threads| <= |Next(s, step).threads| && (step == Go(t) ==> t < |s.threads|)
    ensures t < |s.threads| ==>
              Left(Next(s, step).threads[t].pc) <= Left(s.threads[t].pc) - (if step == Go(t) then 1 else 0)
    ensures t < |Next(s, step).threads| ==> Left(Next(s, step).threads[t].pc) <= 6
  {
  }

  /** and each takes at most six. */
  lemma {:induction false} SixSteps(steps: seq<Step>, t: nat)
    requires Run(steps).Some?
    ensures Goes(steps, t) <= 6
    ensures t < |Run(steps).value.threads| ==> Goes(steps, t) + Left(Run(steps).value.threads[t].pc) <= 6
    ensures t >= |Run(steps).value.threads| ==> Goes(steps, t) == 0
  {
    hide Enabled, Next, Left;
    if steps != [] {
      var init, last := steps[..|steps| - 1], steps[|steps| - 1];
      SixSteps(init, t);
      StepLeft(Run(init).value, last, t);
    }
  }

  /** GetClient never returns a client whose own unregistration has run. */
  lemma {:induction false} RegistryHasNoUnregistered(steps: seq<Step>, key: string)
    requires Run(steps).Some? && GetClient(Run(steps).value, key).Some?
    ensures var s := Run(steps).value; var c := GetClient(s, key).value;
            c < |s.clients| && s.clients[c].key == key && s.clients[c].unregister == []
  {
    RunKeepsInv(steps);
  }

  // ----- how long a registration lasts -----

  /** The step registers under key, or unregisters some client of that key. */
  predicate Disturbs(s: State, step: Step, key: string) {
    match step
    case Serve(k) => k == key
    case CallClose(_) => false
    case Go(t) =>
      t < |s.threads| && s.threads[t].pc == ChanClosed && s.threads[t].client < |s.clients|
          && s.clients[s.threads[t].client].key == key
  }

  lemma {:induction false} NextClients(s: State, step: Step)
    requires Enabled(s, step)
    ensures |s.clients| <= |Next(s, step).clients|
  {
  }

  lemma {:induction false} RunPrefix(steps: seq<Step>, n: nat)
    requires Run(steps).Some? && n <= |steps|
    ensures Run(steps[..n]).Some? && |Run(steps[..n]).value.clients| <= |Run(steps).value.clients|
  {
    hide Next, Enabled;
    if n == |steps| {
      assert steps[..n] == steps;
    } else {
      var m := |steps| - 1;
      assert steps[..m][..n] == steps[..n];
      RunPrefix(steps[..m], n);
      NextClients(Run(steps[..m]).value, steps[m]);
    }
  }

  /** A client registered by step n is still the one its key maps to exactly when
      no later step registers the key again or unregisters any client of it. */
  lemma {:induction false} RegistrationLasts(steps: seq<Step>, n: nat)
    requires n < |steps| && steps[n].Serve? && Run(steps).Some? && Run(steps[..n]).Some?
    ensures var mine := |Run(steps[..n]).value.clients|;
            GetClient(Run(steps).value, steps[n].key) == Some(mine)
            <==> LeftAlone(steps, n, steps[n].key)
    decreases |steps|
  {
    var last, key := |steps| - 1, steps[n].key;
    var init := steps[..last];
    var mine := |Run(steps[..n]).value.clients|;
    assert init[..n] == steps[..n];
    if n < last {
      RegistrationLasts(init, n);
      KnownClient(init, n);
      LastStep(Run(init).value, steps[last], key, mine);
      Undisturbed(steps, n, key);
    }
  }

  ghost predicate LeftAlone(steps: seq<Step>, n: nat, key: string) {
    forall m :: n < m < |steps| ==> Run(steps[..m]).Some? && !Disturbs(Run(steps[..m]).value, steps[m], key)
  }

  lemma {:induction false} KnownClient(steps: seq<Step>, n: nat)
    requires n < |steps| && steps[n].Serve? && Run(steps).Some? && Run(steps[..n]).Some?
    ensures |Run(steps[..n]).value.clients| < |Run(steps).value.clients|
  {
    RunPrefix(steps, n + 1);
    assert steps[..n + 1][..n] == steps[..n];
  }

  lemma {:induction false} Undisturbed(steps: seq<Step>, n: nat, key: string)
    requires n < |steps| - 1 && Run(steps).Some?
    ensures var init := steps[..|steps| - 1];
            LeftAlone(steps, n, key) <==> LeftAlone(init, n, key) && !Disturbs(Run(init).value, steps[|steps| - 1], key)
  {
    hide Run, Disturbs;
    var init := steps[..|steps| - 1];
    InitRuns(steps);
    assert forall m :: 0 <= m < |init| ==> init[..m] == steps[..m] && init[m] == steps[m];
  }

  lemma {:induction false} InitRuns(steps: seq<Step>)
    requires steps != [] && Run(steps).Some?
    ensures Run(steps[..|steps| - 1]).Some?
  {
  }

  lemma {:induction false} LastStep(s: State, step: Step, key: string, mine: nat)
    requires Enabled(s, step) && mine < |s.clients|
    ensures GetClient(Next(s, step), key) == Some(mine) <==> GetClient(s, key) == Some(mine) && !Disturbs(s, step, key)
  {
  }

  /** So a reconnected client is lost when its predecessor's Close gets to
      unregister, though nobody has closed it. */
  lemma {:induction false} PredecessorUnregistersSuccessor(key: string)
    ensures var steps := Reconnect(key);
            && Run(steps[..7]).Some? && GetClient(Run(steps[..7]).value, key) == Some(1)
            && Run(steps).Some? && GetClient(Run(steps).value, key) == None
            && |Run(steps).value.clients| == 2 && Run(steps).value.clients[1].closedBy == None
  {
    var steps := Reconnect(key);
    TwoConnections(key);
    FirstMarks(steps, key);
    FirstCloses(steps, key);
    RunNext(steps, 7);
    assert steps[..8] == steps;
  }

  /** Two connections of one key, then the first one's Close up to its unregistration. */
  function Reconnect(key: string): seq<Step> {
    [Serve(key), Serve(key), CallClose(0), Go(0), Go(0), Go(0), Go(0), Go(0)]
  }

  function Opened(key: string): Client { Client(key, None, None, [], [], []) }

  lemma {:induction false} TwoConnections(key: string)
    ensures Run(Reconnect(key)[..3]) == Some(State([Opened(key), Opened(key)], map[key := 1], [Thread(0, Entered)]))
  {
    var steps, x := Reconnect(key), Opened(key);
    RunNext(steps, 0);
    RunNext(steps, 1);
    RunNext(steps, 2);
    var s2 := State([x, x], map[key := 1], []);
    assert Next(Next(START, Serve(key)), Serve(key)) == s2;
    assert Next(s2, CallClose(0)) == s2.(threads := [Thread(0, Entered)]);
  }

  /** The first connection, closed by its only goroutine, which stands at pc. */
  function Closing(key: string, x: Client, pc: Pc): Option<State> {
    Some(State([x, Opened(key)], map[key := 1], [Thread(0, pc)]))
  }

  lemma {:induction false} FirstMarks(steps: seq<Step>, key: string)
    requires |steps| >= 7 && steps[3] == Go(0) && steps[4] == Go(0)
    requires Run(steps[..3]) == Closing(key, Opened(key), Entered)
    ensures Run(steps[..5]) == Closing(key, Opened(key).(lock := Some(0), closedBy := Some(0)), Marked)
  {
    GoAlone(steps, 3, Opened(key), key, Entered);
    GoAlone(steps, 4, Opened(key).(lock := Some(0)), key, Locked);
  }

  lemma {:induction false} FirstCloses(steps: seq<Step>, key: string)
    requires |steps| >= 7 && steps[5] == Go(0) && steps[6] == Go(0)
    requires Run(steps[..5]) == Closing(key, Opened(key).(lock := Some(0), closedBy := Some(0)), Marked)
    ensures Run(steps[..7]) == Closing(key, Opened(key).(closedBy := Some(0), chan := [0]), ChanClosed)
  {
    assert Opened(key).chan + [0] == [0];
    GoAlone(steps, 5, Opened(key).(lock := Some(0), closedBy := Some(0)), key, Marked);
    GoAlone(steps, 6, Opened(key).(closedBy := Some(0)), key, Released);
  }

  lemma {:induction false} GoAlone(steps: seq<Step>, n: nat, x: Client, key: string, pc: Pc)
    requires n < |steps| && steps[n] == Go(0)
    requires pc != ConnClosed && pc != Returned && pc != ChanClosed && (pc == Entered ==> x.lock == None)
    requires Run(steps[..n]) == Closing(key, x, pc)
    ensures Run(steps[..n + 1]) == Closing(key, Act(x, 0, pc).1, Act(x, 0, pc).0)
  {
    RunNext(steps, n);
    var s := State([x, Opened(key)], map[key := 1], [Thread(0, pc)]);
    assert CanGo(s, 0);
    assert Next(s, Go(0)) == State([Act(x, 0, pc).1, Opened(key)], map[key := 1], [Thread(0, Act(x, 0, pc).0)]);
  }

  lemma {:induction false} RunNext(steps: seq<Step>, n: nat)
    requires n < |steps|
    ensures n == 0 ==> Run(steps[..n]) == Some(START)
    ensures Run(steps[..n]).Some? && Enabled(Run(steps[..n]).value, steps[n]) ==>
              Run(steps[..n + 1]) == Some(Next(Run(steps[..n]).value, steps[n]))
  {
    assert steps[..n + 1][..n] == steps[..n];
  }
}
