/** What the registry would keep if unregistering a client removed its key only
    while the key still maps to that client (service/conn/client_mgr.go removes the
    key whatever it maps to). */
module ConnChecked {
  import opened Results
  import opened Conn

  /** As the client's own Close does it, but for the check. */
  function CheckedNext(s: State, step: Step): State
    requires Enabled(s, step)
  {
    var s' := Next(s, step);
    if step.Go? && s.threads[step.thread].pc == ChanClosed then
      var c := s.threads[step.thread].client;
      var key := s.clients[c].key;
      s'.(registry := if GetClient(s, key) == Some(c) then s.registry - {key} else s.registry)
    else s'
  }

  function CheckedRun(steps: seq<Step>): Option<State> {
    if steps == [] then Some(START)
    else
      var s := CheckedRun(steps[..|steps| - 1]);
      if s.Some? && Enabled(s.value, steps[|steps| - 1]) then Some(CheckedNext(s.value, steps[|steps| - 1])) else None
  }

  /** The client is there under that key, and is the one registered exactly when
      `still` says so and its own unregistration has not run. */
  predicate StillOwn(s: State, key: string, mine: nat, still: bool) {
    && mine < |s.clients| && s.clients[mine].key == key
    && (GetClient(s, key) == Some(mine) <==> still && s.clients[mine].unregister == [])
  }

  lemma {:induction false} OwnStep(s: State, step: Step, key: string, mine: nat, still: bool)
    requires Enabled(s, step) && StillOwn(s, key, mine, still)
    ensures StillOwn(CheckedNext(s, step), key, mine, still && step != Serve(key))
  {
  }

  lemma {:induction false} Registered(s: State, key: string)
    ensures StillOwn(CheckedNext(s, Serve(key)), key, |s.clients|, true)
  {
  }

  /** With the check a client is the one its key maps to exactly until its own
      unregistration or a new registration of the key, whoever else is closed. */
  lemma {:induction false} CheckedRegistrationLasts(steps: seq<Step>, n: nat)
    requires n < |steps| && steps[n].Serve? && CheckedRun(steps).Some? && CheckedRun(steps[..n]).Some?
    ensures var s, mine := CheckedRun(steps).value, |CheckedRun(steps[..n]).value.clients|;
            && mine < |s.clients|
            && (GetClient(s, steps[n].key) == Some(mine) <==>
                  (forall m :: n < m < |steps| ==> steps[m] != Serve(steps[n].key)) && s.clients[mine].unregister == [])
  {
    OwnRun(steps, n);
  }

  ghost predicate NotServed(steps: seq<Step>, n: nat, key: string) {
    forall m :: n < m < |steps| ==> steps[m] != Serve(key)
  }

  lemma {:induction false} OwnRun(steps: seq<Step>, n: nat)
    requires n < |steps| && steps[n].Serve? && CheckedRun(steps).Some? && CheckedRun(steps[..n]).Some?
    ensures var key, mine := steps[n].key, |CheckedRun(steps[..n]).value.clients|;
            StillOwn(CheckedRun(steps).value, key, mine, NotServed(steps, n, key))
    decreases |steps|
  {
    hide CheckedNext, StillOwn, Enabled;
    var last := |steps| - 1;
    var init, key := steps[..last], steps[n].key;
    assert init[..if n < last then n else 0] == steps[..if n < last then n else 0];
    if n == last {
      Registered(CheckedRun(init).value, key);
    } else {
      OwnRun(init, n);
      OwnStep(CheckedRun(init).value, steps[last], key, |CheckedRun(steps[..n]).value.clients|, NotServed(init, n,
          key));
      assert forall m :: n < m < last ==> init[m] == steps[m];
      assert NotServed(steps, n, key) <==> NotServed(init, n, key) && steps[last] != Serve(key);
    }
  }
}
