/** Writing a snapshot into a sink (store/raft/fsm_snapshot.go). */
module Persist {
  import opened Results
  import opened Fsm

  datatype Outcome = Open | Closed | Cancelled

  /** A sink keeps what was written once it is closed, and drops it when cancelled. */
  class Sink {
    var records: Db
    var outcome: Outcome

    constructor ()
      ensures records == map[] && outcome == Open
    {
      records := map[];
      outcome := Open;
    }

    method Close(works: bool) returns (ok: bool)
      modifies this`outcome
      ensures ok == works && outcome == if works then Closed else old(outcome)
    {
      ok := works;
      if works {
        outcome := Closed;
      }
    }

    method Cancel(works: bool) returns (ok: bool)
      modifies this`outcome
      ensures ok == works && outcome == if works then Cancelled else old(outcome)
    {
      ok := works;
      if works {
        outcome := Cancelled;
      }
    }
  }

  /** The keys a backup writes: all, or those before the error that stopped it. */
  function Reached(store: Db, stopped: Option<set<string>>): Db {
    if stopped == None then store else Within(store, stopped.value)
  }

  /** As written: a complete backup leaves the sink for its owner to close, and
      a backup that stopped is closed, so it is kept as if complete and reported
      as a success, unless closing fails too. */
  method Write(store: Db, sink: Sink, stopped: Option<set<string>>, closes: bool, cancels: bool) returns (failed: bool)
    requires sink.outcome == Open && sink.records == map[]
    modifies sink
    ensures sink.records == Reached(store, stopped)
    ensures failed <==> stopped.Some? && !closes
    ensures sink.outcome == if stopped == None then Open else if closes then Closed else if cancels then Cancelled
        else Open
  {
    sink.records := Reached(store, stopped);
    if stopped == None {
      failed := false;
    } else {
      var closed := sink.Close(closes);
      failed := !closed;
    }
    if failed {
      var _ := sink.Cancel(cancels);
    }
  }
}
