/** When the run's deferred is resolved. `_done` resolves it; the evident
    intent is that this happens once, after every request has finished. This
    module states that as a predicate on states and proves that every
    callback preserves it; whether a run starts out satisfying it is decided
    by its fan-out. */
module Drain {
  import opened Options
  import opened Results
  import opened Scheduler
  import opened Invariant

  /** Every drain still registered waits on every request in flight. */
  ghost predicate CoversInFlight(s: Bench)
  {
    forall w, i :: w in s.waiters && 0 <= i < |s.results| && !s.results[i].finished ==> i in w
  }

  /** `stop` has run at most once, each drain still registered waits on every
      request in flight, and `_done` has only run when nothing was left in
      flight. */
  ghost predicate ResolvesAfterDrain(s: Bench)
  {
    && s.stopCalls <= 1
    && CoversInFlight(s)
    && (s.doneCalls > 0 ==> Quiescent(s))
  }

  /** Firing complete drains keeps the property: a drain that waits on every
      request in flight can only fire once nothing is in flight. */
  lemma SettleKeeps(m: Bench)
    requires CoversInFlight(m)
    requires m.doneCalls > 0 ==> Quiescent(m)
    ensures CoversInFlight(Settle(m))
    ensures Settle(m).doneCalls > 0 ==> Quiescent(Settle(m))
  {
    var r := Settle(m);
    if r.doneCalls > m.doneCalls {
      var w :| w in m.waiters && Drained(m.results, w);
      forall i | 0 <= i < |r.results|
        ensures r.results[i].finished
      {
        assert !m.results[i].finished ==> i in w;
      }
    }
  }

  /** A state whose drain was just registered over `ActiveQueries` covers
      every request in flight, by the invariant. */
  lemma FreshDrainCovers(m: Bench, w: set<nat>)
    requires Tracked(m)
    requires m.waiters == [w] && w == m.active.Values
    ensures CoversInFlight(m)
  {
  }

  lemma CompleteKeeps(s: Bench, agent: nat, code: Code)
    requires Valid(s) && ResolvesAfterDrain(s)
    ensures ResolvesAfterDrain(Complete(s, agent, code))
  {
    if Busy(s, agent) {
      var answered := Answer(s, agent, code);
      var m := MakeRequests(answered, [agent]);
      CompleteUnfold(s, agent, code);
      assert s.doneCalls == 0;
      if s.stopped {
        assert CoversInFlight(m);
      } else {
        assert s.waiters == [];
        RedispatchTracked(s, agent, code);
        if m.stopped {
          FreshDrainCovers(m, m.active.Values);
        }
      }
      SettleKeeps(m);
    }
  }

  lemma FireKeeps(s: Bench)
    requires Valid(s) && ResolvesAfterDrain(s)
    ensures ResolvesAfterDrain(Fire(s))
  {
    if s.stopCall == Some(Armed) {
      var st := Stop(s.(stopCall := Some(Fired)));
      assert s.waiters == [] && s.doneCalls == 0;
      FreshDrainCovers(st, st.active.Values);
      SettleKeeps(st);
    }
  }

  /** Every callback preserves `ResolvesAfterDrain` on a valid state. */
  lemma {:induction false} StepsKeep(s: Bench, events: seq<Event>)
    requires Valid(s) && ResolvesAfterDrain(s)
    ensures ResolvesAfterDrain(Steps(s, events))
    decreases |events|
  {
    if events != [] {
      match events[0] {
        case Completed(agent, code) => CompleteKeeps(s, agent, code);
        case TimerFired => FireKeeps(s);
      }
      StepValid(s, events[0]);
      StepsKeep(Step(s, events[0]), events[1..]);
    }
  }

}
