/** The fan-out as evidently intended: `_makeRequests` tests `Stopped` before
    every dispatch, not only on entry, so the budget-reaching dispatch is the
    last one. Completions and the timer are unchanged (a single-agent call
    already tests `Stopped` first), so every callback lemma of the scheduler
    applies to runs started this way. */
module Corrected {
  import opened Options
  import opened Results
  import opened Scheduler
  import opened Invariant
  import opened Startup
  import opened Drain

  /** The `for agent in agents` loop with the `Stopped` test inside it. */
  function GuardedMakeRequests(s: Bench, agents: seq<nat>): (r: Bench)
    ensures s.stopped ==> r == s
    ensures r.queriesMade <= s.queriesMade + |agents|
    ensures !r.stopped ==> r.queriesMade == s.queriesMade + |agents| && r.stopCalls == s.stopCalls
    ensures r.stopCalls <= s.stopCalls + 1
    ensures r.requests == s.requests && r.agents == s.agents && r.timelimit == s.timelimit
    decreases |agents|
  {
    if agents == [] then s
    else
      var before := GuardedMakeRequests(s, agents[..|agents| - 1]);
      if before.stopped then before else Dispatch(before, agents[|agents| - 1])
  }

  /** `Bench.run` with the guarded loop. */
  function CorrectedRun(s: Bench): (r: Bench)
    ensures r.requests == Budget(s.requests, s.timelimit)
    ensures r.agents == s.agents && r.timelimit == s.timelimit
  {
    Settle(GuardedMakeRequests(Arm(s), AgentIds(s.agents)))
  }

  /** The state after the guarded loop has gone through agents 0 .. k-1 from a
      fresh state: min(k, Max(budget,1)) requests dispatched, and one `stop`
      with one drain over all of them once the budget was reached. */
  ghost predicate GuardedFannedOut(s: Bench, k: nat, timer: Option<Timer>)
  {
    var limit := Max(s.requests, 1);
    var sent := Min(k, limit);
    && |s.results| == sent && s.queriesMade == sent
    && (forall i :: 0 <= i < sent ==> s.results[i] == Started)
    && s.active == IdMap(sent)
    && s.stopped == (k >= limit)
    && s.stopCalls == (if k >= limit then 1 else 0)
    && s.waiters == (if k >= limit then [IdSet(limit)] else [])
    && s.doneCalls == 0
    && s.stopCall == (if timer == Some(Armed) && s.stopped then Some(Cancelled) else timer)
  }

  lemma GuardedStep(s: Bench, k: nat, timer: Option<Timer>)
    requires GuardedFannedOut(s, k, timer)
    requires timer == None || timer == Some(Armed)
    requires !s.stopped
    ensures GuardedFannedOut(Dispatch(s, k), k + 1, timer)
  {
    var r := Dispatch(s, k);
    assert r.active == IdMap(k + 1);
    if k + 1 >= s.requests {
      IdMapValues(k + 1);
    }
  }

  lemma {:induction false} GuardedProgress(s0: Bench, k: nat)
    requires Fresh(s0)
    ensures GuardedFannedOut(GuardedMakeRequests(s0, AgentIds(k)), k, s0.stopCall)
    decreases k
  {
    var ids := AgentIds(k);
    if k == 0 {
      assert ids == [];
    } else {
      assert ids[..k - 1] == AgentIds(k - 1);
      GuardedProgress(s0, k - 1);
      var before := GuardedMakeRequests(s0, AgentIds(k - 1));
      if !before.stopped {
        GuardedStep(before, k - 1, s0.stopCall);
      }
    }
  }

  /** The guarded fan-out dispatches min(concurrency, Max(budget,1)) requests
      and calls `stop` once if it reached the budget, never more. */
  lemma CorrectedFanOut(requests: int, concurrency: int, timelimit: Option<int>)
    ensures var s := CorrectedRun(Init(requests, concurrency, timelimit));
            var limit := Max(Budget(requests, timelimit), 1);
            && s.agents == Max(concurrency, 0)
            && s.timelimit == timelimit
            && GuardedFannedOut(s, s.agents, if Truthy(timelimit) then Some(Armed) else None)
            && s.queriesMade == Min(Max(concurrency, 0), limit)
            && s.stopCalls == (if concurrency >= limit then 1 else 0)
  {
    var s := Init(requests, concurrency, timelimit);
    var f := GuardedMakeRequests(Arm(s), AgentIds(s.agents));
    GuardedProgress(Arm(s), s.agents);
    if f.waiters != [] {
      assert 0 in f.waiters[0];
    }
    assert forall w :: w in f.waiters ==> !Drained(f.results, w);
  }

  /** The guarded fan-out leaves a valid state in which the drain, if any,
      covers every request in flight. */
  lemma CorrectedStart(requests: int, concurrency: int, timelimit: Option<int>)
    ensures var s := CorrectedRun(Init(requests, concurrency, timelimit));
            Valid(s) && ResolvesAfterDrain(s) && s.queriesMade <= Max(s.requests, 1)
  {
    CorrectedFanOut(requests, concurrency, timelimit);
    var s := CorrectedRun(Init(requests, concurrency, timelimit));
    forall i | 0 <= i < |s.results| && !s.results[i].finished
      ensures i in s.active.Values
    {
      assert s.active[i] == i;
    }
    assert Tracked(s);
    assert Budgeted(s);
    assert Registered(s);
    if s.waiters != [] {
      assert 0 in s.waiters[0];
    }
    assert Settled(s);
  }

  /** After a guarded start, callbacks never push the count past the budget. */
  lemma {:induction false} StepsKeepBudget(s: Bench, events: seq<Event>)
    requires Valid(s) && s.queriesMade <= Max(s.requests, 1)
    ensures var r := Steps(s, events); r.queriesMade <= Max(r.requests, 1)
    decreases |events|
  {
    if events != [] {
      var e := events[0];
      match e {
        case Completed(agent, code) =>
          assert Busy(s, agent) && !s.stopped ==> s.queriesMade > 0;
        case TimerFired =>
      }
      StepValid(s, e);
      StepsKeepBudget(Step(s, e), events[1..]);
    }
  }

  /** The state after a guarded `run()` and any callbacks. */
  function CorrectedTrace(requests: int, concurrency: int, timelimit: Option<int>, events: seq<Event>): Bench
  {
    Steps(CorrectedRun(Init(requests, concurrency, timelimit)), events)
  }

  /** With the guard, over any order of callbacks: `stop` runs at most once,
      the run's deferred is resolved at most once and only when nothing is in
      flight, and once nothing is in flight (with at least one agent) it has
      been resolved exactly once. The count never passes the budget. */
  lemma CorrectedResolvesOnce(requests: int, concurrency: int, timelimit: Option<int>, events: seq<Event>)
    ensures var s := CorrectedTrace(requests, concurrency, timelimit, events);
            && s.stopCalls <= 1
            && s.doneCalls <= 1
            && (s.doneCalls > 0 ==> Quiescent(s))
            && (Quiescent(s) && concurrency >= 1 ==> s.doneCalls == 1)
            && s.queriesMade <= Max(Budget(requests, timelimit), 1)
  {
    var s0 := CorrectedRun(Init(requests, concurrency, timelimit));
    var s := CorrectedTrace(requests, concurrency, timelimit, events);
    CorrectedStart(requests, concurrency, timelimit);
    StepsValid(s0, events);
    StepsKeep(s0, events);
    StepsKeepBudget(s0, events);
    if Quiescent(s) && concurrency >= 1 {
      assert !s.stopped ==> Busy(s, 0);
      assert forall w :: w in s.waiters ==> Drained(s.results, w);
      assert s.waiters == Pending(s.results, s.waiters) == [];
    }
  }

  /** Without a time limit, once nothing is in flight the guarded run has
      dispatched exactly `requests` requests, whatever the concurrency. */
  lemma CorrectedBudgetExact(requests: int, concurrency: int, events: seq<Event>)
    requires requests >= 1 && concurrency >= 1
    requires Quiescent(CorrectedTrace(requests, concurrency, None, events))
    ensures var s := CorrectedTrace(requests, concurrency, None, events);
            s.queriesMade == requests && |s.results| == requests
  {
    var s0 := CorrectedRun(Init(requests, concurrency, None));
    var s := CorrectedTrace(requests, concurrency, None, events);
    CorrectedStart(requests, concurrency, None);
    StepsValid(s0, events);
    StepsKeepBudget(s0, events);
    assert !s.stopped ==> Busy(s, 0);
  }

}
