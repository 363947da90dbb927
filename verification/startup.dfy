/** What `Bench.run` leaves behind: the exact state after the initial fan-out,
    and the proof that it satisfies the scheduler invariant, so that the
    invariant holds after `run()` followed by any sequence of callbacks. */
module Startup {
  import opened Options
  import opened Results
  import opened Scheduler
  import opened Invariant

  /** The agent map after dispatching agents 0 .. k-1 once each. */
  function IdMap(k: nat): (m: map<nat, nat>)
    ensures forall a: nat :: a in m <==> a < k
    ensures forall a :: a in m ==> m[a] == a
  {
    if k == 0 then map[] else IdMap(k - 1)[k - 1 := k - 1]
  }

  /** The request ids 0 .. k-1. */
  function IdSet(k: nat): (ids: set<nat>)
    ensures forall i: nat :: i in ids <==> i < k
  {
    if k == 0 then {} else IdSet(k - 1) + {k - 1}
  }

  /** How many times the fan-out loop has called `stop` after k dispatches
      against the given budget: once for each dispatch count that is at least
      the budget (and at least 1). */
  function FanOutStops(budget: int, k: nat): nat
  {
    if k >= Max(budget, 1) then k - Max(budget, 1) + 1 else 0
  }

  /** A state in which nothing has been dispatched yet and the stop timer is
      either absent or armed: the state `run` starts its loop from. */
  ghost predicate Fresh(s: Bench)
  {
    && s.results == [] && s.active == map[] && s.queriesMade == 0 && !s.stopped
    && s.waiters == [] && s.stopCalls == 0 && s.doneCalls == 0
    && (s.stopCall == None || s.stopCall == Some(Armed))
  }

  /** The state after the fan-out loop has dispatched agents 0 .. k-1 from a
      fresh state whose timer was `timer`: k started records, agent a owning
      request a, one `stop` per dispatch from the budget-reaching one on, and
      the j-th drain waiting on requests 0 .. Max(budget,1)+j-1. */
  ghost predicate FannedOut(s: Bench, k: nat, timer: Option<Timer>)
  {
    && |s.results| == k && s.queriesMade == k
    && (forall i :: 0 <= i < k ==> s.results[i] == Started)
    && s.active == IdMap(k)
    && s.stopCalls == FanOutStops(s.requests, k)
    && s.stopped == (s.stopCalls > 0)
    && s.doneCalls == 0
    && |s.waiters| == s.stopCalls
    && (forall j :: 0 <= j < |s.waiters| ==> s.waiters[j] == IdSet(Max(s.requests, 1) + j))
    && s.stopCall == (if timer == Some(Armed) && s.stopped then Some(Cancelled) else timer)
  }

  lemma IdMapValues(k: nat)
    ensures IdMap(k).Values == IdSet(k)
  {
    forall i | i in IdSet(k)
      ensures i in IdMap(k).Values
    {
      assert IdMap(k)[i] == i;
    }
  }

  /** One more iteration of the fan-out loop, on agent k. */
  lemma FanOutStep(s: Bench, k: nat, timer: Option<Timer>)
    requires FannedOut(s, k, timer)
    requires timer == None || timer == Some(Armed)
    ensures FannedOut(Dispatch(s, k), k + 1, timer)
  {
    var r := Dispatch(s, k);
    assert r.active == IdMap(k + 1);
    if k + 1 >= s.requests {
      IdMapValues(k + 1);
      assert r.waiters == s.waiters + [IdSet(k + 1)];
      assert Max(s.requests, 1) + |s.waiters| == k + 1;
    }
  }

  /** The loop over `AgentIds(k)` from a fresh state, one dispatch at a time. */
  lemma {:induction false} FanOutProgress(s0: Bench, k: nat)
    requires Fresh(s0)
    ensures FannedOut(DispatchEach(s0, AgentIds(k)), k, s0.stopCall)
    decreases k
  {
    var ids := AgentIds(k);
    if k == 0 {
      assert ids == [];
    } else {
      assert ids[..k - 1] == AgentIds(k - 1);
      FanOutProgress(s0, k - 1);
      FanOutStep(DispatchEach(s0, AgentIds(k - 1)), k - 1, s0.stopCall);
    }
  }

  /** The state `run()` leaves on a freshly constructed `Bench`: the budget is
      5000 under a time limit, every agent has been dispatched, and `stop` has
      run once per dispatch from the budget-reaching one on. */
  lemma RunFannedOut(requests: int, concurrency: int, timelimit: Option<int>)
    ensures var s := Run(Init(requests, concurrency, timelimit));
            && s.requests == Budget(requests, timelimit)
            && s.agents == Max(concurrency, 0)
            && s.timelimit == timelimit
            && FannedOut(s, s.agents, if Truthy(timelimit) then Some(Armed) else None)
  {
    var s := Init(requests, concurrency, timelimit);
    var armed := Arm(s);
    var f := DispatchEach(armed, AgentIds(s.agents));
    FanOutProgress(armed, s.agents);
    assert MakeRequests(armed, AgentIds(s.agents)) == f;
    forall w | w in f.waiters
      ensures !Drained(f.results, w)
    {
      var j :| 0 <= j < |f.waiters| && f.waiters[j] == w;
      assert 0 in w;
    }
    assert Run(s) == Settle(f);
  }

  /** A fanned-out state over all agents, with the budget and timer `run`
      installs, satisfies the scheduler invariant. */
  lemma FannedOutValid(s: Bench)
    requires FannedOut(s, s.agents, if Truthy(s.timelimit) then Some(Armed) else None)
    requires s.requests == Budget(s.requests, s.timelimit)
    ensures Valid(s)
  {
    forall i | 0 <= i < |s.results| && !s.results[i].finished
      ensures i in s.active.Values
    {
      assert s.active[i] == i;
    }
    assert Tracked(s);
    assert Budgeted(s);
    forall w, i | w in s.waiters && i in w
      ensures i < |s.results|
    {
      var j :| 0 <= j < |s.waiters| && s.waiters[j] == w;
    }
    assert Registered(s);
    forall w | w in s.waiters
      ensures !Drained(s.results, w)
    {
      var j :| 0 <= j < |s.waiters| && s.waiters[j] == w;
      assert 0 in w;
    }
  }

  /** `run()` establishes the scheduler invariant. */
  lemma RunValid(requests: int, concurrency: int, timelimit: Option<int>)
    ensures Valid(Run(Init(requests, concurrency, timelimit)))
  {
    RunFannedOut(requests, concurrency, timelimit);
    FannedOutValid(Run(Init(requests, concurrency, timelimit)));
  }

  /** The invariant holds after `run()` and any sequence of callbacks. */
  lemma TraceValid(requests: int, concurrency: int, timelimit: Option<int>, events: seq<Event>)
    ensures Valid(Trace(requests, concurrency, timelimit, events))
  {
    RunValid(requests, concurrency, timelimit);
    StepsValid(Run(Init(requests, concurrency, timelimit)), events);
  }

}
