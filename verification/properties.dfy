/** Properties of the scheduler over any order of completions and timer
    events after `run()`: the dispatch budget, how often `stop` and `_done`
    run, what a stop freezes, the concurrency bound, and the time limit. */
module Properties {
  import opened Options
  import opened Scheduler
  import opened Invariant
  import opened Startup

  /** The requests in flight. */
  function InFlight(s: Bench): set<nat>
  {
    set i: nat | i < |s.results| && !s.results[i].finished
  }

  /** Every dispatch appends exactly one record and counts one query, so the
      result list is always as long as the query count. */
  lemma ResultsMatchQueries(requests: int, concurrency: int, timelimit: Option<int>, events: seq<Event>)
    ensures |Trace(requests, concurrency, timelimit, events).results|
            == Trace(requests, concurrency, timelimit, events).queriesMade
  {
    TraceValid(requests, concurrency, timelimit, events);
  }

  /** A callback on a valid state: `stop` runs in it at most once, and only
      when it is the callback that sets `Stopped`; `Stopped` is never reset. */
  lemma StepStopCalls(s: Bench, e: Event)
    requires Valid(s)
    ensures var r := Step(s, e);
            && (s.stopped ==> r.stopped)
            && r.stopCalls == s.stopCalls + (if !s.stopped && r.stopped then 1 else 0)
  {
    match e
    case Completed(agent, code) =>
      if Busy(s, agent) && !s.stopped {
        CompleteUnfold(s, agent, code);
      }
    case TimerFired =>
  }

  /** Once stopped, no callback dispatches: the query count, the record list's
      length, the agent map and the number of `stop` calls stay as they are,
      and `Stopped` stays set. */
  lemma {:induction false} StoppedIsFinal(s: Bench, events: seq<Event>)
    requires Valid(s) && s.stopped
    ensures var r := Steps(s, events);
            && r.stopped
            && r.queriesMade == s.queriesMade
            && |r.results| == |s.results|
            && r.active == s.active
            && r.stopCalls == s.stopCalls
    decreases |events|
  {
    if events != [] {
      var next := Step(s, events[0]);
      StepValid(s, events[0]);
      StepStopCalls(s, events[0]);
      assert next.queriesMade == s.queriesMade && |next.results| == |s.results| && next.active == s.active;
      StoppedIsFinal(next, events[1..]);
    }
  }

  /** A record is never changed again once `done` has been called on it, and
      records are only ever appended. */
  lemma {:induction false} FinishedRecordsFixed(s: Bench, events: seq<Event>)
    ensures var r := Steps(s, events);
            && |r.results| >= |s.results|
            && forall i :: 0 <= i < |s.results| && s.results[i].finished ==> r.results[i] == s.results[i]
    decreases |events|
  {
    if events != [] {
      FinishedRecordsFixed(Step(s, events[0]), events[1..]);
    }
  }

  /** How many times `stop` has run after `run()` and any callbacks: the
      fan-out's count, or exactly one if the fan-out did not stop and
      something later did. */
  lemma {:induction false} StopsAfterRun(s: Bench, events: seq<Event>, fanOut: nat)
    requires Valid(s)
    requires fanOut > 0 ==> s.stopped
    requires s.stopCalls == (if s.stopped then Max(fanOut, 1) else 0)
    ensures var r := Steps(s, events);
            r.stopCalls == (if r.stopped then Max(fanOut, 1) else 0)
    decreases |events|
  {
    if events != [] {
      StepValid(s, events[0]);
      StepStopCalls(s, events[0]);
      StopsAfterRun(Step(s, events[0]), events[1..], fanOut);
    }
  }

  /** The exact number of `stop` calls in any run: the fan-out calls it once
      for every dispatch from the budget-reaching one on; if that was none,
      it is called exactly once more when the run stops (by the budget or the
      timer), and never again. */
  lemma StopCount(requests: int, concurrency: int, timelimit: Option<int>, events: seq<Event>)
    ensures var s := Trace(requests, concurrency, timelimit, events);
            var fanOut := FanOutStops(Budget(requests, timelimit), Max(concurrency, 0));
            s.stopCalls == (if s.stopped then Max(fanOut, 1) else 0)
  {
    RunFannedOut(requests, concurrency, timelimit);
    RunValid(requests, concurrency, timelimit);
    var s0 := Run(Init(requests, concurrency, timelimit));
    StopsAfterRun(s0, events, FanOutStops(Budget(requests, timelimit), Max(concurrency, 0)));
  }

  /** Once nothing is in flight, every registered drain has fired, so `_done`
      has run once per `stop` call; and with at least one agent the run has
      stopped. */
  lemma DrainComplete(s: Bench)
    requires Valid(s) && Quiescent(s)
    ensures s.waiters == []
    ensures s.doneCalls == s.stopCalls
    ensures s.agents > 0 ==> s.stopped
  {
    assert forall w :: w in s.waiters ==> Drained(s.results, w);
    assert s.waiters == Pending(s.results, s.waiters) == [];
    assert !s.stopped && s.agents > 0 ==> Busy(s, 0);
  }

  /** The total dispatched never exceeds the larger of the budget and the
      number of agents. */
  lemma DispatchBound(requests: int, concurrency: int, timelimit: Option<int>, events: seq<Event>)
    ensures Trace(requests, concurrency, timelimit, events).queriesMade
            <= Max(Budget(requests, timelimit), Max(concurrency, 0))
  {
    TraceValid(requests, concurrency, timelimit, events);
  }

  /** Without a time limit and with at least as many requests as agents, the
      run dispatches exactly `requests` requests over any completion order and
      calls `stop` once, when the last of them is dispatched; when nothing is
      left in flight, `_done` has run exactly once. */
  lemma BudgetExhausted(requests: int, concurrency: int, events: seq<Event>)
    requires 1 <= concurrency <= requests
    ensures var s := Trace(requests, concurrency, None, events);
            && s.queriesMade <= requests
            && s.stopCalls <= 1
            && (s.stopped <==> s.queriesMade == requests)
            && (Quiescent(s) ==>
                  s.queriesMade == requests && |s.results| == requests
                  && s.stopCalls == 1 && s.doneCalls == 1)
  {
    var s := Trace(requests, concurrency, None, events);
    TraceValid(requests, concurrency, None, events);
    StopCount(requests, concurrency, None, events);
    assert !s.stopped ==> Busy(s, 0);
    if Quiescent(s) {
      DrainComplete(s);
    }
  }

  /** Over a whole run (nothing left in flight, at least one agent): `stop`
      was called exactly once iff there are no more agents than the budget in
      force (at least 1), and `_done`, which resolves the run's deferred, ran
      as many times as `stop`. With `requests >= 1` and no time limit this
      reads: exactly once iff `requests >= concurrency`. */
  lemma StopOnceIff(requests: int, concurrency: int, timelimit: Option<int>, events: seq<Event>)
    requires concurrency >= 1
    requires Quiescent(Trace(requests, concurrency, timelimit, events))
    ensures var s := Trace(requests, concurrency, timelimit, events);
            && (s.stopCalls == 1 <==> concurrency <= Max(Budget(requests, timelimit), 1))
            && s.doneCalls == s.stopCalls
  {
    var s := Trace(requests, concurrency, timelimit, events);
    var fanOut := FanOutStops(Budget(requests, timelimit), Max(concurrency, 0));
    TraceValid(requests, concurrency, timelimit, events);
    DrainComplete(s);
    StopCount(requests, concurrency, timelimit, events);
    assert s.stopCalls == Max(fanOut, 1);
    assert fanOut <= 1 <==> concurrency <= Max(Budget(requests, timelimit), 1);
  }

  /** With fewer requests than agents and no time limit, the fan-out still
      dispatches every agent, calls `stop` once per dispatch from the
      `requests`-th on, and the first drain it registers waits only on the
      first `requests` requests. */
  lemma FanOutOvershoot(requests: int, concurrency: int)
    requires 1 <= requests < concurrency
    ensures var s := Run(Init(requests, concurrency, None));
            && s.queriesMade == concurrency
            && |s.results| == concurrency
            && s.stopped
            && s.stopCalls == concurrency - requests + 1
            && |s.waiters| == concurrency - requests + 1
            && s.waiters[0] == IdSet(requests)
  {
    RunFannedOut(requests, concurrency, None);
  }

  /** With a time limit, `run` replaces the budget with 5000 and arms the stop
      timer; the fan-out cancels it only if it reached that budget itself. */
  lemma TimeLimitRun(requests: int, concurrency: int, timelimit: Option<int>)
    requires Truthy(timelimit)
    ensures var s := Run(Init(requests, concurrency, timelimit));
            && s.requests == TimeLimitBudget
            && (concurrency < TimeLimitBudget ==> s.stopCall == Some(Armed) && !s.stopped)
            && (concurrency >= TimeLimitBudget ==> s.stopCall == Some(Cancelled) && s.stopped)
  {
    RunFannedOut(requests, concurrency, timelimit);
  }

  /** Under a time limit, a stopped run has either been stopped by the timer
      (which then fired) or by the budget, which cancelled the timer; an
      armed timer means the run is still dispatching, and its firing stops
      it. Without a time limit there is no timer. */
  lemma TimerOutcome(requests: int, concurrency: int, timelimit: Option<int>, events: seq<Event>)
    ensures var s := Trace(requests, concurrency, timelimit, events);
            && (!Truthy(timelimit) ==> s.stopCall == None)
            && (Truthy(timelimit) ==>
                  && (s.stopped <==> s.stopCall == Some(Fired) || s.stopCall == Some(Cancelled))
                  && (s.stopCall == Some(Cancelled) ==> s.queriesMade >= TimeLimitBudget)
                  && (s.stopCall == Some(Armed) ==> Fire(s).stopped && Fire(s).stopCall == Some(Fired)))
  {
    var s := Trace(requests, concurrency, timelimit, events);
    TraceValid(requests, concurrency, timelimit, events);
    assert s.stopCall.Some? ==> s.stopCall.value.Armed? || s.stopCall.value.Fired? || s.stopCall.value.Cancelled?;
  }

  /** Map sizes: an injective map has as many values as keys. */
  lemma {:induction false} InjectiveValues(m: map<nat, nat>)
    requires forall a, b :: a in m && b in m && a != b ==> m[a] != m[b]
    ensures |m.Values| == |m.Keys|
    decreases |m.Keys|
  {
    if m.Keys != {} {
      var k :| k in m.Keys;
      var rest := m - {k};
      assert rest.Keys == m.Keys - {k};
      assert rest.Values == m.Values - {m[k]} by {
        forall v | v in m.Values - {m[k]}
          ensures v in rest.Values
        {
          var a :| a in m && m[a] == v;
          assert a != k && a in rest;
        }
      }
      InjectiveValues(rest);
    }
  }

  /** A set of numbers below n has at most n elements, and exactly n if it
      holds all of them. */
  lemma {:induction false} BelowBound(keys: set<nat>, n: nat)
    requires forall k :: k in keys ==> k < n
    ensures |keys| <= n
    ensures (forall k: nat :: k < n ==> k in keys) ==> |keys| == n
    decreases n
  {
    if n > 0 {
      BelowBound(keys - {n - 1}, n - 1);
    } else {
      assert keys == {};
    }
  }

  /** At most one request per agent is in flight; before the stop, exactly
      one per agent is. */
  lemma InFlightBound(s: Bench)
    requires Valid(s)
    ensures |s.active| <= s.agents
    ensures |InFlight(s)| <= s.agents
    ensures !s.stopped ==> |InFlight(s)| == s.agents
  {
    BelowBound(s.active.Keys, s.agents);
    InjectiveValues(s.active);
    assert InFlight(s) <= s.active.Values;
    assert s.active.Values == InFlight(s) + (s.active.Values - InFlight(s));
    if !s.stopped {
      forall i | i in s.active.Values
        ensures i in InFlight(s)
      {
        var a :| a in s.active && s.active[a] == i;
        assert Busy(s, a);
      }
      assert InFlight(s) == s.active.Values;
      forall a: nat | a < s.agents
        ensures a in s.active.Keys
      {
        assert Busy(s, a);
      }
    }
  }

  /** The concurrency bound over any run: never more requests in flight than
      agents, and exactly one per agent until the run stops. */
  lemma ConcurrencyBound(requests: int, concurrency: int, timelimit: Option<int>, events: seq<Event>)
    ensures var s := Trace(requests, concurrency, timelimit, events);
            && |InFlight(s)| <= Max(concurrency, 0)
            && (!s.stopped ==> |InFlight(s)| == Max(concurrency, 0))
  {
    TraceValid(requests, concurrency, timelimit, events);
    InFlightBound(Trace(requests, concurrency, timelimit, events));
  }

  /** With no request in flight on any agent and no armed timer, no callback
      can change anything. */
  lemma {:induction false} IdleSteps(s: Bench, events: seq<Event>)
    requires s.active == map[] && s.stopCall != Some(Armed)
    ensures Steps(s, events) == s
    decreases |events|
  {
    if events != [] {
      assert Step(s, events[0]) == s;
      IdleSteps(s, events[1..]);
    }
  }

  /** With no agent in `ActiveQueries`, no completion arrives, and the timer
      only stops: nothing is ever dispatched. */
  lemma {:induction false} EmptySteps(s: Bench, events: seq<Event>)
    requires s.active == map[]
    ensures var r := Steps(s, events);
            r.active == map[] && r.results == s.results && r.queriesMade == s.queriesMade
    decreases |events|
  {
    if events != [] {
      match events[0] {
        case Completed(agent, code) => assert Step(s, events[0]) == s;
        case TimerFired =>
      }
      EmptySteps(Step(s, events[0]), events[1..]);
    }
  }

  /** A run without agents sends nothing. Without a time limit it never
      stops, so its deferred is never resolved. With a time limit, the timer's
      `stop` registers a drain over no requests, which fires at once: the run
      resolves with an empty record list. */
  lemma NoAgents(requests: int, concurrency: int, timelimit: Option<int>, events: seq<Event>)
    requires concurrency <= 0
    ensures var s := Trace(requests, concurrency, timelimit, events);
            s.results == [] && s.queriesMade == 0 && s.active == map[]
    ensures !Truthy(timelimit) ==>
              var s := Trace(requests, concurrency, timelimit, events);
              s.results == [] && !s.stopped && s.stopCalls == 0 && s.doneCalls == 0
    ensures Truthy(timelimit) ==>
              var s := Trace(requests, concurrency, timelimit, [TimerFired]);
              s.results == [] && s.stopped && s.stopCalls == 1 && s.doneCalls == 1
  {
    var s0 := Run(Init(requests, concurrency, timelimit));
    RunFannedOut(requests, concurrency, timelimit);
    assert s0.active == map[] && s0.results == [];
    EmptySteps(s0, events);
    if !Truthy(timelimit) {
      IdleSteps(s0, events);
    } else {
      assert Steps(s0, [TimerFired]) == Fire(s0);
      var st := Stop(s0.(stopCall := Some(Fired)));
      IdMapValues(0);
      assert st.waiters == [IdSet(0)];
    }
  }

}
