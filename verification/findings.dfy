/** The scheduler as written resolves its run early when there are more
    agents than the budget: the fan-out keeps dispatching after `stop`, and
    the first drain registered covers only the requests sent before it. */
module Findings {
  import opened Options
  import opened Results
  import opened Scheduler
  import opened Invariant
  import opened Startup
  import opened Drain
  import opened Summary

  /** A completion once stopped: the record finishes, the drains that still
      wait on something stay, and `_done` runs if some drain has become
      complete. */
  lemma CompleteStopped(s: Bench, agent: nat, code: Code)
    requires Busy(s, agent) && s.stopped
    ensures var r := Complete(s, agent, code);
            && r.results == s.results[s.active[agent] := Result(true, code)]
            && r.active == s.active && r.stopped
            && r.queriesMade == s.queriesMade && r.stopCalls == s.stopCalls
            && (forall w :: w in s.waiters && !Drained(r.results, w) ==> w in r.waiters)
            && ((exists w :: w in s.waiters && Drained(r.results, w)) ==> r.doneCalls > s.doneCalls)
            && r.doneCalls >= s.doneCalls
  {
    CompleteUnfold(s, agent, code);
  }

  /** Status-200 completions on agents 0 .. k-1, in that order. */
  function CompleteFirst(k: nat): (events: seq<Event>)
    ensures |events| == k
    ensures forall i :: 0 <= i < k ==> events[i] == Completed(i, Status(200))
  {
    if k == 0 then [] else CompleteFirst(k - 1) + [Completed(k - 1, Status(200))]
  }

  lemma {:induction false} StepsAppend(s: Bench, events: seq<Event>, e: Event)
    ensures Steps(s, events + [e]) == Step(Steps(s, events), e)
    decreases |events|
  {
    if events != [] {
      assert (events + [e])[1..] == events[1..] + [e];
      StepsAppend(Step(s, events[0]), events[1..], e);
    }
  }

  /** After `Bench(requests, concurrency).run()` with fewer requests than
      agents and the completions of agents 0 .. k-1: still stopped with every
      agent dispatched once, requests below k finished and the rest in
      flight, and the drain over the first `requests` requests fired exactly
      when the last of them finished, and not before. */
  ghost predicate EarlyState(s: Bench, requests: nat, concurrency: nat, k: nat)
  {
    && s.stopped && s.queriesMade == concurrency
    && s.stopCalls == concurrency - requests + 1
    && |s.results| == concurrency && k <= concurrency
    && s.active == IdMap(concurrency)
    && (forall i :: 0 <= i < k ==> s.results[i].finished)
    && (forall i :: k <= i < concurrency ==> s.results[i] == Started)
    && (k < requests ==> IdSet(requests) in s.waiters)
    && (k < requests ==> s.doneCalls == 0 && forall w :: w in s.waiters ==> requests - 1 in w)
    && (k == requests ==> s.doneCalls >= 1)
  }

  /** The fanned-out state of such a run is the starting point. */
  lemma EarlyBase(s: Bench, requests: nat, concurrency: nat)
    requires 1 <= requests < concurrency
    requires s.requests == requests && s.agents == concurrency
    requires FannedOut(s, concurrency, None)
    ensures EarlyState(s, requests, concurrency, 0)
  {
    assert s.waiters[0] == IdSet(requests);
    forall w | w in s.waiters
      ensures requests - 1 in w
    {
      var j :| 0 <= j < |s.waiters| && s.waiters[j] == w;
    }
  }

  /** Agent k's completion finishes request k and fires the drain exactly
      when k is the last request it waits on. */
  lemma EarlyStep(s: Bench, requests: nat, concurrency: nat, k: nat)
    requires 1 <= requests < concurrency && k < requests
    requires EarlyState(s, requests, concurrency, k)
    ensures EarlyState(Complete(s, k, Status(200)), requests, concurrency, k + 1)
  {
    assert s.active[k] == k;
    CompleteStopped(s, k, Status(200));
    var r := Complete(s, k, Status(200));
    if k + 1 < requests {
      assert forall w :: w in s.waiters ==> !Drained(s.results[k := Result(true, Status(200))], w);
      assert k + 1 in IdSet(requests);
      assert !Drained(r.results, IdSet(requests));
    } else {
      assert Drained(r.results, IdSet(requests));
    }
  }

  lemma EarlyStart(requests: nat, concurrency: nat)
    requires 1 <= requests < concurrency
    ensures EarlyState(Run(Init(requests, concurrency, None)), requests, concurrency, 0)
  {
    RunFannedOut(requests, concurrency, None);
    EarlyBase(Run(Init(requests, concurrency, None)), requests, concurrency);
  }

  lemma {:induction false} EarlyProgress(requests: nat, concurrency: nat, k: nat)
    requires 1 <= requests < concurrency && k <= requests
    ensures EarlyState(Steps(Run(Init(requests, concurrency, None)), CompleteFirst(k)), requests, concurrency, k)
    decreases k
  {
    var s0 := Run(Init(requests, concurrency, None));
    if k == 0 {
      EarlyStart(requests, concurrency);
    } else {
      var e := Completed(k - 1, Status(200));
      var s := Steps(s0, CompleteFirst(k - 1));
      EarlyProgress(requests, concurrency, k - 1);
      StepsAppend(s0, CompleteFirst(k - 1), e);
      EarlyStep(s, requests, concurrency, k - 1);
      assert CompleteFirst(k) == CompleteFirst(k - 1) + [e];
      assert Steps(s0, CompleteFirst(k)) == Complete(s, k - 1, Status(200));
    }
  }

  /** With fewer requests than agents and no time limit, once the first
      `requests` requests have completed, `_done` has already resolved the
      run (handing the record list to `summary`) although the requests of the
      other agents are still in flight; `summary` then counts each of those
      unfinished records as an error. For `Bench(3, 5)`: five requests are
      sent, `stop` runs three times, and the run resolves when agents 0, 1
      and 2 have answered, with requests 3 and 4 outstanding. */
  lemma EarlyResolution(requests: nat, concurrency: nat)
    requires 1 <= requests < concurrency
    ensures var s := Steps(Run(Init(requests, concurrency, None)), CompleteFirst(requests));
            && s.queriesMade == concurrency
            && s.stopCalls == concurrency - requests + 1
            && s.doneCalls >= 1
            && |s.results| == concurrency
            && s.results[concurrency - 1] == Started
            && !Quiescent(s)
            && Started in Split(s.results).1
  {
    EarlyProgress(requests, concurrency, requests);
    var s := Steps(Run(Init(requests, concurrency, None)), CompleteFirst(requests));
    assert s.results[concurrency - 1] in s.results;
  }

  /** Without extra agents the as-written fan-out calls `stop` at most once,
      with a drain over every request it sent. */
  lemma FannedOutResolves(s: Bench, timer: Option<Timer>)
    requires FannedOut(s, s.agents, timer)
    requires s.agents <= Max(s.requests, 1)
    ensures ResolvesAfterDrain(s)
  {
    forall w, i | w in s.waiters && 0 <= i < |s.results| && !s.results[i].finished
      ensures i in w
    {
      assert w == s.waiters[0] == IdSet(Max(s.requests, 1));
    }
  }

  lemma AsWrittenStart(requests: int, concurrency: int, timelimit: Option<int>)
    requires concurrency <= Max(Budget(requests, timelimit), 1)
    ensures ResolvesAfterDrain(Run(Init(requests, concurrency, timelimit)))
  {
    var s0 := Run(Init(requests, concurrency, timelimit));
    RunFannedOut(requests, concurrency, timelimit);
    FannedOutResolves(s0, if Truthy(timelimit) then Some(Armed) else None);
  }

  /** The early resolution needs more agents than the budget: otherwise the
      as-written run resolves at most once and only when nothing is in
      flight. */
  lemma AsWrittenResolvesAfterDrain(requests: int, concurrency: int, timelimit: Option<int>, events: seq<Event>)
    requires concurrency <= Max(Budget(requests, timelimit), 1)
    ensures var s := Trace(requests, concurrency, timelimit, events);
            && s.stopCalls <= 1
            && s.doneCalls <= 1
            && (s.doneCalls > 0 ==> Quiescent(s))
  {
    var s0 := Run(Init(requests, concurrency, timelimit));
    AsWrittenStart(requests, concurrency, timelimit);
    RunValid(requests, concurrency, timelimit);
    StepsValid(s0, events);
    StepsKeep(s0, events);
  }

}
