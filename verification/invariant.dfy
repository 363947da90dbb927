/** The invariant every state reachable from `run()` satisfies, whatever the
    order in which requests complete and the timer fires, and the proof that
    `run` establishes it and every callback preserves it. */
module Invariant {
  import opened Options
  import opened Results
  import opened Scheduler

  /** Requests and agents: one record per dispatch, `ActiveQueries` maps
      agents in range to distinct existing requests, and every request still
      in flight is some agent's latest one. */
  ghost predicate Tracked(s: Bench)
  {
    && |s.results| == s.queriesMade
    && (forall a :: a in s.active ==> a < s.agents && s.active[a] < |s.results|)
    && (forall a, b :: a in s.active && b in s.active && a != b ==> s.active[a] != s.active[b])
    && (forall i :: 0 <= i < |s.results| && !s.results[i].finished ==> i in s.active.Values)
  }

  /** Budget and stopping: before the stop every agent is busy and the budget
      has not been reached; a stop the timer did not cause means the budget was
      reached; `stop` has run iff `Stopped` is set; the stop timer is never
      left armed once stopped. */
  ghost predicate Budgeted(s: Bench)
  {
    && (!s.stopped ==> forall a: nat :: a < s.agents ==> Busy(s, a))
    && (!s.stopped && s.queriesMade > 0 ==> s.queriesMade < s.requests)
    && (s.stopped && s.stopCall != Some(Fired) ==> s.queriesMade >= s.requests)
    && s.queriesMade <= Max(s.requests, s.agents)
    && (s.stopped <==> s.stopCalls > 0)
    && (s.stopCall == Some(Armed) ==> !s.stopped)
    && (s.stopCall == Some(Fired) || s.stopCall == Some(Cancelled) ==> s.stopped)
    && (if Truthy(s.timelimit) then s.requests == TimeLimitBudget && s.stopCall.Some?
        else s.stopCall == None)
  }

  /** Drains: each `stop` call registered one drain, which has either fired
      (`_done` ran) or is still waiting on existing requests. */
  ghost predicate Registered(s: Bench)
  {
    && s.doneCalls + |s.waiters| == s.stopCalls
    && (forall w, i :: w in s.waiters && i in w ==> i < |s.results|)
  }

  /** Every drain still registered waits on some request in flight. */
  ghost predicate Settled(s: Bench)
  {
    forall w :: w in s.waiters ==> !Drained(s.results, w)
  }

  ghost predicate Valid(s: Bench)
  {
    Tracked(s) && Budgeted(s) && Registered(s) && Settled(s)
  }

  /** Firing the drains that are complete restores `Settled` and keeps the
      rest. */
  lemma SettleValid(s: Bench)
    requires Tracked(s) && Budgeted(s) && Registered(s)
    ensures Valid(Settle(s))
  {
    var r := Settle(s);
    forall w, i | w in r.waiters && i in w
      ensures i < |r.results|
    {
      assert w in s.waiters;
    }
  }

  /** Every id held by the agent map names an existing request. */
  lemma ValuesInRange(s: Bench)
    requires forall a :: a in s.active ==> s.active[a] < |s.results|
    ensures forall i :: i in s.active.Values ==> i < |s.results|
  {
    forall i | i in s.active.Values
      ensures i < |s.results|
    {
      var a :| a in s.active && s.active[a] == i;
    }
  }

  /** The state right after `done` stored the code on the agent's request. */
  function Answer(s: Bench, agent: nat, code: Code): Bench
    requires Busy(s, agent)
  {
    s.(results := s.results[s.active[agent] := Done(s.results[s.active[agent]], code)])
  }

  /** Once stopped, a completion only finishes the record. */
  lemma AnswerStoppedValid(s: Bench, agent: nat, code: Code)
    requires Valid(s) && Busy(s, agent) && s.stopped
    ensures var m := Answer(s, agent, code); Tracked(m) && Budgeted(m) && Registered(m)
  {
    var m := Answer(s, agent, code);
    forall i | 0 <= i < |m.results| && !m.results[i].finished
      ensures i in m.active.Values
    {
      assert !s.results[i].finished;
      assert i in s.active.Values;
    }
  }

  /** Before the stop, a completion redispatches on the same agent: the
      bookkeeping part. */
  lemma RedispatchTracked(s: Bench, agent: nat, code: Code)
    requires Valid(s) && Busy(s, agent) && !s.stopped
    ensures Tracked(Dispatch(Answer(s, agent, code), agent))
  {
    var id := s.active[agent];
    var m := Dispatch(Answer(s, agent, code), agent);
    var n := |s.results|;
    forall i | 0 <= i < |m.results| && !m.results[i].finished
      ensures i in m.active.Values
    {
      if i == n {
        assert m.active[agent] == i;
      } else {
        assert i != id && !s.results[i].finished;
        assert i in s.active.Values;
        var a :| a in s.active && s.active[a] == i;
        assert a != agent;
        assert m.active[a] == i;
      }
    }
  }

  /** Before the stop, a completion redispatches on the same agent: the
      budget and drain part. */
  lemma RedispatchBudgeted(s: Bench, agent: nat, code: Code)
    requires Valid(s) && Busy(s, agent) && !s.stopped
    ensures var m := Dispatch(Answer(s, agent, code), agent); Budgeted(m) && Registered(m)
  {
    var id := s.active[agent];
    var m := Dispatch(Answer(s, agent, code), agent);
    assert s.queriesMade > 0;
    forall a: nat | a < m.agents && !m.stopped
      ensures Busy(m, a)
    {
      if a != agent {
        assert Busy(s, a);
        assert s.active[a] != id;
      }
    }
    RedispatchTracked(s, agent, code);
    ValuesInRange(m);
  }

  /** A completion on a busy agent is the answer, the redispatch on that
      agent, and the firing of complete drains. */
  lemma CompleteUnfold(s: Bench, agent: nat, code: Code)
    requires Busy(s, agent)
    ensures Complete(s, agent, code) == Settle(MakeRequests(Answer(s, agent, code), [agent]))
    ensures !s.stopped ==> MakeRequests(Answer(s, agent, code), [agent]) == Dispatch(Answer(s, agent, code), agent)
    ensures s.stopped ==> MakeRequests(Answer(s, agent, code), [agent]) == Answer(s, agent, code)
  {
    var answered := Answer(s, agent, code);
    assert [agent][..0] == [];
    assert DispatchEach(answered, [agent]) == Dispatch(DispatchEach(answered, []), agent);
  }

  /** The completion handler on a valid state. */
  lemma CompleteValid(s: Bench, agent: nat, code: Code)
    requires Valid(s)
    ensures Valid(Complete(s, agent, code))
  {
    if Busy(s, agent) {
      var m := MakeRequests(Answer(s, agent, code), [agent]);
      CompleteUnfold(s, agent, code);
      if s.stopped {
        AnswerStoppedValid(s, agent, code);
      } else {
        RedispatchTracked(s, agent, code);
        RedispatchBudgeted(s, agent, code);
      }
      SettleValid(m);
    }
  }

  /** The timer firing on a valid state. */
  lemma FireValid(s: Bench)
    requires Valid(s)
    ensures Valid(Fire(s))
  {
    if s.stopCall == Some(Armed) {
      var st := Stop(s.(stopCall := Some(Fired)));
      assert Fire(s) == Settle(st);
      forall i | 0 <= i < |st.results| && !st.results[i].finished
        ensures i in st.active.Values
      {
        assert i in s.active.Values;
      }
      assert Tracked(st);
      assert Budgeted(st);
      ValuesInRange(st);
      assert Registered(st);
      SettleValid(st);
    }
  }

  lemma StepValid(s: Bench, e: Event)
    requires Valid(s)
    ensures Valid(Step(s, e))
  {
    match e
    case Completed(agent, code) => CompleteValid(s, agent, code);
    case TimerFired => FireValid(s);
  }

  lemma {:induction false} StepsValid(s: Bench, events: seq<Event>)
    requires Valid(s)
    ensures Valid(Steps(s, events))
    decreases |events|
  {
    if events != [] {
      StepValid(s, events[0]);
      StepsValid(Step(s, events[0]), events[1..]);
    }
  }

}
