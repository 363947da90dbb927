/** The request scheduler `Bench` of pybench, as an immutable state and pure
    transition functions.

    The program runs every callback on one reactor thread, so each callback is
    one sequential step here:
    - `Run` is `Bench.run`: it applies the time-limit override and performs
      the initial fan-out over all agents;
    - `Complete` is `_callback`/`_errback` (they behave the same) for the
      request currently in flight on one agent;
    - `Fire` is the stop timer calling `stop`.

    A request is identified by its index in `results`: every dispatch appends
    exactly one record, so the n-th dispatch owns index n.

    The `DeferredList` that each `stop` call builds over
    `ActiveQueries.values()` is a *waiter*: the set of request ids it waits
    for. A waiter fires (`_done`, which resolves the run's deferred) once
    every id in it has finished; `Settle` performs that at the end of every
    step. */
module Scheduler {
  import opened Options
  import opened Results

  /** The budget `run` installs when a time limit is given. */
  const TimeLimitBudget: int := 5000

  /** The state of the `reactor.callLater` handle held in `StopCall`.
      `active()` holds exactly in `Armed`. */
  datatype Timer = Armed | Fired | Cancelled

  datatype Bench = Bench(
    requests: int,              // Requests: the dispatch budget
    agents: nat,                // len(Agents); agents are 0 .. agents-1
    timelimit: Option<int>,     // Timelimit
    results: seq<Result>,       // Results, in dispatch order
    active: map<nat, nat>,      // ActiveQueries: agent -> id of its latest request
    queriesMade: nat,           // QueriesMade
    stopCall: Option<Timer>,    // StopCall
    stopped: bool,              // Stopped
    waiters: seq<set<nat>>,     // drain lists registered by stop() that have not fired
    stopCalls: nat,             // how many times stop() has run
    doneCalls: nat              // how many times _done has run
  )

  datatype Event = Completed(agent: nat, code: Code) | TimerFired

  function Max(a: int, b: int): int
  {
    if a < b then b else a
  }

  function Min(a: int, b: int): int
  {
    if a < b then a else b
  }

  /** Python truthiness of `self.Timelimit`: `None` and `0` are false. */
  predicate Truthy(timelimit: Option<int>)
  {
    timelimit.Some? && timelimit.value != 0
  }

  /** The budget in force once `run` has started. */
  function Budget(requests: int, timelimit: Option<int>): int
  {
    if Truthy(timelimit) then TimeLimitBudget else requests
  }

  /** `[0, 1, ..., n-1]`, the order in which `range(concurrency)` lists the
      agents. */
  function AgentIds(n: nat): (ids: seq<nat>)
    ensures |ids| == n
    ensures forall i :: 0 <= i < n ==> ids[i] == i
    ensures forall a: nat :: a in ids <==> a < n
  {
    if n == 0 then [] else AgentIds(n - 1) + [n - 1]
  }

  /** `Bench.__init__`: `range(concurrency)` is empty for a negative
      concurrency. */
  function Init(requests: int, concurrency: int, timelimit: Option<int>): (r: Bench)
    ensures r.requests == requests && r.timelimit == timelimit
    ensures r.agents == Max(concurrency, 0)
    ensures r.results == [] && r.active == map[] && r.queriesMade == 0
    ensures !r.stopped && r.stopCall == None
    ensures r.waiters == [] && r.stopCalls == 0 && r.doneCalls == 0
  {
    Bench(requests, if concurrency < 0 then 0 else concurrency, timelimit,
          [], map[], 0, None, false, [], 0, 0)
  }

  /** True when every request in `ids` exists and has finished. */
  predicate Drained(results: seq<Result>, ids: set<nat>)
  {
    forall i | i in ids :: i < |results| && results[i].finished
  }

  /** The agent has a request in flight: its latest request has not finished. */
  predicate Busy(s: Bench, agent: nat)
  {
    agent in s.active && s.active[agent] < |s.results| && !s.results[s.active[agent]].finished
  }

  /** `stop`: sets `Stopped`, registers one more drain over the requests
      currently in `ActiveQueries`, and cancels the stop timer if it is still
      active. It does not look at `Stopped` first, so every call registers
      another drain. */
  function Stop(s: Bench): (r: Bench)
    ensures r.stopped
    ensures r.stopCalls == s.stopCalls + 1
    ensures r.waiters == s.waiters + [s.active.Values]
    ensures s.stopCall == Some(Armed) ==> r.stopCall == Some(Cancelled)
    ensures s.stopCall != Some(Armed) ==> r.stopCall == s.stopCall
    ensures r.results == s.results && r.active == s.active && r.queriesMade == s.queriesMade
    ensures r.requests == s.requests && r.agents == s.agents && r.timelimit == s.timelimit
    ensures r.doneCalls == s.doneCalls
  {
    s.(stopped := true,
       stopCalls := s.stopCalls + 1,
       waiters := s.waiters + [s.active.Values],
       stopCall := if s.stopCall == Some(Armed) then Some(Cancelled) else s.stopCall)
  }

  /** One iteration of the loop in `_makeRequests`: a fresh started record is
      appended, the agent's entry in `ActiveQueries` now names it, the count
      goes up by one, and `stop` runs when the count has reached the budget.
      `Stopped` is not consulted. */
  function Dispatch(s: Bench, agent: nat): (r: Bench)
    ensures r.results == s.results + [Started]
    ensures r.active == s.active[agent := |s.results|]
    ensures r.queriesMade == s.queriesMade + 1
    ensures r.stopped == (s.stopped || r.queriesMade >= s.requests)
    ensures r.stopCalls == s.stopCalls + (if r.queriesMade >= s.requests then 1 else 0)
    ensures r.queriesMade >= s.requests ==> r.waiters == s.waiters + [r.active.Values]
    ensures r.queriesMade < s.requests ==> r.waiters == s.waiters && r.stopCall == s.stopCall
    ensures r.queriesMade >= s.requests && s.stopCall == Some(Armed) ==> r.stopCall == Some(Cancelled)
    ensures r.queriesMade >= s.requests && s.stopCall != Some(Armed) ==> r.stopCall == s.stopCall
    ensures r.requests == s.requests && r.agents == s.agents && r.timelimit == s.timelimit
    ensures r.doneCalls == s.doneCalls
  {
    var sent := s.(results := s.results + [Started],
                   active := s.active[agent := |s.results|],
                   queriesMade := s.queriesMade + 1);
    if sent.queriesMade >= sent.requests then Stop(sent) else sent
  }

  /** The `for agent in agents` loop of `_makeRequests`, in list order,
      without any check of `Stopped` between iterations. */
  function DispatchEach(s: Bench, agents: seq<nat>): (r: Bench)
    ensures |r.results| == |s.results| + |agents|
    ensures r.results[..|s.results|] == s.results
    ensures forall i :: |s.results| <= i < |r.results| ==> r.results[i] == Started
    ensures r.queriesMade == s.queriesMade + |agents|
    ensures forall a :: a !in agents ==> (a in r.active <==> a in s.active)
    ensures forall a :: a !in agents && a in s.active ==> r.active[a] == s.active[a]
    ensures forall a :: a in agents ==> a in r.active
    ensures agents != [] ==>
              agents[|agents| - 1] in r.active && r.active[agents[|agents| - 1]] == |r.results| - 1
    ensures r.stopCalls >= s.stopCalls
    ensures s.stopped ==> r.stopped
    ensures r.requests == s.requests && r.agents == s.agents && r.timelimit == s.timelimit
    ensures r.doneCalls == s.doneCalls
    decreases |agents|
  {
    if agents == [] then s
    else Dispatch(DispatchEach(s, agents[..|agents| - 1]), agents[|agents| - 1])
  }

  /** `_makeRequests(agents)`: nothing at all once stopped, otherwise the
      whole loop. */
  function MakeRequests(s: Bench, agents: seq<nat>): (r: Bench)
    ensures s.stopped ==> r == s
    ensures !s.stopped ==> r.queriesMade == s.queriesMade + |agents|
    ensures forall a :: a !in agents ==> (a in r.active <==> a in s.active)
    ensures forall a :: a !in agents && a in s.active ==> r.active[a] == s.active[a]
    ensures !s.stopped ==> forall a :: a in agents ==> a in r.active
    ensures !s.stopped && agents != [] ==>
              agents[|agents| - 1] in r.active && r.active[agents[|agents| - 1]] == |r.results| - 1
    ensures |r.results| - |s.results| == r.queriesMade - s.queriesMade
  {
    if s.stopped then s else DispatchEach(s, agents)
  }

  /** The waiters that have not yet drained, in registration order. */
  function Pending(results: seq<Result>, ws: seq<set<nat>>): (p: seq<set<nat>>)
    ensures |p| <= |ws|
    ensures forall w :: w in p <==> w in ws && !Drained(results, w)
    ensures |p| < |ws| <==> exists w :: w in ws && Drained(results, w)
    ensures (forall w :: w in ws ==> !Drained(results, w)) ==> p == ws
    ensures (forall w :: w in ws ==> Drained(results, w)) ==> p == []
    decreases |ws|
  {
    if ws == [] then []
    else
      var rest := Pending(results, ws[..|ws| - 1]);
      var last := ws[|ws| - 1];
      assert ws == ws[..|ws| - 1] + [last];
      if Drained(results, last) then rest else rest + [last]
  }

  /** Fires every registered drain whose requests have all completed: each
      one calls `_done` once and is then gone. */
  function Settle(s: Bench): (r: Bench)
    ensures r == s.(waiters := r.waiters, doneCalls := r.doneCalls)
    ensures r.doneCalls + |r.waiters| == s.doneCalls + |s.waiters|
    ensures r.doneCalls >= s.doneCalls
    ensures forall w :: w in r.waiters <==> w in s.waiters && !Drained(s.results, w)
    ensures r.doneCalls > s.doneCalls <==> exists w :: w in s.waiters && Drained(s.results, w)
    ensures (forall w :: w in s.waiters ==> !Drained(s.results, w)) ==> r == s
  {
    var pending := Pending(s.results, s.waiters);
    s.(waiters := pending, doneCalls := s.doneCalls + (|s.waiters| - |pending|))
  }

  /** The time-limit override at the start of `run`: with a (truthy) time
      limit the budget becomes 5000 and the stop timer is armed. */
  function Arm(s: Bench): (r: Bench)
    ensures r.requests == Budget(s.requests, s.timelimit)
    ensures Truthy(s.timelimit) ==> r.stopCall == Some(Armed)
    ensures !Truthy(s.timelimit) ==> r == s
    ensures r == s.(requests := r.requests, stopCall := r.stopCall)
  {
    if Truthy(s.timelimit) then s.(requests := TimeLimitBudget, stopCall := Some(Armed)) else s
  }

  /** `Bench.run`: the time-limit override, then every agent is dispatched. */
  function Run(s: Bench): (r: Bench)
    ensures r.requests == Budget(s.requests, s.timelimit)
    ensures r.agents == s.agents && r.timelimit == s.timelimit
    ensures !s.stopped ==> r.queriesMade == s.queriesMade + s.agents
    ensures !s.stopped ==> forall a: nat :: a < s.agents ==> a in r.active
  {
    Settle(MakeRequests(Arm(s), AgentIds(s.agents)))
  }

  /** `_callback`/`_errback` for the request in flight on `agent`: `done`
      stores the code on that request's record, then `_makeRequests([agent])`
      runs. An agent with nothing in flight receives no completion, so the
      event changes nothing. */
  function Complete(s: Bench, agent: nat, code: Code): (r: Bench)
    ensures !Busy(s, agent) ==> r == s
    ensures Busy(s, agent) ==>
              && |r.results| == |s.results| + (if s.stopped then 0 else 1)
              && r.results[s.active[agent]] == Result(true, code)
              && r.queriesMade == s.queriesMade + (if s.stopped then 0 else 1)
    ensures forall i :: 0 <= i < |s.results| && (!Busy(s, agent) || i != s.active[agent]) ==>
              i < |r.results| && r.results[i] == s.results[i]
    ensures forall a :: a != agent ==> (a in r.active <==> a in s.active)
    ensures forall a :: a != agent && a in s.active ==> r.active[a] == s.active[a]
    ensures Busy(s, agent) && !s.stopped ==> agent in r.active && r.active[agent] == |s.results|
    ensures s.stopped ==> r.active == s.active && r.stopped && r.stopCalls == s.stopCalls
    ensures s.stopped ==> r.stopCall == s.stopCall
    ensures r.requests == s.requests && r.agents == s.agents && r.timelimit == s.timelimit
  {
    if Busy(s, agent) then
      var id := s.active[agent];
      var answered := s.(results := s.results[id := Done(s.results[id], code)]);
      Settle(MakeRequests(answered, [agent]))
    else s
  }

  /** The stop timer firing: `active()` is already false while the timer's
      call runs, so `stop` does not cancel it. A timer that is not armed does
      not fire. */
  function Fire(s: Bench): (r: Bench)
    ensures s.stopCall == Some(Armed) ==>
              && r.stopped && r.stopCall == Some(Fired) && r.stopCalls == s.stopCalls + 1
              && r.results == s.results && r.active == s.active && r.queriesMade == s.queriesMade
    ensures s.stopCall != Some(Armed) ==> r == s
    ensures r.requests == s.requests && r.agents == s.agents && r.timelimit == s.timelimit
  {
    if s.stopCall == Some(Armed) then Settle(Stop(s.(stopCall := Some(Fired)))) else s
  }

  /** One callback on the reactor thread. It never changes the run's
      parameters, never clears `Stopped`, never removes an agent from
      `ActiveQueries`, and only adds records, queries, `stop` calls and
      `_done` calls. */
  function Step(s: Bench, e: Event): (r: Bench)
    ensures r.requests == s.requests && r.agents == s.agents && r.timelimit == s.timelimit
    ensures s.stopped ==> r.stopped
    ensures forall a :: a in s.active ==> a in r.active
    ensures |r.results| >= |s.results| && r.queriesMade >= s.queriesMade
    ensures r.stopCalls >= s.stopCalls && r.doneCalls >= s.doneCalls
  {
    match e
    case Completed(agent, code) => Complete(s, agent, code)
    case TimerFired => Fire(s)
  }

  /** The callbacks in the order the reactor runs them, one at a time. */
  function Steps(s: Bench, events: seq<Event>): (r: Bench)
    ensures r.requests == s.requests && r.agents == s.agents && r.timelimit == s.timelimit
    ensures s.stopped ==> r.stopped
    ensures forall a :: a in s.active ==> a in r.active
    ensures |r.results| >= |s.results| && r.queriesMade >= s.queriesMade
    ensures r.stopCalls >= s.stopCalls && r.doneCalls >= s.doneCalls
    decreases |events|
  {
    if events == [] then s else Steps(Step(s, events[0]), events[1..])
  }

  /** The state after `Bench(requests, concurrency, timelimit=timelimit)`,
      `run()`, and then the given callbacks in the given order. */
  function Trace(requests: int, concurrency: int, timelimit: Option<int>, events: seq<Event>): (r: Bench)
    ensures r.requests == Budget(requests, timelimit)
    ensures r.agents == Max(concurrency, 0) && r.timelimit == timelimit
    ensures r.queriesMade >= Max(concurrency, 0)
    ensures forall a: nat :: a < Max(concurrency, 0) ==> a in r.active
  {
    Steps(Run(Init(requests, concurrency, timelimit)), events)
  }

  /** No request is in flight. */
  predicate Quiescent(s: Bench)
  {
    forall i | 0 <= i < |s.results| :: s.results[i].finished
  }

}
