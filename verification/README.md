# pybench request scheduler, modelled in Dafny

pybench is a small HTTP benchmarking tool. Its core is the `Bench` class. A
benchmark is `Bench(requests, concurrency, url, timelimit)`, and it works as
follows:

- It owns one HTTP agent per unit of concurrency.
- `run()` fans out one request per agent.
- Each completion (success or error) marks its `Result` record as done and has
  the same agent send the next request, as long as the run has not stopped.
- Once `QueriesMade` reaches the budget (`requests`, or 5000 when a time
  limit is given), `stop()` sets `Stopped`. It registers a `DeferredList`
  over the requests recorded in `ActiveQueries` and cancels the stop timer
  if it is still armed.
- When that list fires, `_done` resolves the run's deferred with the record
  list. The `summary` callback then sorts the records into successes and
  errors by whether the stored code is the status 200.
- Before any of this, `main` puts `http://` in front of a URL that does not
  start with it.

The model is functional:

- `Scheduler.Bench` is an immutable record of the scheduler's state.
  - A request is identified by its index in the record list.
  - `ActiveQueries` maps each agent to the id of the last request it sent.
  - Each `DeferredList` that `stop` registers is the set of ids it waits on.
  - The counts `stopCalls` and `doneCalls` record how often `stop` and
    `_done` have run.
- `run()`, a completion (`Completed(agent, code)`) and the firing of the stop
  timer (`TimerFired`) are total transition functions.
- A completion for an agent with nothing in flight, or a timer event while
  no timer is armed, leaves the state unchanged.
- `Steps` applies any sequence of such events. `Trace` is `run()` on a fresh
  `Bench` followed by `Steps`, so every property over `Trace` holds for
  every order in which responses and the timer can arrive.

Modules:

| module | what it holds |
|---|---|
| `Options` | `Option` for the absent time limit and stop timer |
| `Results` | the `Result` record without its timestamps |
| `Scheduler` | state, `_makeRequests`, `stop`, the callbacks, `run`, the timer |
| `Invariant` | the scheduler invariant `Valid`, and that every callback keeps it |
| `Startup` | the exact state after the fan-out in `run`, and that it is valid |
| `Properties` | budget, stop count, what a stop freezes, concurrency bound, time limit |
| `Drain` | "the run resolves only once nothing is in flight", kept by every callback |
| `Findings` | the fan-out as written resolves the run too early (see Findings) |
| `Corrected` | the fan-out with the `Stopped` test per agent, and its guarantees |
| `Url` | the `http://` prefixing in `main` |
| `Summary` | the success and error split and the error count in `summary` |

### Behaviour of the code worth knowing

- **Record order.** The records are appended when a request is dispatched
  (`_makeRequests`, lines 96-98), so `Results` is in dispatch order, not in
  the order the responses arrive.
- **Repeated `stop`.** `stop` does not look at `Stopped` first. Each call
  sets it again and registers another `DeferredList` with another `_done`.
  - Nothing in the fan-out loop keeps it from being called once per
    remaining agent.
  - A completion arriving after the stop returns early, so it cannot call
    `stop` again.
- **No configuration checks.**
  - `concurrency <= 0` yields no agents (`range` of a non-positive number is
    empty).
  - A budget of 0 or less stops the run at its first dispatch.
  - A time limit of 0 is false in Python and so counts as no limit.

## Model

| member | source | states |
|---|---|---|
| Scheduler.Init | pybench/pybench.py:63-84 | a new `Bench` keeps the request count and time limit, has `max(concurrency, 0)` agents, no records, no queries, no timer, and is not stopped |
| Results.Done | pybench/pybench.py:44-53 | `done` leaves the record finished with the given code, whatever it held before |
| Summary.StartedIsError | pybench/pybench.py:33-42 | a record that was started but never answered is unfinished with code 0, so `summary` counts it among the errors |
| Scheduler.AgentIds | pybench/pybench.py:77 | the agent list has `concurrency` entries, agent i at position i |
| Scheduler.Stop | pybench/pybench.py:136-146 | `stop` sets `Stopped`, registers one drain over the requests recorded in `ActiveQueries`, cancels an armed timer and otherwise leaves the timer alone; it touches no record, no agent entry and no count |
| Scheduler.Dispatch | pybench/pybench.py:94-108 | one loop iteration appends a fresh record, points the agent at it, counts one query, and calls `stop` exactly when the count has reached the budget |
| Scheduler.DispatchEach | pybench/pybench.py:94-108 | the loop appends one started record per agent and keeps the older records, counts one query per agent, leaves agents outside the list alone, points every listed agent at a request (the last one at the newest), and never clears `Stopped` |
| Scheduler.MakeRequests | pybench/pybench.py:86-108 | when already stopped nothing changes; otherwise every agent in the list is dispatched, with records and query count growing together |
| Scheduler.Pending | pybench/pybench.py:140-141 | a drain stays registered iff some request it waits on is unfinished; fewer drains remain iff some drain has become complete |
| Scheduler.Settle | pybench/pybench.py:130-134 | the complete drains fire `_done` and leave, the others stay; `_done` runs iff some drain is complete, drains plus `_done` calls are conserved, nothing else changes |
| Scheduler.Arm | pybench/pybench.py:156-158 | a truthy time limit replaces the budget with 5000 and arms the stop timer; without one the state is unchanged |
| Scheduler.Run | pybench/pybench.py:148-162 | `run()` installs the budget and dispatches one request per agent, so every agent appears in `ActiveQueries` |
| Scheduler.Complete | pybench/pybench.py:110-128 | a completion finishes exactly the agent's current record and leaves all others; it re-dispatches that agent with the next id unless stopped; once stopped it changes no agent, timer or stop count |
| Scheduler.Fire | pybench/pybench.py:143-146 | the timer firing runs `stop` while the timer is no longer active, so it stays fired; without an armed timer nothing happens |
| Scheduler.Step | pybench/pybench.py:110-146 | one callback never changes the budget, agents or time limit, never clears `Stopped`, never removes an agent from `ActiveQueries`, and only adds records, queries, `stop` calls and `_done` calls |
| Scheduler.Steps | pybench/pybench.py:110-146 | the same holds for any sequence of callbacks run one at a time |
| Scheduler.Trace | pybench/pybench.py:148-162 | after `run()` and any callbacks, the budget is 5000 under a time limit and `requests` otherwise, the `max(concurrency, 0)` agents never change, at least that many requests have been sent, and every agent is in `ActiveQueries` |
| Invariant.SettleValid | pybench/pybench.py:130-141 | firing complete drains keeps the scheduler invariant |
| Invariant.AnswerStoppedValid | pybench/pybench.py:117-118 | after the stop, marking a record done keeps records, agents and drains consistent |
| Invariant.RedispatchTracked | pybench/pybench.py:117-118 | a completion followed by re-dispatch keeps every unfinished request owned by its agent |
| Invariant.RedispatchBudgeted | pybench/pybench.py:102-108 | re-dispatch keeps the budget, timer and stop bookkeeping consistent |
| Invariant.CompleteUnfold | pybench/pybench.py:117-118 | a completion is `done` followed by `_makeRequests([agent])`: one dispatch before the stop, none after |
| Invariant.CompleteValid | pybench/pybench.py:110-128 | every completion, success or error, keeps the scheduler invariant |
| Invariant.FireValid | pybench/pybench.py:136-146 | the timer firing keeps the scheduler invariant |
| Invariant.StepValid | pybench/pybench.py:110-146 | every callback keeps the invariant |
| Invariant.StepsValid | pybench/pybench.py:110-146 | any sequence of callbacks keeps the invariant |
| Startup.FanOutStep | pybench/pybench.py:94-108 | one more fan-out iteration: agent k owns request k, and each dispatch from the budget on adds a `stop` and a drain over ids 0..k |
| Startup.FanOutProgress | pybench/pybench.py:94-108 | after k fan-out iterations there are k started records and `max(0, k - max(budget,1) + 1)` stops |
| Startup.RunFannedOut | pybench/pybench.py:148-162 | the exact state after `run()` on a fresh `Bench` |
| Startup.FannedOutValid | pybench/pybench.py:63-108 | that state satisfies the scheduler invariant |
| Startup.RunValid | pybench/pybench.py:148-162 | `run()` establishes the invariant |
| Startup.TraceValid | pybench/pybench.py:59-162 | the invariant holds after `run()` and any callbacks |
| Properties.ResultsMatchQueries | pybench/pybench.py:96-106 | the record list is always as long as the query count |
| Properties.StepStopCalls | pybench/pybench.py:91-108 | a callback calls `stop` at most once, only when it is the one that sets `Stopped`, and never clears it |
| Properties.StoppedIsFinal | pybench/pybench.py:91-92 | after the stop, no callback dispatches: the count, the record list length, the agent map and the stop count are frozen |
| Properties.FinishedRecordsFixed | pybench/pybench.py:44-53 | a finished record is never changed again, and records are only appended |
| Properties.StopsAfterRun | pybench/pybench.py:107-108 | once `run()` returns, later callbacks add at most the single stop that sets `Stopped` |
| Properties.StopCount | pybench/pybench.py:94-108 | the exact number of `stop` calls in any run: the fan-out's count, or one if the fan-out did not stop |
| Properties.DrainComplete | pybench/pybench.py:130-141 | with nothing in flight, every drain has fired, `_done` ran once per `stop`, and a run with agents has stopped |
| Properties.DispatchBound | pybench/pybench.py:106-108 | the number of requests sent never exceeds the larger of the budget and the agent count |
| Properties.BudgetExhausted | pybench/pybench.py:106-108 | with requests >= concurrency >= 1 and no time limit: at most `requests` are sent, `stop` runs once when the last is sent, and `_done` runs exactly once |
| Properties.StopOnceIff | pybench/pybench.py:94-108 | over a whole run, `stop` ran exactly once iff there are no more agents than the budget, and `_done` ran as often as `stop` |
| Properties.FanOutOvershoot | pybench/pybench.py:94-108 | with fewer requests than agents, the fan-out sends one request per agent, calls `stop` concurrency-requests+1 times, and its first drain waits only on the first `requests` requests |
| Properties.TimeLimitRun | pybench/pybench.py:156-158 | under a time limit the budget is 5000 and the timer is armed unless the fan-out itself reached 5000 |
| Properties.TimerOutcome | pybench/pybench.py:143-146 | under a time limit a run is stopped iff the timer fired or was cancelled, cancelled only at the budget, and an armed timer's firing stops the run |
| Properties.InFlightBound | pybench/pybench.py:102 | on a valid state, no more requests are in flight than there are agents, and exactly one per agent before the stop |
| Properties.ConcurrencyBound | pybench/pybench.py:77-108 | in any run, at most `concurrency` requests are in flight, exactly that many until the stop |
| Properties.IdleSteps | pybench/pybench.py:110-146 | with nothing ever dispatched and no armed timer, no callback changes the state |
| Properties.EmptySteps | pybench/pybench.py:110-146 | with no agent in `ActiveQueries`, no callback dispatches: the record list, the query count and the empty agent map stay as they are |
| Properties.NoAgents | pybench/pybench.py:77-162 | a run without agents sends nothing, with or without a time limit and over any callbacks; without a time limit it never stops or resolves, and with one the timer's `stop` resolves it at once with an empty record list |
| Drain.SettleKeeps | pybench/pybench.py:130-141 | a drain that waits on every request in flight can only fire once nothing is in flight |
| Drain.FreshDrainCovers | pybench/pybench.py:139-140 | a drain registered over `ActiveQueries` waits on every request in flight |
| Drain.CompleteKeeps | pybench/pybench.py:110-128 | a completion keeps "the run resolves only once nothing is in flight" |
| Drain.FireKeeps | pybench/pybench.py:136-146 | the timer firing keeps it |
| Drain.StepsKeep | pybench/pybench.py:110-146 | any sequence of callbacks keeps it |
| Findings.CompleteStopped | pybench/pybench.py:117-118 | a completion after the stop only finishes its record and fires the drains that became complete |
| Findings.EarlyBase | pybench/pybench.py:94-108 | the overshooting fan-out is stopped with every agent in flight and a drain over the first `requests` ids |
| Findings.EarlyStart | pybench/pybench.py:148-162 | `run()` with fewer requests than agents leaves that state: stopped, every agent in flight, `_done` not yet run |
| Findings.EarlyStep | pybench/pybench.py:110-141 | completing agent k finishes request k and fires that drain exactly when k is the last id it waits on |
| Findings.EarlyProgress | pybench/pybench.py:110-141 | after agents 0..k-1 complete, their requests are finished, the rest are in flight, and `_done` has run iff k reached `requests` |
| Findings.EarlyResolution | pybench/pybench.py:91-108 | as written, with requests < concurrency, `_done` resolves the run while the last agent's request is in flight, and `summary` counts that record as an error |
| Findings.FannedOutResolves | pybench/pybench.py:94-108 | without extra agents, the fan-out's only drain covers every request in flight |
| Findings.AsWrittenStart | pybench/pybench.py:148-162 | as written, `run()` with concurrency <= max(budget, 1) starts in a state that resolves only after draining |
| Findings.AsWrittenResolvesAfterDrain | pybench/pybench.py:59-162 | as written, with concurrency <= max(budget, 1), `stop` and `_done` each run at most once, and `_done` only when nothing is in flight |
| Corrected.GuardedMakeRequests | pybench/pybench.py:91-108 | the loop with the `Stopped` test per agent sends at most one request per agent, stops at most once, and when it does not stop sends one per agent |
| Corrected.CorrectedRun | pybench/pybench.py:148-162 | `run()` with the guarded loop installs the same budget and agents |
| Corrected.GuardedStep | pybench/pybench.py:94-108 | one guarded iteration before the budget: the next agent is dispatched, and reaching the budget stops once with one drain over every request sent |
| Corrected.GuardedProgress | pybench/pybench.py:94-108 | after k guarded iterations, `min(k, max(budget,1))` requests are out, with one stop if the budget was reached |
| Corrected.CorrectedFanOut | pybench/pybench.py:148-162 | the guarded fan-out sends `min(concurrency, max(budget,1))` requests and stops once iff concurrency reaches the budget |
| Corrected.CorrectedStart | pybench/pybench.py:148-162 | the guarded start is valid, resolves only after draining, and is within the budget |
| Corrected.StepsKeepBudget | pybench/pybench.py:106-108 | after a guarded start, callbacks never push the count past the budget |
| Corrected.CorrectedResolvesOnce | pybench/pybench.py:91-162 | with the guard, over any callbacks: `stop` runs at most once, `_done` at most once and only when nothing is in flight, and exactly once when nothing is left (with an agent); the count stays within the budget |
| Corrected.CorrectedBudgetExact | pybench/pybench.py:106-108 | with the guard, no time limit and requests, concurrency >= 1, a finished run has sent exactly `requests` requests |
| Url.Normalize | pybench/pybench.py:268-269 | the URL starts with `http://` and ends with the given URL, and is unchanged iff the given one already started with `http://` |
| Url.NormalizeIdempotent | pybench/pybench.py:268-269 | normalizing twice equals normalizing once |
| Url.NormalizeSame | pybench/pybench.py:268-269 | two URLs normalize alike iff equal or one is the other, which lacks the scheme, prefixed with `http://` |
| Summary.Split | pybench/pybench.py:186-192 | successes are exactly the records with code 200, errors exactly the others, and together they are the record list as a multiset |
| Summary.CountErrors | pybench/pybench.py:228-231 | the error count of the summary page is the number of error records of the graph's split |
| Summary.NoErrorsIffAllSucceed | pybench/pybench.py:228-231 | the page reports no errors iff every record holds the status 200 |

## Left out

- Twisted itself is not modelled: the reactor, HTTP agents, headers, the
  `Deferred` and `DeferredList` objects, and `callLater`. Responses, errors
  and the timer are events whose order is arbitrary. A drain is the set of
  request ids it waits on.
- A request whose deferred has already fired when `agent.request` returns
  would run its callback inside the loop. The model treats every completion
  as a separate later event.
- An exception raised inside `_callback` would reach `_errback`. The model
  has one completion per request.
- Timestamps (`Started`, `Finished`, `Elapsed`), the float averages, the
  longest request, the requests per second and the graph layout in
  `summary` are wall-clock floating point, so they are left out. So is the
  `Timeout` flag, which nothing sets.
- `print`, `argparse`, `parseURL` and the `Authorization` header are I/O or
  presentation. `run_test` is just `run` plus `summary`.
- `summary` on an empty record list fails in `min`. That list comes from a
  run with no agents. Without a time limit such a run never stops and never
  resolves. With a time limit, the timer's `stop` registers a
  `DeferredList` over no requests, which fires at once. `_done` then
  resolves the run with the empty list (`Properties.NoAgents`), and
  `summary` fails. The model covers the run up to that resolution, not the
  failure.
- The second `RunDeferred.callback` that a repeated `_done` makes raises
  `AlreadyCalledError` in Twisted. The model counts the `_done` calls in
  `doneCalls` instead of raising.
- Findings.EarlyResolution: states the early resolution for one completion
  order, agents 0 to requests-1 answering 200 in turn. That one order
  exhibits the defect. Other orders are not enumerated.

## Findings

| source | as written | input that shows it | evidently intended | confidence | as-written member | corrected member |
|---|---|---|---|---|---|---|
| pybench/pybench.py:91-108 | `_makeRequests` tests `Stopped` only on entry, so the fan-out in `run` dispatches every agent. It calls `stop` for every dispatch from the budget on. The first `DeferredList` covers only the requests sent before it, so `_done` resolves the run while later requests are in flight. | `Bench(3, 5)` with no time limit: 5 requests are sent and `stop` runs 3 times. When agents 0, 1, 2 answer, the run resolves with requests 3 and 4 unfinished, which `summary` counts as errors. | Stop dispatching at the budget, call `stop` once, and resolve once when nothing is in flight. | not executed | Findings.EarlyResolution | Corrected.CorrectedResolvesOnce |
