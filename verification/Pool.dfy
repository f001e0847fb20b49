/** The engine pool as a state machine: each region under the mutex, and each write to a promise, is one
    step, and the steps of the workers and callers interleave freely. */
module Pool {

  datatype Options = Options(workers: nat, maxPending: nat, retryLimit: nat)

  /** A request in the pool; `runs` counts how often a worker has taken it. */
  datatype Work = Work(id: nat, priority: nat, attempts: nat, runs: nat)

  /** Where a worker is in its loop: waiting to take; running the engine; between counting a success
      and fulfilling the promise; between that and leaving the active count; between counting a
      failure and failing the promise; or gone. */
  datatype Worker = Idle | Running(work: Work) | Counted(work: Work) | Finishing(work: Work) | Failing(work: Work) | Exited

  datatype Pool = Pool(
    options: Options, queues: seq<seq<Work>>, workers: seq<Worker>, stopping: bool, cancelled: set<nat>, abandoned: seq<Work>,
    active: nat, activeBy: seq<nat>, submitted: nat, completed: nat, failed: nat, retried: nat, rejected: nat,
    succeeded: multiset<nat>, errored: multiset<nat>, shutDown: multiset<nat>)

  function Start(options: Options): Pool {
    Pool(options, [[], [], []], seq(options.workers, _ => Idle), false, {}, [], 0, [0, 0, 0], 0, 0, 0, 0, 0,
         multiset{}, multiset{}, multiset{})
  }

  function HistoricalLimit(options: Options): int {
    if options.workers == 1 then 1 else options.workers - 1
  }

  function Queued(p: Pool): nat
    requires |p.queues| == 3
  {
    |p.queues[0]| + |p.queues[1]| + |p.queues[2]|
  }

  predicate Shape(p: Pool) {
    |p.queues| == 3 && |p.activeBy| == 3
  }

  /** The class a worker takes from next: the highest one waiting, historical work only below its limit. */
  function NextClass(p: Pool): (priority: nat)
    requires Shape(p)
    ensures priority <= 3
    ensures priority < 3 ==> p.queues[priority] != []
  {
    if p.queues[0] != [] then 0
    else if p.queues[1] != [] then 1
    else if p.queues[2] != [] && p.activeBy[2] < HistoricalLimit(p.options) then 2
    else 3
  }

  // ----- steps -----

  datatype Step =
    | Submit(priority: nat)
    | Cancel(request: nat)
    | Take(taker: nat)
    | CountSuccess(succeeding: nat)
    | Fulfil(fulfilling: nat)
    | LeaveActive(leaving: nat)
    | Fail(failing: nat)
    | FailPromise(rejecting: nat)
    | Stop
    | Abandon

  predicate Enabled(p: Pool, step: Step)
    requires Shape(p)
  {
    match step
    case Submit(priority) => priority < 3
    case Cancel(_) => true
    case Take(w) => w < |p.workers| && p.workers[w].Idle? && (p.stopping || NextClass(p) < 3)
    case CountSuccess(w) => w < |p.workers| && p.workers[w].Running?
    case Fulfil(w) => w < |p.workers| && p.workers[w].Counted?
    case LeaveActive(w) => w < |p.workers| && p.workers[w].Finishing? && LeavesActive(p, p.workers[w].work.priority)
    case Fail(w) => w < |p.workers| && p.workers[w].Running? && LeavesActive(p, p.workers[w].work.priority)
    case FailPromise(w) => w < |p.workers| && p.workers[w].Failing?
    case Stop => !p.stopping
    case Abandon => p.abandoned != []
  }

  predicate LeavesActive(p: Pool, priority: nat)
    requires Shape(p)
  {
    priority < 3 && p.active > 0 && p.activeBy[priority] > 0
  }

  predicate Accepts(p: Pool)
    requires Shape(p)
  {
    !p.stopping && p.active + Queued(p) < p.options.maxPending
  }

  function Submitted(p: Pool, priority: nat): Pool
    requires Shape(p) && priority < 3
  {
    if p.stopping then p
    else if p.active + Queued(p) >= p.options.maxPending then p.(rejected := p.rejected + 1)
    else p.(queues := p.queues[priority := p.queues[priority] + [Work(p.submitted, priority, 0, 0)]], submitted := p.submitted + 1)
  }

  function Taken(p: Pool, w: nat): Pool
    requires Shape(p) && Enabled(p, Take(w))
  {
    if p.stopping then p.(workers := p.workers[w := Exited])
    else
      var priority := NextClass(p);
      var work := p.queues[priority][0];
      p.(queues := p.queues[priority := p.queues[priority][1..]], active := p.active + 1,
         activeBy := p.activeBy[priority := p.activeBy[priority] + 1],
         workers := p.workers[w := Running(work.(runs := work.runs + 1))])
  }

  predicate Retries(p: Pool, work: Work) {
    !p.stopping && work.id !in p.cancelled && work.attempts < p.options.retryLimit
  }

  function Left(p: Pool, priority: nat): Pool
    requires Shape(p) && LeavesActive(p, priority)
  {
    p.(active := p.active - 1, activeBy := p.activeBy[priority := p.activeBy[priority] - 1])
  }

  function FailedRun(p: Pool, w: nat): Pool
    requires Shape(p) && Enabled(p, Fail(w))
  {
    var work := p.workers[w].work;
    var left := Left(p, work.priority);
    if Retries(p, work) then
      left.(queues := p.queues[work.priority := [work.(attempts := work.attempts + 1)] + p.queues[work.priority]],
            retried := p.retried + 1, workers := p.workers[w := Idle])
    else left.(failed := p.failed + 1, workers := p.workers[w := Failing(work)])
  }

  function After(p: Pool, step: Step): Pool
    requires Shape(p) && Enabled(p, step)
  {
    match step
    case Submit(priority) => Submitted(p, priority)
    case Cancel(id) => p.(cancelled := p.cancelled + {id})
    case Take(w) => Taken(p, w)
    case CountSuccess(w) => p.(completed := p.completed + 1, workers := p.workers[w := Counted(p.workers[w].work)])
    case Fulfil(w) =>
      p.(succeeded := p.succeeded + multiset{p.workers[w].work.id}, workers := p.workers[w := Finishing(p.workers[w].work)])
    case LeaveActive(w) => Left(p, p.workers[w].work.priority).(workers := p.workers[w := Idle])
    case Fail(w) => FailedRun(p, w)
    case FailPromise(w) => p.(errored := p.errored + multiset{p.workers[w].work.id}, workers := p.workers[w := Idle])
    case Stop => p.(stopping := true, queues := [[], [], []], abandoned := p.queues[0] + p.queues[1] + p.queues[2])
    case Abandon =>
      p.(shutDown := p.shutDown + multiset{p.abandoned[0].id}, abandoned := p.abandoned[1..])
  }

  /** The pool after a step, if it can be taken. */
  function Next(p: Pool, step: Step): Pool {
    if Shape(p) && Enabled(p, step) then After(p, step) else p
  }

  // ----- where requests are -----

  function Ids(works: seq<Work>): multiset<nat> {
    if works == [] then multiset{} else multiset{works[0].id} + Ids(works[1..])
  }

  /** The request a worker holds and has not resolved. */
  function HeldId(w: Worker): multiset<nat> {
    if w.Running? || w.Counted? || w.Failing? then multiset{w.work.id} else multiset{}
  }

  function HeldIds(workers: seq<Worker>): multiset<nat> {
    if workers == [] then multiset{} else HeldId(workers[0]) + HeldIds(workers[1..])
  }

  function Waiting(p: Pool): multiset<nat>
    requires Shape(p)
  {
    Ids(p.queues[0]) + Ids(p.queues[1]) + Ids(p.queues[2])
  }

  function Unresolved(p: Pool): multiset<nat>
    requires Shape(p)
  {
    Waiting(p) + Ids(p.abandoned) + HeldIds(p.workers)
  }

  function Resolved(p: Pool): multiset<nat> {
    p.succeeded + p.errored + p.shutDown
  }

  /** Each accepted request once. */
  function Accepted(count: nat): multiset<nat> {
    if count == 0 then multiset{} else Accepted(count - 1) + multiset{count - 1}
  }

  /** Active workers, all of them or of one class. */
  function IsActive(w: Worker): nat {
    if w.Running? || w.Counted? || w.Finishing? then 1 else 0
  }

  function ActiveWorkers(workers: seq<Worker>): nat {
    if workers == [] then 0 else IsActive(workers[0]) + ActiveWorkers(workers[1..])
  }

  function ActiveIn(workers: seq<Worker>, priority: nat): nat {
    if workers == [] then 0
    else (if IsActive(workers[0]) == 1 && workers[0].work.priority == priority then 1 else 0) + ActiveIn(workers[1..], priority)
  }

  // ----- the invariant -----

  /** Conservation: every accepted request is unresolved in one place, or resolved once. */
  predicate Conserved(p: Pool)
    requires Shape(p)
  {
    Unresolved(p) + Resolved(p) == Accepted(p.submitted)
  }

  predicate CountsTruthful(p: Pool)
    requires Shape(p)
  {
    && p.active == ActiveWorkers(p.workers)
    && forall priority :: 0 <= priority < 3 ==> p.activeBy[priority] == ActiveIn(p.workers, priority)
  }

  predicate Bounded(p: Pool)
    requires Shape(p)
  {
    p.active + Queued(p) <= p.options.maxPending && p.activeBy[2] <= HistoricalLimit(p.options)
  }

  predicate QueuedWork(p: Pool, work: Work, priority: nat) {
    work.priority == priority && work.runs == work.attempts <= p.options.retryLimit
  }

  predicate HeldWork(p: Pool, work: Work) {
    work.priority < 3 && work.runs == work.attempts + 1 && work.attempts <= p.options.retryLimit
  }

  /** A request is run at most once more than it is retried, and retried within the limit. */
  ghost predicate RunsBounded(p: Pool)
    requires Shape(p)
  {
    && (forall priority, i :: 0 <= priority < 3 && 0 <= i < |p.queues[priority]| ==> QueuedWork(p, p.queues[priority][i], priority))
    && (forall w :: 0 <= w < |p.workers| && !p.workers[w].Idle? && !p.workers[w].Exited? ==> HeldWork(p, p.workers[w].work))
  }

  /** A pool that is shutting down has emptied its queues; until then no worker has left. */
  ghost predicate StopSound(p: Pool)
    requires Shape(p)
  {
    && (p.stopping ==> p.queues == [[], [], []])
    && (!p.stopping ==> p.abandoned == [] && forall w :: 0 <= w < |p.workers| ==> !p.workers[w].Exited?)
  }

  ghost predicate Invariant(p: Pool) {
    && Shape(p) && |p.workers| == p.options.workers && p.options.workers > 0 && p.options.maxPending > 0
    && Conserved(p) && CountsTruthful(p) && Bounded(p) && RunsBounded(p) && StopSound(p)
  }
}
