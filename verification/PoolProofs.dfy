/** What every run of the pool keeps, and that its own steps always end with every request resolved. */
module PoolProofs {
  import opened Pool

  // ----- sums over workers and queues -----

  lemma {:induction false} IdsConcat(a: seq<Work>, b: seq<Work>)
    ensures Ids(a + b) == Ids(a) + Ids(b)
  {
    if a == [] {
      assert a + b == b;
    } else {
      assert (a + b)[0] == a[0] && (a + b)[1..] == a[1..] + b;
      IdsConcat(a[1..], b);
    }
  }

  lemma IdsOne(work: Work)
    ensures Ids([work]) == multiset{work.id}
  {
    assert [work][1..] == [];
  }

  lemma Shifted(first: multiset<nat>, rest: multiset<nat>, next: multiset<nat>, before: multiset<nat>, after: multiset<nat>)
    requires next + before == rest + after
    ensures first + next + before == first + rest + after
  {
    assert first + next + before == first + (next + before);
    assert first + rest + after == first + (rest + after);
  }

  lemma {:induction false} HeldUpdated(workers: seq<Worker>, w: nat, next: Worker)
    requires w < |workers|
    ensures HeldIds(workers[w := next]) + HeldId(workers[w]) == HeldIds(workers) + HeldId(next)
  {
    hide HeldId;
    var changed := workers[w := next];
    if w == 0 {
      assert changed[1..] == workers[1..];
      var rest := HeldIds(workers[1..]);
      assert HeldId(next) + rest + HeldId(workers[0]) == HeldId(workers[0]) + rest + HeldId(next);
    } else {
      assert changed[1..] == workers[1..][w - 1 := next];
      HeldUpdated(workers[1..], w - 1, next);
      Shifted(HeldId(workers[0]), HeldIds(workers[1..]), HeldIds(changed[1..]), HeldId(workers[w]), HeldId(next));
    }
  }

  lemma {:induction false} ActiveUpdated(workers: seq<Worker>, w: nat, next: Worker)
    requires w < |workers|
    ensures ActiveWorkers(workers[w := next]) + IsActive(workers[w]) == ActiveWorkers(workers) + IsActive(next)
  {
    hide IsActive;
    if w == 0 {
      assert workers[0 := next][1..] == workers[1..];
    } else {
      assert workers[w := next][1..] == workers[1..][w - 1 := next];
      ActiveUpdated(workers[1..], w - 1, next);
    }
  }

  function IsActiveIn(w: Worker, priority: nat): nat {
    if IsActive(w) == 1 && w.work.priority == priority then 1 else 0
  }

  lemma {:induction false} ActiveInUpdated(workers: seq<Worker>, w: nat, next: Worker, priority: nat)
    requires w < |workers|
    ensures ActiveIn(workers[w := next], priority) + IsActiveIn(workers[w], priority) ==
            ActiveIn(workers, priority) + IsActiveIn(next, priority)
  {
    if w == 0 {
      assert workers[0 := next][1..] == workers[1..];
    } else {
      assert workers[w := next][1..] == workers[1..][w - 1 := next];
      ActiveInUpdated(workers[1..], w - 1, next, priority);
    }
  }

  /** The counters of active work never run out while a worker is active. */
  lemma LeavingAllowed(p: Pool, w: nat)
    requires Invariant(p) && w < |p.workers| && IsActive(p.workers[w]) == 1
    ensures LeavesActive(p, p.workers[w].work.priority)
  {
    hide Conserved, StopSound, ActiveWorkers, ActiveIn;
    ActiveUpdated(p.workers, w, Idle);
    ActiveInUpdated(p.workers, w, Idle, p.workers[w].work.priority);
  }

  // ----- counts -----

  lemma CountsUpdated(p: Pool, w: nat, next: Worker, q: Pool)
    requires Shape(p) && Shape(q) && w < |p.workers| && CountsTruthful(p) && q.workers == p.workers[w := next]
    requires q.active + IsActive(p.workers[w]) == p.active + IsActive(next)
    requires forall priority :: 0 <= priority < 3 ==>
               q.activeBy[priority] + IsActiveIn(p.workers[w], priority) == p.activeBy[priority] + IsActiveIn(next, priority)
    ensures CountsTruthful(q)
  {
    hide IsActive, IsActiveIn, ActiveWorkers, ActiveIn;
    ActiveUpdated(p.workers, w, next);
    forall priority | 0 <= priority < 3
      ensures q.activeBy[priority] == ActiveIn(q.workers, priority)
    {
      ActiveInUpdated(p.workers, w, next, priority);
    }
  }

  // ----- conservation -----

  /** Two pools hold each request equally often, counting every place it can be. */
  ghost predicate SameHoldings(p: Pool, q: Pool)
    requires Shape(p) && Shape(q)
  {
    forall id :: Waiting(q)[id] + Ids(q.abandoned)[id] + HeldIds(q.workers)[id] + Resolved(q)[id] ==
                 Waiting(p)[id] + Ids(p.abandoned)[id] + HeldIds(p.workers)[id] + Resolved(p)[id]
  }

  lemma HoldingsConserved(p: Pool, q: Pool)
    requires Shape(p) && Shape(q) && Conserved(p) && SameHoldings(p, q) && q.submitted == p.submitted
    ensures Conserved(q)
  {
    hide Waiting, Ids, HeldIds, Resolved, Accepted;
    forall id
      ensures (Unresolved(q) + Resolved(q))[id] == Accepted(q.submitted)[id]
    {
      assert (Unresolved(p) + Resolved(p))[id] == Accepted(p.submitted)[id];
    }
  }

  /** A worker step that moves a request between its worker and the resolved ones. */
  lemma WorkerConserves(p: Pool, q: Pool, w: nat, next: Worker)
    requires Shape(p) && Shape(q) && Conserved(p) && w < |p.workers|
    requires q.queues == p.queues && q.abandoned == p.abandoned && q.submitted == p.submitted && q.workers == p.workers[w := next]
    requires Resolved(q) + HeldId(next) == Resolved(p) + HeldId(p.workers[w])
    ensures Conserved(q)
  {
    hide Waiting, Ids, HeldIds, HeldId, Resolved, Accepted, Conserved;
    HeldUpdated(p.workers, w, next);
    forall id
      ensures HeldIds(q.workers)[id] + Resolved(q)[id] == HeldIds(p.workers)[id] + Resolved(p)[id]
    {
      assert (HeldIds(q.workers) + HeldId(p.workers[w]))[id] == (HeldIds(p.workers) + HeldId(next))[id];
      assert (Resolved(q) + HeldId(next))[id] == (Resolved(p) + HeldId(p.workers[w]))[id];
    }
    WaitingSame(p, q);
    HoldingsConserved(p, q);
  }

  lemma WaitingSame(p: Pool, q: Pool)
    requires Shape(p) && Shape(q) && q.queues == p.queues
    ensures Waiting(q) == Waiting(p)
  {
  }

  lemma {:induction false} QueueChanged(p: Pool, q: Pool, priority: nat, x: multiset<nat>, y: multiset<nat>)
    requires Shape(p) && Shape(q) && priority < 3 && q.queues == p.queues[priority := q.queues[priority]]
    requires Ids(q.queues[priority]) + x == Ids(p.queues[priority]) + y
    ensures forall id :: Waiting(q)[id] + x[id] == Waiting(p)[id] + y[id]
  {
    hide Ids;
    forall id
      ensures Waiting(q)[id] + x[id] == Waiting(p)[id] + y[id]
    {
      assert (Ids(q.queues[priority]) + x)[id] == (Ids(p.queues[priority]) + y)[id];
    }
  }

  /** A step that moves one request between a queue and a worker. */
  lemma MoveConserves(p: Pool, q: Pool, w: nat, next: Worker, priority: nat)
    requires Shape(p) && Shape(q) && Conserved(p) && w < |p.workers| && priority < 3
    requires q.abandoned == p.abandoned && q.submitted == p.submitted && q.workers == p.workers[w := next]
    requires q.succeeded == p.succeeded && q.errored == p.errored && q.shutDown == p.shutDown
    requires q.queues == p.queues[priority := q.queues[priority]]
    requires Ids(q.queues[priority]) + HeldId(next) == Ids(p.queues[priority]) + HeldId(p.workers[w])
    ensures Conserved(q)
  {
    hide Waiting, Ids, HeldIds, HeldId, Accepted, Conserved, Resolved;
    HeldUpdated(p.workers, w, next);
    QueueChanged(p, q, priority, HeldId(next), HeldId(p.workers[w]));
    ResolvedSame(p, q);
    forall id
      ensures Waiting(q)[id] + HeldIds(q.workers)[id] == Waiting(p)[id] + HeldIds(p.workers)[id]
    {
      assert (HeldIds(q.workers) + HeldId(p.workers[w]))[id] == (HeldIds(p.workers) + HeldId(next))[id];
    }
    HoldingsConserved(p, q);
  }

  lemma ResolvedSame(p: Pool, q: Pool)
    requires q.succeeded == p.succeeded && q.errored == p.errored && q.shutDown == p.shutDown
    ensures Resolved(q) == Resolved(p)
  {
  }

  // ----- the other parts of the invariant, for a step of one worker -----

  lemma RunsKept(p: Pool, q: Pool, w: nat, next: Worker)
    requires Shape(p) && Shape(q) && RunsBounded(p) && w < |p.workers| && q.options == p.options
    requires q.queues == p.queues && q.workers == p.workers[w := next]
    requires next.Idle? || next.Exited? || HeldWork(p, next.work)
    ensures RunsBounded(q)
  {
    hide HeldWork, QueuedWork;
    forall priority, i | 0 <= priority < 3 && 0 <= i < |q.queues[priority]|
      ensures QueuedWork(q, q.queues[priority][i], priority)
    {
      QueuedIn(p, q, p.queues[priority][i], priority);
    }
    forall v | 0 <= v < |q.workers| && !q.workers[v].Idle? && !q.workers[v].Exited?
      ensures HeldWork(q, q.workers[v].work)
    {
      HeldIn(p, q, q.workers[v].work);
    }
  }

  lemma QueuedIn(p: Pool, q: Pool, work: Work, priority: nat)
    requires q.options == p.options
    ensures QueuedWork(q, work, priority) == QueuedWork(p, work, priority)
  {
  }

  lemma HeldIn(p: Pool, q: Pool, work: Work)
    requires q.options == p.options
    ensures HeldWork(q, work) == HeldWork(p, work)
  {
  }

  /** The parts of a pool that a step of one worker, away from the queues, leaves alone. */
  predicate WorkerStep(p: Pool, q: Pool, w: nat, next: Worker) {
    && Shape(p) && Shape(q) && w < |p.workers| && q.workers == p.workers[w := next] && !p.workers[w].Exited?
    && q.options == p.options && q.queues == p.queues && q.stopping == p.stopping && q.abandoned == p.abandoned
    && q.submitted == p.submitted
    && q.active + IsActive(p.workers[w]) == p.active + IsActive(next)
    && (forall priority :: 0 <= priority < 3 ==>
          q.activeBy[priority] + IsActiveIn(p.workers[w], priority) == p.activeBy[priority] + IsActiveIn(next, priority))
    && IsActive(next) <= IsActive(p.workers[w]) && IsActiveIn(next, 2) <= IsActiveIn(p.workers[w], 2)
    && (next.Idle? || (next.Exited? && p.stopping) || (!next.Exited? && HeldWork(p, next.work)))
    && Resolved(q) + HeldId(next) == Resolved(p) + HeldId(p.workers[w])
  }

  lemma WorkerStepKeeps(p: Pool, q: Pool, w: nat, next: Worker)
    requires Invariant(p) && WorkerStep(p, q, w, next)
    ensures Invariant(q)
  {
    WorkerConserves(p, q, w, next);
    CountsUpdated(p, w, next, q);
    RunsKept(p, q, w, next);
    hide Conserved, CountsTruthful, RunsBounded, IsActive, IsActiveIn, Resolved, HeldId;
  }

  // ----- one lemma for each step -----

  lemma SubmitKeeps(p: Pool, priority: nat)
    requires Invariant(p) && Enabled(p, Submit(priority))
    ensures Invariant(After(p, Submit(priority)))
  {
    hide Ids, HeldIds, Accepted, ActiveWorkers, ActiveIn;
    if Accepts(p) {
      SubmitConserves(p, priority);
      SubmitRuns(p, priority);
      hide Conserved, RunsBounded;
    } else {
      assert After(p, Submit(priority)).(rejected := p.rejected) == p;
      RejectedKeeps(p, After(p, Submit(priority)));
    }
  }

  lemma RejectedKeeps(p: Pool, q: Pool)
    requires Invariant(p) && q.(rejected := p.rejected) == p
    ensures Invariant(q)
  {
    hide Ids, HeldIds, Accepted, ActiveWorkers, ActiveIn, Accepted;
  }

  lemma SubmitRuns(p: Pool, priority: nat)
    requires Invariant(p) && priority < 3 && Accepts(p)
    ensures RunsBounded(After(p, Submit(priority)))
  {
    hide Conserved, CountsTruthful, Bounded, StopSound;
  }

  lemma SubmitConserves(p: Pool, priority: nat)
    requires Invariant(p) && priority < 3 && Accepts(p)
    ensures Conserved(After(p, Submit(priority)))
  {
    hide CountsTruthful, Bounded, StopSound, RunsBounded;
    var q := After(p, Submit(priority));
    EnqueuedConserves(p, q, priority);
  }

  lemma EnqueuedConserves(p: Pool, q: Pool, priority: nat)
    requires Shape(p) && Shape(q) && Conserved(p) && priority < 3 && q.submitted == p.submitted + 1
    requires q.queues == p.queues[priority := p.queues[priority] + [Work(p.submitted, priority, 0, 0)]]
    requires q.workers == p.workers && q.abandoned == p.abandoned
    requires q.succeeded == p.succeeded && q.errored == p.errored && q.shutDown == p.shutDown
    ensures Conserved(q)
  {
    hide Waiting, HeldIds, Accepted, Resolved;
    var work := Work(p.submitted, priority, 0, 0);
    assert Ids(p.queues[priority] + [work]) + multiset{} == Ids(p.queues[priority]) + multiset{p.submitted} by {
      IdsConcat(p.queues[priority], [work]);
      IdsOne(work);
    }
    QueueChanged(p, q, priority, multiset{}, multiset{p.submitted});
    AcceptedNext(p.submitted);
    ResolvedSame(p, q);
    hide Ids;
    forall id
      ensures (Unresolved(q) + Resolved(q))[id] == Accepted(q.submitted)[id]
    {
      assert (Unresolved(p) + Resolved(p))[id] == Accepted(p.submitted)[id];
    }
  }

  lemma AcceptedNext(count: nat)
    ensures Accepted(count + 1) == Accepted(count) + multiset{count}
  {
  }

  lemma TakeKeeps(p: Pool, w: nat)
    requires Invariant(p) && Enabled(p, Take(w))
    ensures Invariant(After(p, Take(w)))
  {
    hide Conserved, CountsTruthful, RunsBounded;
    var q := After(p, Take(w));
    if p.stopping {
      assert WorkerStep(p, q, w, Exited);
      hide Invariant;
      WorkerStepKeeps(p, q, w, Exited);
    } else {
      TakeConserves(p, w);
      TakeCounts(p, w);
      TakeRuns(p, w);
      TakeBounded(p, w);
      hide Conserved, CountsTruthful, RunsBounded, Bounded;
    }
  }

  lemma TakeBounded(p: Pool, w: nat)
    requires Invariant(p) && Enabled(p, Take(w)) && !p.stopping
    ensures Bounded(After(p, Take(w))) && StopSound(After(p, Take(w)))
  {
    hide Conserved, CountsTruthful, RunsBounded;
  }

  lemma TakeCounts(p: Pool, w: nat)
    requires Invariant(p) && Enabled(p, Take(w)) && !p.stopping
    ensures CountsTruthful(After(p, Take(w)))
  {
    hide Conserved, Bounded, RunsBounded, StopSound;
    var q, priority := After(p, Take(w)), NextClass(p);
    assert q.workers[w].work.priority == priority by {
      FrontClass(p, priority);
    }
    CountsUpdated(p, w, q.workers[w], q);
  }

  lemma FrontClass(p: Pool, priority: nat)
    requires Shape(p) && RunsBounded(p) && priority < 3 && p.queues[priority] != []
    ensures p.queues[priority][0].priority == priority
  {
    assert QueuedWork(p, p.queues[priority][0], priority);
  }

  lemma {:induction false} FrontMoved(queue: seq<Work>)
    requires queue != []
    ensures Ids(queue[1..]) + multiset{queue[0].id} == Ids(queue) + multiset{}
  {
  }

  lemma TakeConserves(p: Pool, w: nat)
    requires Invariant(p) && Enabled(p, Take(w)) && !p.stopping
    ensures Conserved(After(p, Take(w)))
  {
    hide CountsTruthful, Bounded, StopSound, RunsBounded, Conserved, Ids, HeldIds, Accepted;
    var q, priority := After(p, Take(w)), NextClass(p);
    FrontMoved(p.queues[priority]);
    assert HeldId(p.workers[w]) == multiset{} && HeldId(q.workers[w]) == multiset{p.queues[priority][0].id};
    hide HeldId;
    MoveConserves(p, q, w, q.workers[w], priority);
  }

  lemma TakeRuns(p: Pool, w: nat)
    requires Invariant(p) && Enabled(p, Take(w)) && !p.stopping
    ensures RunsBounded(After(p, Take(w)))
  {
    hide Conserved, CountsTruthful, Bounded, StopSound;
    var q, priority := After(p, Take(w)), NextClass(p);
    var queue := p.queues[priority];
    assert QueuedWork(p, queue[0], priority);
    assert forall i :: 0 <= i < |queue[1..]| ==> queue[1..][i] == queue[i + 1];
  }

  lemma CountSuccessKeeps(p: Pool, w: nat)
    requires Invariant(p) && Enabled(p, CountSuccess(w))
    ensures Invariant(After(p, CountSuccess(w)))
  {
    var q := After(p, CountSuccess(w));
    assert HeldWork(p, p.workers[w].work);
    assert WorkerStep(p, q, w, q.workers[w]);
    hide Invariant;
    WorkerStepKeeps(p, q, w, q.workers[w]);
  }

  lemma FulfilKeeps(p: Pool, w: nat)
    requires Invariant(p) && Enabled(p, Fulfil(w))
    ensures Invariant(After(p, Fulfil(w)))
  {
    hide Conserved, CountsTruthful, Bounded, StopSound;
    var q := After(p, Fulfil(w));
    assert HeldWork(p, p.workers[w].work);
    assert WorkerStep(p, q, w, q.workers[w]);
    hide Invariant;
    WorkerStepKeeps(p, q, w, q.workers[w]);
  }

  lemma LeaveActiveKeeps(p: Pool, w: nat)
    requires Invariant(p) && Enabled(p, LeaveActive(w))
    ensures Invariant(After(p, LeaveActive(w)))
  {
    hide Conserved, CountsTruthful, Bounded, StopSound, RunsBounded;
    var q := After(p, LeaveActive(w));
    assert WorkerStep(p, q, w, Idle);
    hide Invariant;
    WorkerStepKeeps(p, q, w, Idle);
  }

  lemma FailKeeps(p: Pool, w: nat)
    requires Invariant(p) && Enabled(p, Fail(w))
    ensures Invariant(After(p, Fail(w)))
  {
    var q := After(p, Fail(w));
    var work := p.workers[w].work;
    if Retries(p, work) {
      RetryKeeps(p, w);
    } else {
      hide Conserved, CountsTruthful, Bounded, StopSound;
      assert HeldWork(p, work);
      assert WorkerStep(p, q, w, Failing(work));
      hide Invariant;
      WorkerStepKeeps(p, q, w, Failing(work));
    }
  }

  lemma RetryKeeps(p: Pool, w: nat)
    requires Invariant(p) && Enabled(p, Fail(w)) && Retries(p, p.workers[w].work)
    ensures Invariant(After(p, Fail(w)))
  {
    hide Ids, HeldIds, Accepted, ActiveWorkers, ActiveIn;
    var q := After(p, Fail(w));
    RetryConserves(p, w);
    CountsUpdated(p, w, Idle, q);
    hide Conserved, CountsTruthful;
    RetryRuns(p, w);
  }

  lemma RetryConserves(p: Pool, w: nat)
    requires Invariant(p) && Enabled(p, Fail(w)) && Retries(p, p.workers[w].work)
    ensures Conserved(After(p, Fail(w)))
  {
    var q, work := After(p, Fail(w)), p.workers[w].work;
    var retried := work.(attempts := work.attempts + 1);
    hide CountsTruthful, Bounded, StopSound, RunsBounded, Conserved, HeldIds, Accepted;
    IdsConcat([retried], p.queues[work.priority]);
    IdsOne(retried);
    hide Ids;
    MoveConserves(p, q, w, Idle, work.priority);
  }

  lemma RetryRuns(p: Pool, w: nat)
    requires Invariant(p) && Enabled(p, Fail(w)) && Retries(p, p.workers[w].work)
    ensures RunsBounded(After(p, Fail(w)))
  {
    hide Conserved, CountsTruthful, Bounded, StopSound;
    assert HeldWork(p, p.workers[w].work);
  }

  lemma FailPromiseKeeps(p: Pool, w: nat)
    requires Invariant(p) && Enabled(p, FailPromise(w))
    ensures Invariant(After(p, FailPromise(w)))
  {
    hide Conserved, CountsTruthful, Bounded, StopSound, RunsBounded;
    var q := After(p, FailPromise(w));
    assert WorkerStep(p, q, w, Idle);
    hide Invariant;
    WorkerStepKeeps(p, q, w, Idle);
  }

  lemma StopKeeps(p: Pool)
    requires Invariant(p) && Enabled(p, Stop)
    ensures Invariant(After(p, Stop))
  {
    hide Conserved, ActiveWorkers, ActiveIn;
    StopConserves(p);
  }

  lemma StopConserves(p: Pool)
    requires Invariant(p) && Enabled(p, Stop)
    ensures Conserved(After(p, Stop))
  {
    hide CountsTruthful, Bounded, RunsBounded;
    var q := After(p, Stop);
    IdsConcat(p.queues[0] + p.queues[1], p.queues[2]);
    IdsConcat(p.queues[0], p.queues[1]);
    ResolvedSame(p, q);
    assert Waiting(q) == multiset{} && Ids(p.abandoned) == multiset{} && Ids(q.abandoned) == Waiting(p);
    hide Ids, Waiting, HeldIds, Resolved, Accepted, Conserved;
    HoldingsConserved(p, q);
  }

  lemma AbandonKeeps(p: Pool)
    requires Invariant(p) && Enabled(p, Abandon)
    ensures Invariant(After(p, Abandon))
  {
    hide Conserved, ActiveWorkers, ActiveIn;
    AbandonConserves(p);
  }

  lemma AbandonConserves(p: Pool)
    requires Invariant(p) && Enabled(p, Abandon)
    ensures Conserved(After(p, Abandon))
  {
    hide CountsTruthful, Bounded, RunsBounded, StopSound;
    var q := After(p, Abandon);
    assert Ids(p.abandoned) == multiset{p.abandoned[0].id} + Ids(p.abandoned[1..]);
    WaitingSame(p, q);
    hide Waiting, Ids, HeldIds, Accepted, Conserved;
    HoldingsConserved(p, q);
  }

  lemma CancelKeeps(p: Pool, request: nat)
    requires Invariant(p)
    ensures Invariant(After(p, Cancel(request)))
  {
    hide Ids, HeldIds, ActiveWorkers, ActiveIn, Accepted;
  }

  lemma StepKeepsInvariant(p: Pool, step: Step)
    requires Invariant(p) && Enabled(p, step)
    ensures Invariant(After(p, step))
  {
    hide *;
    match step
    case Submit(priority) => SubmitKeeps(p, priority);
    case Cancel(request) => CancelKeeps(p, request);
    case Take(w) => TakeKeeps(p, w);
    case CountSuccess(w) => CountSuccessKeeps(p, w);
    case Fulfil(w) => FulfilKeeps(p, w);
    case LeaveActive(w) => LeaveActiveKeeps(p, w);
    case Fail(w) => FailKeeps(p, w);
    case FailPromise(w) => FailPromiseKeeps(p, w);
    case Stop => StopKeeps(p);
    case Abandon => AbandonKeeps(p);
  }

  lemma OptionsKept(p: Pool, step: Step)
    requires Shape(p) && Enabled(p, step)
    ensures After(p, step).options == p.options
  {
  }

  // ----- runs -----

  lemma {:induction false} IdleHoldNothing(workers: seq<Worker>)
    requires forall w :: 0 <= w < |workers| ==> workers[w].Idle?
    ensures HeldIds(workers) == multiset{} && ActiveWorkers(workers) == 0
    ensures forall priority :: ActiveIn(workers, priority) == 0
  {
    if workers != [] {
      IdleHoldNothing(workers[1..]);
    }
  }

  lemma StartInvariant(options: Options)
    requires options.workers > 0 && options.maxPending > 0
    ensures Invariant(Start(options))
  {
    IdleHoldNothing(Start(options).workers);
    hide HeldIds, ActiveWorkers, ActiveIn;
  }

  ghost predicate IsRun(p: Pool, steps: seq<Step>)
    decreases |steps|
  {
    Shape(p) && (steps == [] || (Enabled(p, steps[0]) && IsRun(After(p, steps[0]), steps[1..])))
  }

  ghost function Reached(p: Pool, steps: seq<Step>): Pool
    requires IsRun(p, steps)
    decreases |steps|
  {
    if steps == [] then p else Reached(After(p, steps[0]), steps[1..])
  }

  lemma {:induction false} RunKeepsInvariant(p: Pool, steps: seq<Step>)
    requires Invariant(p) && IsRun(p, steps)
    ensures Invariant(Reached(p, steps)) && Reached(p, steps).options == p.options
    decreases |steps|
  {
    hide Invariant, After, Enabled;
    if steps != [] {
      StepKeepsInvariant(p, steps[0]);
      OptionsKept(p, steps[0]);
      RunKeepsInvariant(After(p, steps[0]), steps[1..]);
    }
  }

  lemma {:induction false} AcceptedOnce(count: nat, id: nat)
    ensures Accepted(count)[id] == if id < count then 1 else 0
  {
    if count > 0 {
      AcceptedOnce(count - 1, id);
    }
  }

  /** Over every interleaving: no request is resolved twice, a resolved one is nowhere in the pool, an
      accepted one that is not resolved is in exactly one place; pending and historical work stay within
      their limits; and no request in the pool has run more than once beyond its retries. */
  lemma {:induction false} PoolSafety(options: Options, steps: seq<Step>, id: nat)
    requires options.workers > 0 && options.maxPending > 0 && IsRun(Start(options), steps)
    ensures
      var p := Reached(Start(options), steps);
      && Shape(p)
      && Resolved(p)[id] <= 1
      && Unresolved(p)[id] + Resolved(p)[id] == (if id < p.submitted then 1 else 0)
      && p.active + Queued(p) <= options.maxPending
      && p.activeBy[2] <= (if options.workers - 1 > 1 then options.workers - 1 else 1)
      && (forall w :: 0 <= w < |p.workers| && !p.workers[w].Idle? && !p.workers[w].Exited? ==>
            p.workers[w].work.runs <= options.retryLimit + 1)
  {
    hide Start, After, Enabled, Accepted, Ids, HeldIds, ActiveWorkers, ActiveIn, IsRun, Reached, StopSound, CountsTruthful;
    StartInvariant(options);
    StartOptions(options);
    RunKeepsInvariant(Start(options), steps);
    var p := Reached(Start(options), steps);
    AcceptedOnce(p.submitted, id);
    assert (Unresolved(p) + Resolved(p))[id] == Accepted(p.submitted)[id];
    forall w | 0 <= w < |p.workers| && !p.workers[w].Idle? && !p.workers[w].Exited?
      ensures p.workers[w].work.runs <= options.retryLimit + 1
    {
      assert HeldWork(p, p.workers[w].work);
    }
  }

  lemma StartOptions(options: Options)
    ensures Start(options).options == options
  {
  }

  /** Historical work is taken only when nothing else waits and below its limit; a class is taken only
      when no higher one waits; and always from the front of its queue. */
  lemma TakeOrder(p: Pool, w: nat)
    requires Shape(p) && Enabled(p, Take(w)) && !p.stopping
    ensures
      var taken := After(p, Take(w)).workers[w].work;
      exists priority | 0 <= priority < 3 ::
        && p.queues[priority] != [] && taken == p.queues[priority][0].(runs := taken.runs)
        && (forall higher :: 0 <= higher < priority ==> p.queues[higher] == [])
        && (priority == 2 ==> p.activeBy[2] < HistoricalLimit(p.options))
  {
    var priority := NextClass(p);
    assert p.queues[priority] != [];
  }

  // ----- every request is resolved in the end -----

  /** Steps the pool takes by itself. */
  predicate Internal(step: Step) {
    !step.Submit? && !step.Cancel? && !step.Stop?
  }

  function RunsLeft(options: Options, attempts: nat): nat {
    if attempts < options.retryLimit then options.retryLimit - attempts else 0
  }

  function QueueWeight(options: Options, queue: seq<Work>): nat {
    if queue == [] then 0 else 6 * RunsLeft(options, queue[0].attempts) + 6 + QueueWeight(options, queue[1..])
  }

  function WorkerWeight(options: Options, w: Worker): nat {
    match w
    case Idle => 1
    case Running(work) => 6 * RunsLeft(options, work.attempts) + 5
    case Counted(_) => 3
    case Finishing(_) => 2
    case Failing(_) => 2
    case Exited => 0
  }

  function WorkersWeight(options: Options, workers: seq<Worker>): nat {
    if workers == [] then 0 else WorkerWeight(options, workers[0]) + WorkersWeight(options, workers[1..])
  }

  function Measure(p: Pool): nat
    requires Shape(p)
  {
    QueueWeight(p.options, p.queues[0]) + QueueWeight(p.options, p.queues[1]) + QueueWeight(p.options, p.queues[2]) +
    WorkersWeight(p.options, p.workers) + |p.abandoned|
  }

  lemma {:induction false} WeightUpdated(options: Options, workers: seq<Worker>, w: nat, next: Worker)
    requires w < |workers|
    ensures WorkersWeight(options, workers[w := next]) + WorkerWeight(options, workers[w]) ==
            WorkersWeight(options, workers) + WorkerWeight(options, next)
  {
    hide WorkerWeight;
    if w == 0 {
      assert workers[0 := next][1..] == workers[1..];
    } else {
      assert workers[w := next][1..] == workers[1..][w - 1 := next];
      WeightUpdated(options, workers[1..], w - 1, next);
    }
  }

  lemma {:induction false} QueuePushed(options: Options, work: Work, queue: seq<Work>)
    ensures QueueWeight(options, [work] + queue) == 6 * RunsLeft(options, work.attempts) + 6 + QueueWeight(options, queue)
  {
    assert ([work] + queue)[1..] == queue;
  }

  lemma WorkerStepDecreases(p: Pool, q: Pool, w: nat, next: Worker)
    requires Shape(p) && Shape(q) && w < |p.workers| && q.workers == p.workers[w := next] && q.options == p.options
    requires q.queues == p.queues && q.abandoned == p.abandoned
    requires WorkerWeight(p.options, next) < WorkerWeight(p.options, p.workers[w])
    ensures Measure(q) < Measure(p)
  {
    hide WorkerWeight, QueueWeight;
    WeightUpdated(p.options, p.workers, w, next);
  }

  lemma MoveDecreases(p: Pool, q: Pool, w: nat, next: Worker, priority: nat)
    requires Shape(p) && Shape(q) && w < |p.workers| && q.workers == p.workers[w := next] && q.options == p.options
    requires priority < 3 && q.queues == p.queues[priority := q.queues[priority]] && q.abandoned == p.abandoned
    requires WorkerWeight(p.options, next) + QueueWeight(p.options, q.queues[priority]) <
             WorkerWeight(p.options, p.workers[w]) + QueueWeight(p.options, p.queues[priority])
    ensures Measure(q) < Measure(p)
  {
    hide WorkerWeight, QueueWeight;
    WeightUpdated(p.options, p.workers, w, next);
  }

  lemma TakeDecreases(p: Pool, w: nat)
    requires Shape(p) && Enabled(p, Take(w))
    ensures Measure(After(p, Take(w))) < Measure(p)
  {
    var q := After(p, Take(w));
    if p.stopping {
        WorkerStepDecreases(p, q, w, Exited);
    } else {
      var priority := NextClass(p);
        MoveDecreases(p, q, w, q.workers[w], priority);
    }
  }

  lemma FailDecreases(p: Pool, w: nat)
    requires Shape(p) && Enabled(p, Fail(w))
    ensures Measure(After(p, Fail(w))) < Measure(p)
  {
    var q, work := After(p, Fail(w)), p.workers[w].work;
    if Retries(p, work) {
      QueuePushed(p.options, work.(attempts := work.attempts + 1), p.queues[work.priority]);
      MoveDecreases(p, q, w, Idle, work.priority);
    } else {
      WorkerStepDecreases(p, q, w, Failing(work));
    }
  }

  /** Each of the pool's own steps uses up some of the measure. */
  lemma InternalDecreases(p: Pool, step: Step)
    requires Shape(p) && Enabled(p, step) && Internal(step)
    ensures Measure(After(p, step)) < Measure(p)
  {
    match step
    case Take(w) => TakeDecreases(p, w);
    case CountSuccess(w) => WorkerStepDecreases(p, After(p, step), w, Counted(p.workers[w].work));
    case Fulfil(w) => WorkerStepDecreases(p, After(p, step), w, Finishing(p.workers[w].work));
    case LeaveActive(w) => WorkerStepDecreases(p, After(p, step), w, Idle);
    case Fail(w) => FailDecreases(p, w);
    case FailPromise(w) => WorkerStepDecreases(p, After(p, step), w, Idle);
    case Abandon =>
  }

  /** Without new requests the pool takes at most `Measure` steps. */
  lemma {:induction false} InternalRunsEnd(p: Pool, steps: seq<Step>)
    requires Invariant(p) && IsRun(p, steps) && forall s :: s in steps ==> Internal(s)
    ensures |steps| <= Measure(p)
    decreases |steps|
  {
    hide Invariant, After, Enabled, Measure, Internal;
    if steps != [] {
      assert steps[0] in steps && forall s :: s in steps[1..] ==> s in steps;
      InternalDecreases(p, steps[0]);
      StepKeepsInvariant(p, steps[0]);
      InternalRunsEnd(After(p, steps[0]), steps[1..]);
    }
  }

  predicate CanStep(p: Pool, step: Step)
    requires Shape(p)
  {
    Internal(step) && Enabled(p, step)
  }

  lemma BusyWorkerSteps(p: Pool, w: nat)
    requires Invariant(p) && w < |p.workers| && !p.workers[w].Idle? && !p.workers[w].Exited?
    ensures exists step :: CanStep(p, step)
  {
    match p.workers[w]
    case Running(_) => assert CanStep(p, CountSuccess(w));
    case Counted(_) => assert CanStep(p, Fulfil(w));
    case Finishing(_) =>
      LeavingAllowed(p, w);
      assert CanStep(p, LeaveActive(w));
    case Failing(_) => assert CanStep(p, FailPromise(w));
  }

  lemma {:induction false} RestingHoldNothing(workers: seq<Worker>)
    requires forall w :: 0 <= w < |workers| ==> workers[w].Idle? || workers[w].Exited?
    ensures HeldIds(workers) == multiset{} && ActiveIn(workers, 2) == 0
  {
    if workers != [] {
      RestingHoldNothing(workers[1..]);
    }
  }

  lemma RestingPoolTakes(p: Pool)
    requires Invariant(p) && Waiting(p) != multiset{} && p.activeBy[2] == 0
    requires p.workers[0].Idle? || p.workers[0].Exited?
    ensures Enabled(p, Take(0))
  {
    hide Conserved, CountsTruthful, Bounded, RunsBounded, HeldIds;
  }

  /** While a request is unresolved the pool can step: it never waits for ever. */
  lemma Progress(p: Pool)
    requires Invariant(p) && Unresolved(p) != multiset{}
    ensures exists step :: CanStep(p, step)
  {
    hide Conserved, RunsBounded, Bounded, HeldIds, ActiveWorkers, ActiveIn, Waiting;
    if p.abandoned != [] {
      assert CanStep(p, Abandon);
    } else if w :| 0 <= w < |p.workers| && !p.workers[w].Idle? && !p.workers[w].Exited? {
      BusyWorkerSteps(p, w);
    } else {
      RestingHoldNothing(p.workers);
      RestingPoolTakes(p);
      assert CanStep(p, Take(0));
    }
  }

  /** When the pool can take no step of its own, every accepted request has been resolved exactly once. */
  lemma QuiescentResolved(p: Pool)
    requires Invariant(p) && forall step :: !CanStep(p, step)
    ensures Resolved(p) == Accepted(p.submitted)
  {
    if Unresolved(p) != multiset{} {
      Progress(p);
    }
    hide Unresolved, Accepted;
  }
}
