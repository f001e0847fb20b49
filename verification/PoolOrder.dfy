/** In which order the pool serves requests of one class, and when it runs a request again. */
module PoolOrder {
  import opened Pool
  import opened PoolProofs

  predicate Fresh(work: Work) {
    work.attempts == 0
  }

  /** Requests run before stand in front; those never run stand in the order of their submission. */
  ghost predicate InLine(queue: seq<Work>) {
    forall i, j :: 0 <= i < j < |queue| && Fresh(queue[i]) ==> Fresh(queue[j]) && queue[i].id < queue[j].id
  }

  /** The requests of a class never run are newer than the given one. */
  ghost predicate Newer(p: Pool, priority: nat, id: nat)
    requires Shape(p) && priority < 3
  {
    id < p.submitted && forall i :: 0 <= i < |p.queues[priority]| && Fresh(p.queues[priority][i]) ==> id < p.queues[priority][i].id
  }

  predicate Holds(w: Worker) {
    !w.Idle? && !w.Exited?
  }

  ghost predicate Known(p: Pool, queue: seq<Work>) {
    forall i :: 0 <= i < |queue| ==> queue[i].id < p.submitted
  }

  ghost predicate Lines(p: Pool)
    requires Shape(p)
  {
    && (forall c :: 0 <= c < 3 ==> InLine(p.queues[c]) && Known(p, p.queues[c]))
    && (forall w :: 0 <= w < |p.workers| && Holds(p.workers[w]) ==> p.workers[w].work.id < p.submitted)
  }

  lemma InLineTail(queue: seq<Work>)
    requires InLine(queue) && queue != []
    ensures InLine(queue[1..])
  {
  }

  lemma InLineBack(queue: seq<Work>, work: Work)
    requires InLine(queue) && Fresh(work) && forall i :: 0 <= i < |queue| ==> queue[i].id < work.id
    ensures InLine(queue + [work])
  {
  }

  lemma InLineFront(queue: seq<Work>, work: Work)
    requires InLine(queue) && !Fresh(work)
    ensures InLine([work] + queue)
  {
  }

  lemma SubmitLines(p: Pool, priority: nat)
    requires Shape(p) && Lines(p) && priority < 3
    ensures Lines(After(p, Submit(priority)))
  {
    var q := After(p, Submit(priority));
    if q.queues != p.queues {
      InLineBack(p.queues[priority], Work(p.submitted, priority, 0, 0));
    }
    hide InLine;
  }

  lemma TakeLines(p: Pool, w: nat)
    requires Shape(p) && Lines(p) && Enabled(p, Take(w))
    ensures Lines(After(p, Take(w)))
  {
    if !p.stopping {
      var c := NextClass(p);
      InLineTail(p.queues[c]);
      assert Known(p, p.queues[c]);
      assert forall i :: 0 <= i < |p.queues[c]| - 1 ==> p.queues[c][1..][i] == p.queues[c][i + 1];
      hide InLine, NextClass;
    }
  }

  lemma FailLines(p: Pool, w: nat)
    requires Shape(p) && Lines(p) && Enabled(p, Fail(w))
    ensures Lines(After(p, Fail(w)))
  {
    var work := p.workers[w].work;
    if Retries(p, work) {
      InLineFront(p.queues[work.priority], work.(attempts := work.attempts + 1));
    }
    hide InLine, Retries;
  }

  lemma StepLines(p: Pool, step: Step)
    requires Shape(p) && Lines(p) && Enabled(p, step)
    ensures Shape(After(p, step)) && Lines(After(p, step))
  {
    match step
    case Submit(priority) => SubmitLines(p, priority);
    case Take(w) => TakeLines(p, w);
    case Fail(w) => FailLines(p, w);
    case Stop => EmptyLines();
    case _ =>
  }

  lemma EmptyLines()
    ensures InLine([])
  {
  }

  /** Whatever happens, what is submitted later stays newer. */
  lemma StepNewer(p: Pool, step: Step, priority: nat, id: nat)
    requires Shape(p) && Enabled(p, step) && priority < 3 && Newer(p, priority, id)
    ensures Shape(After(p, step)) && Newer(After(p, step), priority, id)
  {
  }

  lemma {:induction false} RunLines(p: Pool, steps: seq<Step>)
    requires Shape(p) && Lines(p) && IsRun(p, steps)
    ensures Shape(Reached(p, steps)) && Lines(Reached(p, steps))
    decreases |steps|
  {
    hide Lines, After, Enabled;
    if steps != [] {
      StepLines(p, steps[0]);
      RunLines(After(p, steps[0]), steps[1..]);
    }
  }

  lemma {:induction false} RunNewer(p: Pool, steps: seq<Step>, priority: nat, id: nat)
    requires Shape(p) && IsRun(p, steps) && priority < 3 && Newer(p, priority, id)
    ensures Shape(Reached(p, steps)) && Newer(Reached(p, steps), priority, id)
    decreases |steps|
  {
    hide Newer, After, Enabled;
    if steps != [] {
      StepNewer(p, steps[0], priority, id);
      RunNewer(After(p, steps[0]), steps[1..], priority, id);
    }
  }

  lemma StartLines(options: Options)
    ensures Shape(Start(options)) && Lines(Start(options))
  {
  }

  /** The request a worker takes. */
  function TakenBy(p: Pool, w: nat): Work
    requires Shape(p) && !p.stopping && Enabled(p, Take(w))
  {
    p.queues[NextClass(p)][0]
  }

  /** A request taken for the first time leaves only newer ones in its class, and none there is to be run again. */
  lemma TakenFirst(p: Pool, w: nat)
    requires Invariant(p) && Lines(p) && Enabled(p, Take(w)) && !p.stopping
    ensures
      var first, q := TakenBy(p, w), After(p, Take(w));
      && first.priority < 3 && Shape(q) && p.queues[first.priority] != [] && p.queues[first.priority][0] == first
      && q.workers[w] == Running(first.(runs := first.runs + 1))
      && (Fresh(first) ==>
            && Newer(q, first.priority, first.id)
            && forall i :: 0 <= i < |p.queues[first.priority]| ==> Fresh(p.queues[first.priority][i]))
  {
    var c := NextClass(p);
    var queue := p.queues[c];
    assert QueuedWork(p, queue[0], c);
    assert InLine(queue) && Known(p, queue);
    hide Conserved, CountsTruthful, Bounded, StopSound, NextClass;
    assert forall i :: 0 <= i < |queue| - 1 ==> queue[1..][i] == queue[i + 1];
  }

  /** Over every run: of two requests of one class that workers take for the first time, the one taken earlier was
      submitted earlier, and requests to be run again are taken before both. */
  lemma {:induction false} FirstComeFirstServed(options: Options, steps: seq<Step>, w: nat, more: seq<Step>, v: nat)
    requires options.workers > 0 && options.maxPending > 0 && IsRun(Start(options), steps)
    requires
      var p := Reached(Start(options), steps);
      Shape(p) && !p.stopping && Enabled(p, Take(w)) && IsRun(After(p, Take(w)), more)
    requires
      var r := Reached(After(Reached(Start(options), steps), Take(w)), more);
      Shape(r) && !r.stopping && Enabled(r, Take(v))
    ensures
      var p := Reached(Start(options), steps);
      var q := After(p, Take(w));
      var r := Reached(q, more);
      var first, second := TakenBy(p, w), TakenBy(r, v);
      && (Fresh(first) && Fresh(second) && first.priority == second.priority ==> first.id < second.id)
      && (Fresh(first) ==> first.priority < 3 && forall i :: 0 <= i < |p.queues[first.priority]| ==> Fresh(p.queues[first.priority][i]))
  {
    hide Start, Invariant, Lines, IsRun, Reached, After, Enabled;
    var p := Reached(Start(options), steps);
    var q := After(p, Take(w));
    var r := Reached(q, more);
    StartInvariant(options);
    StartLines(options);
    RunKeepsInvariant(Start(options), steps);
    RunLines(Start(options), steps);
    TakenFirst(p, w);
    StepKeepsInvariant(p, Take(w));
    StepLines(p, Take(w));
    RunKeepsInvariant(q, more);
    RunLines(q, more);
    TakenFirst(r, v);
    var first := TakenBy(p, w);
    if Fresh(first) {
      RunNewer(q, more, first.priority, first.id);
    }
    hide TakenBy;
  }

  // ----- running again -----

  /** A failed run is tried again exactly if the pool is not stopping, the request is not cancelled and has retries
      left: it then waits in front of its class with one attempt more; otherwise its promise is to fail. */
  lemma FailDecided(p: Pool, w: nat)
    requires Invariant(p) && Enabled(p, Fail(w))
    ensures
      var work, q := p.workers[w].work, After(p, Fail(w));
      if p.stopping || work.id in p.cancelled || work.attempts == p.options.retryLimit then
        q.workers[w] == Failing(work) && q.queues == p.queues && q.failed == p.failed + 1 && q.retried == p.retried
      else
        && q.workers[w] == Idle && q.failed == p.failed && q.retried == p.retried + 1
        && q.queues == p.queues[work.priority := [work.(attempts := work.attempts + 1)] + p.queues[work.priority]]
  {
    assert HeldWork(p, p.workers[w].work);
    hide Conserved, CountsTruthful, Bounded, StopSound;
  }

  ghost predicate QueueTried(queue: seq<Work>, id: nat, attempts: nat) {
    forall i :: 0 <= i < |queue| && queue[i].id == id ==> queue[i].attempts <= attempts
  }

  ghost predicate WorkersTried(workers: seq<Worker>, id: nat, attempts: nat) {
    forall w :: 0 <= w < |workers| && Holds(workers[w]) && workers[w].work.id == id ==> workers[w].work.attempts <= attempts
  }

  /** Every copy of the request in the pool has been tried at most so often. */
  ghost predicate TriedAtMost(p: Pool, id: nat, attempts: nat)
    requires Shape(p)
  {
    (forall c :: 0 <= c < 3 ==> QueueTried(p.queues[c], id, attempts)) && WorkersTried(p.workers, id, attempts)
  }

  lemma SubmitTried(p: Pool, priority: nat, id: nat, attempts: nat)
    requires Shape(p) && priority < 3 && TriedAtMost(p, id, attempts)
    ensures TriedAtMost(After(p, Submit(priority)), id, attempts)
  {
    assert QueueTried(p.queues[priority], id, attempts);
    assert QueueTried(p.queues[priority] + [Work(p.submitted, priority, 0, 0)], id, attempts);
    hide QueueTried;
  }

  lemma TakeTried(p: Pool, w: nat, id: nat, attempts: nat)
    requires Shape(p) && Enabled(p, Take(w)) && TriedAtMost(p, id, attempts)
    ensures TriedAtMost(After(p, Take(w)), id, attempts)
  {
    if !p.stopping {
      assert QueueTried(p.queues[NextClass(p)], id, attempts);
      assert QueueTried(p.queues[NextClass(p)][1..], id, attempts);
      hide NextClass;
    }
  }

  lemma FailTried(p: Pool, w: nat, id: nat, attempts: nat)
    requires Shape(p) && Enabled(p, Fail(w)) && TriedAtMost(p, id, attempts) && id in p.cancelled
    ensures TriedAtMost(After(p, Fail(w)), id, attempts)
  {
    var work := p.workers[w].work;
    assert QueueTried(p.queues[work.priority], id, attempts);
    assert work.id != id ==> QueueTried([work.(attempts := work.attempts + 1)] + p.queues[work.priority], id, attempts);
  }

  lemma StepTried(p: Pool, step: Step, id: nat, attempts: nat)
    requires Shape(p) && Enabled(p, step) && TriedAtMost(p, id, attempts) && id in p.cancelled
    ensures Shape(After(p, step)) && TriedAtMost(After(p, step), id, attempts) && id in After(p, step).cancelled
  {
    match step
    case Submit(priority) => SubmitTried(p, priority, id, attempts);
    case Take(w) => TakeTried(p, w, id, attempts);
    case Fail(w) => FailTried(p, w, id, attempts);
    case _ =>
  }

  /** A cancelled request is never tried again, however the run goes on. */
  lemma {:induction false} CancelledNotRetried(p: Pool, steps: seq<Step>, id: nat, attempts: nat)
    requires Shape(p) && IsRun(p, steps) && TriedAtMost(p, id, attempts) && id in p.cancelled
    ensures Shape(Reached(p, steps)) && TriedAtMost(Reached(p, steps), id, attempts)
    decreases |steps|
  {
    hide TriedAtMost, After, Enabled;
    if steps != [] {
      StepTried(p, steps[0], id, attempts);
      CancelledNotRetried(After(p, steps[0]), steps[1..], id, attempts);
    }
  }

  // ----- what the counters count -----

  datatype Happening = Acceptance | Refusal | Success | Failure | Retry

  /** What a step of the pool is, told by what becomes of the request. */
  predicate Happens(p: Pool, step: Step, what: Happening)
    requires Shape(p) && Enabled(p, step)
  {
    var room := p.options.maxPending > p.active + |p.queues[0]| + |p.queues[1]| + |p.queues[2]|;
    match what
    case Acceptance => step.Submit? && !p.stopping && room
    case Refusal => step.Submit? && !p.stopping && !room
    case Success => step.CountSuccess?
    case Failure => step.Fail? && After(p, step).workers[step.failing].Failing?
    case Retry => step.Fail? && After(p, step).workers[step.failing].Idle?
  }

  /** How often it happens in a run. */
  ghost function Times(p: Pool, steps: seq<Step>, what: Happening): nat
    requires IsRun(p, steps)
    decreases |steps|
  {
    if steps == [] then 0 else (if Happens(p, steps[0], what) then 1 else 0) + Times(After(p, steps[0]), steps[1..], what)
  }

  lemma StepCounts(p: Pool, step: Step)
    requires Shape(p) && Enabled(p, step)
    ensures
      var q := After(p, step);
      && q.submitted == p.submitted + (if Happens(p, step, Acceptance) then 1 else 0)
      && q.rejected == p.rejected + (if Happens(p, step, Refusal) then 1 else 0)
      && q.completed == p.completed + (if Happens(p, step, Success) then 1 else 0)
      && q.failed == p.failed + (if Happens(p, step, Failure) then 1 else 0)
      && q.retried == p.retried + (if Happens(p, step, Retry) then 1 else 0)
  {
  }

  lemma {:induction false} CountersGrow(p: Pool, steps: seq<Step>)
    requires IsRun(p, steps)
    ensures
      var q := Reached(p, steps);
      && q.submitted == p.submitted + Times(p, steps, Acceptance) && q.rejected == p.rejected + Times(p, steps, Refusal)
      && q.completed == p.completed + Times(p, steps, Success) && q.failed == p.failed + Times(p, steps, Failure)
      && q.retried == p.retried + Times(p, steps, Retry)
    decreases |steps|
  {
    if steps != [] {
      StepCounts(p, steps[0]);
      hide After, Enabled, Happens;
      CountersGrow(After(p, steps[0]), steps[1..]);
    }
  }

  /** Over every run each counter is the number of its happenings. */
  lemma CountersExact(options: Options, steps: seq<Step>)
    requires IsRun(Start(options), steps)
    ensures
      var p, q := Start(options), Reached(Start(options), steps);
      && q.submitted == Times(p, steps, Acceptance) && q.rejected == Times(p, steps, Refusal)
      && q.completed == Times(p, steps, Success) && q.failed == Times(p, steps, Failure) && q.retried == Times(p, steps, Retry)
  {
    CountersGrow(Start(options), steps);
    hide *;
    hide Reached, Times, IsRun;
  }
}
