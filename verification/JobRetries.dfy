/** How often a job's work is tried: a run counts the engine failures of each job's quick and deep task, and the
    attempts a task carries are exactly that count. */
module JobRetries {
  import opened Positions
  import opened Jobs
  import opened JobProofs

  /** The engine failures of a job's quick task and of its deep task so far. */
  datatype Tally = Tally(quick: nat, deep: nat)

  // ----- what a tally says of a manager -----

  /** A task of the job carries the failures of its phase; the deep task comes only after the quick one. */
  predicate TaskTallied(task: Task, id: nat, tally: Tally, limit: nat) {
    task.job == id ==>
      && tally.quick <= limit && tally.deep <= limit
      && (if task.deep then task.attempts == tally.deep else task.attempts == tally.quick && tally.deep == 0)
  }

  /** What is asked of every task: to fit a job's tally, or to have a source below a bound. */
  datatype Rule = Counts(id: nat, tally: Tally, limit: nat) | Below(bound: nat)

  predicate TaskFits(task: Task, rule: Rule) {
    match rule
    case Counts(id, tally, limit) => TaskTallied(task, id, tally, limit)
    case Below(bound) => task.source < bound
  }

  ghost predicate TasksFit(tasks: seq<Task>, rule: Rule) {
    forall t :: t in tasks ==> TaskFits(t, rule)
  }

  ghost predicate QueuesFit(queues: seq<seq<Task>>, rule: Rule) {
    |queues| == 3 && TasksFit(queues[0], rule) && TasksFit(queues[1], rule) && TasksFit(queues[2], rule)
  }

  ghost predicate BodiesFit(workers: seq<Worker>, rule: Rule) {
    forall w :: 0 <= w < |workers| && workers[w].Body? ==> TaskFits(workers[w].task, rule)
  }

  /** One failure more than the limit, and the job has failed. */
  predicate JobFits(m: Manager, id: nat, tally: Tally) {
    && tally.quick <= m.options.retryLimit + 1 && tally.deep <= m.options.retryLimit + 1
    && (tally.quick > m.options.retryLimit || tally.deep > m.options.retryLimit ==> StatusOf(m.jobs, id) == Some(Failed))
    && (id >= m.nextId ==> tally == Tally(0, 0))
  }

  function RuleOf(m: Manager, id: nat, tally: Tally): Rule {
    Counts(id, tally, m.options.retryLimit)
  }

  ghost predicate Tallied(m: Manager, id: nat, tally: Tally) {
    QueuesFit(m.queues, RuleOf(m, id, tally)) && BodiesFit(m.workers, RuleOf(m, id, tally)) && JobFits(m, id, tally)
  }

  // ----- the failures that count -----

  /** A body of the job's quick or deep task ends in an engine failure that is no stop and no preemption. */
  predicate Counted(m: Manager, step: Step, id: nat, deep: bool)
    requires Shape(m) && Enabled(m, step)
  {
    step.EndBody? && step.outcome.EngineFailure? &&
    var task := m.workers[step.ender].task;
    && task.job == id && task.deep == deep && !m.jobs[id].stopRequested
    && !(task.source in m.stopped && task.priority == HISTORICAL)
  }

  function Added(tally: Tally, m: Manager, step: Step, id: nat): Tally
    requires Shape(m) && Enabled(m, step)
  {
    Tally(tally.quick + (if Counted(m, step, id, false) then 1 else 0), tally.deep + (if Counted(m, step, id, true) then 1 else 0))
  }

  // ----- queues -----

  lemma ConcatFits(a: seq<Task>, b: seq<Task>, rule: Rule)
    requires TasksFit(a, rule) && TasksFit(b, rule)
    ensures TasksFit(a + b, rule)
  {
  }

  lemma {:induction false} MovedFits(queue: seq<Task>, job: nat, priority: nat, rule: Rule)
    requires TasksFit(queue, rule)
    ensures TasksFit(Kept(queue, job, priority), rule) && TasksFit(Moved(queue, job, priority), rule)
  {
    if queue != [] {
      assert queue[0] in queue && forall t :: t in queue[1..] ==> t in queue;
      MovedFits(queue[1..], job, priority, rule);
      ScanStep(queue, job, priority);
      hide Kept, Moved;
    }
  }

  lemma PromoteQueueFits(queues: seq<seq<Task>>, from: nat, job: nat, priority: nat, rule: Rule)
    requires QueuesFit(queues, rule) && from < 3 && priority < 3
    ensures QueuesFit(PromoteQueue(queues, from, job, priority), rule)
  {
    MovedFits(queues[from], job, priority, rule);
    var moved := Moved(queues[from], job, priority);
    var kept := queues[from := Kept(queues[from], job, priority)];
    hide TasksFit, Kept, Moved;
    ConcatFits(kept[priority], moved, rule);
  }

  lemma PromoteFits(m: Manager, job: nat, priority: nat, rule: Rule)
    requires Shape(m) && priority < 3 && QueuesFit(m.queues, rule)
    ensures QueuesFit(Promote(m, job, priority).queues, rule)
  {
    hide QueuesFit, PromoteQueue;
    PromoteQueueFits(m.queues, 0, job, priority, rule);
    var first := PromoteQueue(m.queues, 0, job, priority);
    PromoteQueueFits(first, 1, job, priority, rule);
    PromoteQueueFits(PromoteQueue(first, 1, job, priority), 2, job, priority, rule);
  }

  lemma EnqueueFits(m: Manager, task: Task, rule: Rule)
    requires Shape(m) && task.priority < 3 && QueuesFit(m.queues, rule) && TaskFits(task, rule)
    ensures QueuesFit(Enqueue(m, task).queues, rule)
  {
    ConcatFits(m.queues[task.priority], [task], rule);
  }

  lemma {:induction false} EnqueueAllFits(m: Manager, tasks: seq<Task>, rule: Rule)
    requires Shape(m) && QueuesFit(m.queues, rule) && TasksFit(tasks, rule)
    ensures QueuesFit(EnqueueAll(m, tasks).queues, rule)
    decreases |tasks|
  {
    hide QueuesFit, TaskFits, Enqueue;
    if tasks != [] {
      var before, task := tasks[..|tasks| - 1], tasks[|tasks| - 1];
      EnqueueAllFits(m, before, rule);
      if task.priority < 3 {
        EnqueueFits(EnqueueAll(m, before), task, rule);
      }
    }
  }

  // ----- starting jobs -----

  /** A draft's queues hold what was there, and its tasks are new. */
  ghost predicate DraftFits(d: Draft, rule: Rule) {
    QueuesFit(d.m.queues, rule) && TasksFit(d.shallow, rule) && TasksFit(d.deep, rule)
  }

  lemma CreateFits(d: Draft, input: Input, priority: nat, rule: Rule)
    requires DraftFits(d, rule) && TaskFits(Task(d.m.nextId, input.hasShallow, priority, 0, d.m.nextSource), rule)
    ensures DraftFits(Create(d, input, priority), rule)
  {
    var task := Task(d.m.nextId, input.hasShallow, priority, 0, d.m.nextSource);
    assert TasksFit([task], rule);
    ConcatFits(d.shallow, [task], rule);
    ConcatFits(d.deep, [task], rule);
    hide TasksFit, QueuesFit;
  }

  lemma PromotedFits(d: Draft, job: nat, priority: nat, rule: Rule)
    requires Shape(d.m) && priority < 3 && DraftFits(d, rule)
    ensures DraftFits(d.(m := Promote(d.m, job, priority)), rule)
  {
    PromoteFits(d.m, job, priority, rule);
    hide QueuesFit, TasksFit, Promote;
  }

  predicate NewFits(m: Manager, id: nat, tally: Tally) {
    id >= m.nextId ==> tally == Tally(0, 0)
  }

  lemma DraftOneFits(d: Draft, input: Input, priority: nat, id: nat, tally: Tally, limit: nat)
    requires Shape(d.m) && priority < 3 && DraftFits(d, Counts(id, tally, limit)) && NewFits(d.m, id, tally)
    ensures
      var next := DraftOne(d, input, priority);
      DraftFits(next, Counts(id, tally, limit)) && NewFits(next.m, id, tally)
  {
    var existing := FirstActive(d.m, input.game, d.m.nextId);
    if existing.Some? {
      PromotedFits(d, existing.value, priority, Counts(id, tally, limit));
    } else {
      CreateFits(d, input, priority, Counts(id, tally, limit));
    }
    hide DraftFits, PromoteQueues;
  }

  lemma {:induction false} DraftAllFits(m: Manager, inputs: seq<Input>, priority: nat, id: nat, tally: Tally)
    requires Shape(m) && priority < 3 && Tallied(m, id, tally)
    ensures
      var d := Begun(m, inputs, priority);
      DraftFits(d, RuleOf(m, id, tally)) && NewFits(d.m, id, tally)
    decreases |inputs|
  {
    hide DraftOne, QueuesFit;
    if inputs != [] {
      DraftAllFits(m, inputs[..|inputs| - 1], priority, id, tally);
      DraftOneFits(Begun(m, inputs[..|inputs| - 1], priority), inputs[|inputs| - 1], priority, id, tally, m.options.retryLimit);
      hide DraftFits;
    }
  }

  lemma FailedKept(m: Manager, step: Step, id: nat)
    requires Invariant(m) && Enabled(m, step) && StatusOf(m.jobs, id) == Some(Failed)
    ensures StatusOf(After(m, step).jobs, id) == Some(Failed)
  {
    TerminalKept(m, step, id);
    hide Invariant, After;
  }

  /** A step that leaves the tally, the options and the failed jobs as they are. */
  lemma QuietFits(m: Manager, n: Manager, id: nat, tally: Tally)
    requires Tallied(m, id, tally) && n.options == m.options && n.nextId >= m.nextId
    requires StatusOf(m.jobs, id) == Some(Failed) ==> StatusOf(n.jobs, id) == Some(Failed)
    requires QueuesFit(n.queues, RuleOf(m, id, tally)) && BodiesFit(n.workers, RuleOf(m, id, tally))
    ensures Tallied(n, id, tally)
  {
    hide QueuesFit, BodiesFit;
  }

  lemma DraftFields(m: Manager, d: Draft, priority: nat)
    requires Shape(m) && DraftSound(m, d, priority)
    ensures Shape(d.m) && Classed(d.m) && d.m.workers == m.workers && d.m.options == m.options && m.nextId <= d.m.nextId
    ensures AllOf(d.shallow, priority) && AllOf(d.deep, priority)
  {
  }

  lemma StartFields(m: Manager, inputs: seq<Input>, priority: nat)
    requires Invariant(m) && priority < 3
    ensures
      var n, d := After(m, Start(inputs, priority)), Begun(m, inputs, priority);
      && n.options == m.options && n.workers == m.workers && n.nextId == d.m.nextId >= m.nextId
      && Shape(d.m) && (n.queues == d.m.queues || n.queues == EnqueueAll(d.m, d.shallow + d.deep).queues)
  {
    hide Invariant, Begun, DraftSound, Classed, AllOf, QueuedIds, QueuedCount;
    InvariantShape(m);
    var d := Begun(m, inputs, priority);
    DraftAllKeeps(m, inputs, priority);
    DraftFields(m, d, priority);
    AllOfBoth(d, priority);
    EnqueueAllKeeps(d.m, d.shallow + d.deep, priority);
    PreemptKeeps(EnqueueAll(d.m, d.shallow + d.deep));
    hide EnqueueAll, Fits, Preempt;
  }

  lemma StartQueues(m: Manager, inputs: seq<Input>, priority: nat, rule: Rule)
    requires Invariant(m) && priority < 3 && DraftFits(Begun(m, inputs, priority), rule)
    ensures QueuesFit(After(m, Start(inputs, priority)).queues, rule)
  {
    hide Invariant, Begun, QueuesFit, TasksFit;
    InvariantShape(m);
    var d := Begun(m, inputs, priority);
    StartFields(m, inputs, priority);
    ConcatFits(d.shallow, d.deep, rule);
    EnqueueAllFits(d.m, d.shallow + d.deep, rule);
    hide EnqueueAll, After;
  }

  lemma StartFits(m: Manager, inputs: seq<Input>, priority: nat, id: nat, tally: Tally)
    requires Invariant(m) && Tallied(m, id, tally) && priority < 3
    ensures Tallied(After(m, Start(inputs, priority)), id, tally)
  {
    hide Invariant, Begun, QueuesFit, TasksFit, BodiesFit;
    InvariantShape(m);
    if StatusOf(m.jobs, id) == Some(Failed) {
      FailedKept(m, Start(inputs, priority), id);
    }
    StartFields(m, inputs, priority);
    DraftAllFits(m, inputs, priority, id, tally);
    StartQueues(m, inputs, priority, RuleOf(m, id, tally));
    hide EnqueueAll, After, DraftFits;
    QuietFits(m, After(m, Start(inputs, priority)), id, tally);
  }

  // ----- taking and ending -----

  lemma TakeFields(m: Manager, w: nat)
    requires Shape(m) && Enabled(m, Take(w))
    ensures
      var n, c := After(m, Take(w)), NextClass(m);
      && c < 3 && m.queues[c] != [] && n.queues == m.queues[c := m.queues[c][1..]]
      && (n.workers == m.workers || n.workers == m.workers[w := Body(m.queues[c][0])])
      && n.options == m.options && n.nextId == m.nextId
  {
  }

  lemma TakeKeepsFit(m: Manager, w: nat, rule: Rule)
    requires Shape(m) && Enabled(m, Take(w)) && QueuesFit(m.queues, rule) && BodiesFit(m.workers, rule)
    ensures QueuesFit(After(m, Take(w)).queues, rule) && BodiesFit(After(m, Take(w)).workers, rule)
  {
    hide TaskFits;
    TakeFields(m, w);
    var queue := m.queues[NextClass(m)];
    hide After, NextClass;
    assert queue[0] in queue && forall t :: t in queue[1..] ==> t in queue;
    assert TasksFit(queue, rule);
    assert TasksFit(queue[1..], rule);
  }

  lemma TakeFits(m: Manager, w: nat, id: nat, tally: Tally)
    requires Invariant(m) && Enabled(m, Take(w)) && Tallied(m, id, tally)
    ensures Tallied(After(m, Take(w)), id, tally)
  {
    hide Invariant, JobFits, QueuesFit, BodiesFit;
    InvariantShape(m);
    if StatusOf(m.jobs, id) == Some(Failed) {
      FailedKept(m, Take(w), id);
    }
    TakeFields(m, w);
    TakeKeepsFit(m, w, RuleOf(m, id, tally));
    hide After, NextClass;
    QuietFits(m, After(m, Take(w)), id, tally);
  }

  lemma {:induction false} NotQueued(tasks: seq<Task>, rule: Rule)
    requires rule.Counts? && JobIds(tasks)[rule.id] == 0
    ensures TasksFit(tasks, rule)
  {
    if tasks != [] {
      NotQueued(tasks[1..], rule);
    }
  }

  lemma {:induction false} NoBody(workers: seq<Worker>, rule: Rule)
    requires rule.Counts? && BodyIds(workers)[rule.id] == 0
    ensures BodiesFit(workers, rule)
  {
    if workers != [] {
      NoBody(workers[1..], rule);
      forall w | 0 <= w < |workers| && workers[w].Body?
        ensures TaskFits(workers[w].task, rule)
      {
        if w > 0 {
          assert workers[w] == workers[1..][w - 1];
        }
      }
    }
  }

  /** A job without a task or a body fits any tally. */
  lemma NothingLeft(m: Manager, rule: Rule)
    requires Shape(m) && rule.Counts? && QueuedIds(m)[rule.id] == 0
    ensures QueuesFit(m.queues, rule)
  {
    hide TasksFit, JobIds;
    NotQueued(m.queues[0], rule);
    NotQueued(m.queues[1], rule);
    NotQueued(m.queues[2], rule);
  }

  lemma TokensAt(m: Manager, id: nat)
    requires Invariant(m)
    ensures Shape(m) && (StatusOf(m.jobs, id) == Some(Running) ==> QueuedIds(m)[id] == 0)
    ensures StatusOf(m.jobs, id).Some? && !StatusOf(m.jobs, id).value.Running? ==> BodyIds(m.workers)[id] == 0
  {
    hide ActiveCounts, OnePerGame, Classed, Requested, Capacity, QueuedIds, BodyIds;
    assert TokensFit(StatusOf(m.jobs, id), QueuedIds(m)[id], BodyIds(m.workers)[id]);
  }

  lemma EndedStatus(m: Manager, w: nat, outcome: Outcome)
    requires Shape(m) && Enabled(m, EndBody(w, outcome))
    ensures
      var status := StatusOf(After(m, EndBody(w, outcome)).jobs, m.workers[w].task.job);
      status.Some? && !status.value.Running?
  {
    EndFields(m, w, outcome);
    EndStatus(m, m.workers[w].task, outcome);
    hide After, BodyEnd;
  }

  /** At the end of a body nothing of its job is queued, and afterwards no body of it executes. */
  lemma OnlyBody(m: Manager, w: nat, outcome: Outcome)
    requires Invariant(m) && Enabled(m, EndBody(w, outcome))
    ensures
      var id := m.workers[w].task.job;
      QueuedIds(m)[id] == 0 && Shape(After(m, EndBody(w, outcome))) && BodyIds(After(m, EndBody(w, outcome)).workers)[id] == 0
  {
    hide Invariant;
    InvariantShape(m);
    BodyRuns(m, w);
    EndKeeps(m, w, outcome);
    EndedStatus(m, w, outcome);
    TokensAt(m, m.workers[w].task.job);
    TokensAt(After(m, EndBody(w, outcome)), m.workers[w].task.job);
    hide *;
  }

  /** The end of a body keeps the tally true of its own job: of the task put back, and of the status. */
  lemma DecisionFits(m: Manager, w: nat, outcome: Outcome, tally: Tally)
    requires Shape(m) && Enabled(m, EndBody(w, outcome))
    requires TaskFits(m.workers[w].task, RuleOf(m, m.workers[w].task.job, tally))
    ensures
      var task, limit := m.workers[w].task, m.options.retryLimit;
      var (status, again) := BodyEnd(m, task, outcome);
      var added := Added(tally, m, EndBody(w, outcome), task.job);
      && (again.Some? ==> TaskFits(again.value, RuleOf(m, task.job, added)))
      && added.quick <= limit + 1 && added.deep <= limit + 1
      && (added.quick > limit || added.deep > limit ==> status == Failed)
  {
  }

  lemma EndBodies(m: Manager, w: nat, outcome: Outcome, rule: Rule)
    requires Invariant(m) && Enabled(m, EndBody(w, outcome)) && rule.Counts? && rule.id == m.workers[w].task.job
    ensures QueuesFit(m.queues, rule) && BodiesFit(After(m, EndBody(w, outcome)).workers, rule)
  {
    hide Invariant, After;
    InvariantShape(m);
    OnlyBody(m, w, outcome);
    NothingLeft(m, rule);
    NoBody(After(m, EndBody(w, outcome)).workers, rule);
  }

  /** What an ended body leaves of its own job: at most the task put back. */
  lemma EndOwn(m: Manager, w: nat, outcome: Outcome, tally: Tally)
    requires Invariant(m) && Enabled(m, EndBody(w, outcome)) && Tallied(m, m.workers[w].task.job, tally)
    ensures Tallied(After(m, EndBody(w, outcome)), m.workers[w].task.job, Added(tally, m, EndBody(w, outcome), m.workers[w].task.job))
  {
    hide Invariant;
    InvariantShape(m);
    var task := m.workers[w].task;
    var rule := RuleOf(m, task.job, Added(tally, m, EndBody(w, outcome), task.job));
    assert TaskFits(task, RuleOf(m, task.job, tally));
    EndBodies(m, w, outcome, rule);
    DecisionFits(m, w, outcome, tally);
    RunningId(m, task.job);
    EndFields(m, w, outcome);
    EndQueuesFit(m, w, outcome, rule);
    hide QueuesFit, BodiesFit, TaskFits, BodyEnd, After, Added;
  }

  lemma RunningId(m: Manager, id: nat)
    requires Invariant(m) && id in m.jobs
    ensures id < m.nextId
  {
  }

  lemma EndEnqueues(m: Manager, w: nat, outcome: Outcome)
    requires Shape(m) && Enabled(m, EndBody(w, outcome))
    ensures
      var n, again := After(m, EndBody(w, outcome)), BodyEnd(m, m.workers[w].task, outcome).1;
      if again.None? then n.queues == m.queues
      else again.value.priority < 3 && n.queues == m.queues[again.value.priority := m.queues[again.value.priority] + [again.value]]
  {
    AgainTask(m, w, outcome);
    hide BodyEnd;
  }

  lemma EndQueuesFit(m: Manager, w: nat, outcome: Outcome, rule: Rule)
    requires Shape(m) && Enabled(m, EndBody(w, outcome)) && QueuesFit(m.queues, rule)
    requires
      var again := BodyEnd(m, m.workers[w].task, outcome).1;
      again.Some? ==> TaskFits(again.value, rule)
    ensures QueuesFit(After(m, EndBody(w, outcome)).queues, rule)
  {
    EndEnqueues(m, w, outcome);
    var n, again := After(m, EndBody(w, outcome)), BodyEnd(m, m.workers[w].task, outcome).1;
    hide After, BodyEnd, QueuesFit, TaskFits;
    if again.Some? {
      EnqueueFits(m, again.value, rule);
    }
  }

  lemma NotCounted(m: Manager, step: Step, id: nat)
    requires Shape(m) && Enabled(m, step)
    requires step.EndBody? ==> m.workers[step.ender].task.job != id
    ensures !Counted(m, step, id, false) && !Counted(m, step, id, true)
  {
  }

  /** The end of another job's body. */
  lemma EndOther(m: Manager, w: nat, outcome: Outcome, id: nat, tally: Tally)
    requires Invariant(m) && Enabled(m, EndBody(w, outcome)) && Tallied(m, id, tally) && m.workers[w].task.job != id
    ensures Tallied(After(m, EndBody(w, outcome)), id, tally)
  {
    hide Invariant, JobFits, TasksFit;
    InvariantShape(m);
    EndFields(m, w, outcome);
    AgainTask(m, w, outcome);
    EndQueuesFit(m, w, outcome, RuleOf(m, id, tally));
    hide After, BodyEnd, QueuesFit;
    QuietFits(m, After(m, EndBody(w, outcome)), id, tally);
  }

  lemma BodiesFitUpdate(workers: seq<Worker>, w: nat, next: Worker, rule: Rule)
    requires BodiesFit(workers, rule) && w < |workers| && !next.Body?
    ensures BodiesFit(workers[w := next], rule)
  {
  }

  /** The steps that neither start, take nor end work. */
  lemma OtherFits(m: Manager, step: Step, id: nat, tally: Tally)
    requires Invariant(m) && Enabled(m, step) && Tallied(m, id, tally)
    requires step.Cancel? || step.SetPaused? || step.Stop? || step.Leave? || step.Finish?
    ensures Tallied(After(m, step), id, tally)
  {
    hide Invariant, JobFits, QueuesFit, BodiesFit;
    InvariantShape(m);
    if StatusOf(m.jobs, id) == Some(Failed) {
      FailedKept(m, step, id);
    }
    if step.Leave? {
      BodiesFitUpdate(m.workers, step.leaver, Exited, RuleOf(m, id, tally));
    } else if step.Finish? {
      BodiesFitUpdate(m.workers, step.finisher, Idle, RuleOf(m, id, tally));
    }
    QuietFits(m, After(m, step), id, tally);
  }

  lemma StepFits(m: Manager, step: Step, id: nat, tally: Tally)
    requires Invariant(m) && Enabled(m, step) && Tallied(m, id, tally)
    ensures Tallied(After(m, step), id, Added(tally, m, step, id))
  {
    hide Invariant, Tallied, After, Enabled;
    InvariantShape(m);
    if step.EndBody? {
      EndStepFits(m, step.ender, step.outcome, id, tally);
    } else {
      NotCounted(m, step, id);
      match step
      case Start(inputs, priority) => StartRequests(m, inputs, priority); StartFits(m, inputs, priority, id, tally);
      case Take(w) => TakeFits(m, w, id, tally);
      case _ => OtherFits(m, step, id, tally);
    }
  }

  lemma StartRequests(m: Manager, inputs: seq<Input>, priority: nat)
    requires Shape(m) && Enabled(m, Start(inputs, priority))
    ensures priority < 3
  {
  }

  lemma EndStepFits(m: Manager, w: nat, outcome: Outcome, id: nat, tally: Tally)
    requires Invariant(m) && Enabled(m, EndBody(w, outcome)) && Tallied(m, id, tally)
    ensures Tallied(After(m, EndBody(w, outcome)), id, Added(tally, m, EndBody(w, outcome), id))
  {
    if m.workers[w].task.job == id {
      EndOwn(m, w, outcome, tally);
    } else {
      NotCounted(m, EndBody(w, outcome), id);
      EndOther(m, w, outcome, id, tally);
    }
    hide *;
  }

  // ----- runs -----

  /** The tally of a job at the end of a run, counted from a tally at its start. */
  ghost function Failures(m: Manager, steps: seq<Step>, id: nat, tally: Tally): Tally
    requires IsRun(m, steps)
    decreases |steps|
  {
    if steps == [] then tally else Failures(After(m, steps[0]), steps[1..], id, Added(tally, m, steps[0], id))
  }

  lemma {:induction false} RunFits(m: Manager, steps: seq<Step>, id: nat, tally: Tally)
    requires Invariant(m) && Tallied(m, id, tally) && IsRun(m, steps)
    ensures Tallied(Reached(m, steps), id, Failures(m, steps, id, tally))
    decreases |steps|
  {
    hide Invariant, Tallied, After, Enabled, Added;
    if steps != [] {
      StepKeepsInvariant(m, steps[0]);
      StepFits(m, steps[0], id, tally);
      RunFits(After(m, steps[0]), steps[1..], id, Added(tally, m, steps[0], id));
    }
  }

  lemma BeginFits(options: Options, id: nat)
    ensures Tallied(Begin(options), id, Tally(0, 0))
  {
  }

  /** Over every run: neither task of a job fails more than once beyond the retry limit, the job has failed
      when one did, and every waiting task and every executing body carries the failures of its phase, which
      are within the limit. */
  lemma {:induction false} RetriesBounded(options: Options, steps: seq<Step>, id: nat)
    requires options.workers > 0 && IsRun(Begin(options), steps)
    ensures
      var m, failures := Reached(Begin(options), steps), Failures(Begin(options), steps, id, Tally(0, 0));
      && failures.quick <= options.retryLimit + 1 && failures.deep <= options.retryLimit + 1
      && (failures.quick > options.retryLimit || failures.deep > options.retryLimit ==>
            id in m.jobs && m.jobs[id].status == Failed)
      && Shape(m)
      && (forall c, t :: 0 <= c < 3 && t in m.queues[c] && t.job == id ==>
            t.attempts == (if t.deep then failures.deep else failures.quick) <= options.retryLimit)
      && (forall w :: 0 <= w < |m.workers| && m.workers[w].Body? && m.workers[w].task.job == id ==>
            m.workers[w].task.attempts == (if m.workers[w].task.deep then failures.deep else failures.quick) <= options.retryLimit)
  {
    hide Invariant, Begin, IsRun, Reached, Failures;
    BeginInvariant(options);
    BeginOptions(options);
    BeginFits(options, id);
    RunKeepsInvariant(Begin(options), steps);
    RunFits(Begin(options), steps, id, Tally(0, 0));
    InvariantShape(Reached(Begin(options), steps));
  }

  /** The job whose body ends in such a failure has failed exactly when its task had used up the retries. Before,
      the task goes back to the end of its queue with one attempt more. */
  lemma {:induction false} FailureDecides(options: Options, steps: seq<Step>, w: nat)
    requires options.workers > 0 && IsRun(Begin(options), steps)
    requires
      var m := Reached(Begin(options), steps);
      && Shape(m) && Enabled(m, EndBody(w, EngineFailure))
      && Counted(m, EndBody(w, EngineFailure), m.workers[w].task.job, m.workers[w].task.deep)
    ensures
      var m := Reached(Begin(options), steps);
      var task := m.workers[w].task;
      var n, failures := After(m, EndBody(w, EngineFailure)), Failures(Begin(options), steps, task.job, Tally(0, 0));
      var before := if task.deep then failures.deep else failures.quick;
      && task.job in n.jobs && n.jobs[task.job].status == (if before == options.retryLimit then Failed else Queued)
      && n.queues == if before == options.retryLimit then m.queues
                     else m.queues[task.priority := m.queues[task.priority] + [task.(attempts := before + 1)]]
  {
    hide Invariant, Begin, IsRun, Reached, Failures;
    BeginInvariant(options);
    BeginOptions(options);
    RunKeepsInvariant(Begin(options), steps);
    RetriesBounded(options, steps, Reached(Begin(options), steps).workers[w].task.job);
    EndEnqueues(Reached(Begin(options), steps), w, EngineFailure);
    EndFields(Reached(Begin(options), steps), w, EngineFailure);
    hide After;
  }

  // ----- sources -----

  ghost predicate ActiveKnown(m: Manager) {
    && (forall id :: id in m.activeTasks ==> m.activeTasks[id].source < m.nextSource)
    && (forall s :: s in m.stopped ==> s < m.nextSource)
  }

  /** Every cancellation source in use was given out, so the next one is new. */
  ghost predicate SourcesKnown(m: Manager) {
    QueuesFit(m.queues, Below(m.nextSource)) && BodiesFit(m.workers, Below(m.nextSource)) && ActiveKnown(m)
  }

  lemma TasksWeaken(tasks: seq<Task>, bound: nat, more: nat)
    requires TasksFit(tasks, Below(bound)) && bound <= more
    ensures TasksFit(tasks, Below(more))
  {
  }

  lemma QueuesWeaken(queues: seq<seq<Task>>, bound: nat, more: nat)
    requires QueuesFit(queues, Below(bound)) && bound <= more
    ensures QueuesFit(queues, Below(more))
  {
    TasksWeaken(queues[0], bound, more);
    TasksWeaken(queues[1], bound, more);
    TasksWeaken(queues[2], bound, more);
    hide TasksFit;
  }

  lemma BodiesWeaken(workers: seq<Worker>, bound: nat, more: nat)
    requires BodiesFit(workers, Below(bound)) && bound <= more
    ensures BodiesFit(workers, Below(more))
  {
  }

  lemma DraftWeaken(d: Draft, bound: nat, more: nat)
    requires DraftFits(d, Below(bound)) && bound <= more
    ensures DraftFits(d, Below(more))
  {
    QueuesWeaken(d.m.queues, bound, more);
    TasksWeaken(d.shallow, bound, more);
    TasksWeaken(d.deep, bound, more);
    hide TasksFit, QueuesFit;
  }

  lemma {:induction false} DraftKnown(m: Manager, inputs: seq<Input>, priority: nat)
    requires Shape(m) && priority < 3 && SourcesKnown(m)
    ensures
      var d := Begun(m, inputs, priority);
      && DraftFits(d, Below(d.m.nextSource)) && ActiveKnown(d.m) && d.m.activeTasks == m.activeTasks && m.nextSource <= d.m.nextSource
      && d.m.workers == m.workers
    decreases |inputs|
  {
    hide QueuesFit, BodiesFit;
    if inputs != [] {
      var d, input := Begun(m, inputs[..|inputs| - 1], priority), inputs[|inputs| - 1];
      DraftKnown(m, inputs[..|inputs| - 1], priority);
      var existing := FirstActive(d.m, input.game, d.m.nextId);
      if existing.Some? {
        PromotedFits(d, existing.value, priority, Below(d.m.nextSource));
      } else {
        DraftWeaken(d, d.m.nextSource, d.m.nextSource + 1);
        CreateFits(d, input, priority, Below(d.m.nextSource + 1));
      }
      hide DraftFits, PromoteQueues;
    }
  }

  lemma StartStops(m: Manager, inputs: seq<Input>, priority: nat)
    requires Invariant(m) && priority < 3
    ensures
      var n, d := After(m, Start(inputs, priority)), Begun(m, inputs, priority);
      && n.activeTasks == d.m.activeTasks && n.nextSource == d.m.nextSource
      && (n.stopped == d.m.stopped || n.stopped == d.m.stopped + Sources(d.m.activeTasks))
  {
    hide Invariant, Begun, DraftSound, Classed, AllOf, QueuedIds, QueuedCount;
    InvariantShape(m);
    var d := Begun(m, inputs, priority);
    DraftAllKeeps(m, inputs, priority);
    DraftFields(m, d, priority);
    AllOfBoth(d, priority);
    EnqueueAllKeeps(d.m, d.shallow + d.deep, priority);
    hide EnqueueAll, Fits, Sources;
  }

  lemma StartKnown(m: Manager, inputs: seq<Input>, priority: nat)
    requires Invariant(m) && SourcesKnown(m) && priority < 3
    ensures SourcesKnown(After(m, Start(inputs, priority)))
  {
    hide Invariant, Begun, QueuesFit, BodiesFit;
    InvariantShape(m);
    DraftKnown(m, inputs, priority);
    StartFields(m, inputs, priority);
    StartStops(m, inputs, priority);
    StartQueues(m, inputs, priority, Below(Begun(m, inputs, priority).m.nextSource));
    BodiesWeaken(m.workers, m.nextSource, Begun(m, inputs, priority).m.nextSource);
    hide After, EnqueueAll, DraftFits;
  }

  lemma TakeKnown(m: Manager, w: nat)
    requires Shape(m) && Enabled(m, Take(w)) && SourcesKnown(m)
    ensures SourcesKnown(After(m, Take(w)))
  {
    TakeKeepsFit(m, w, Below(m.nextSource));
    var task := m.queues[NextClass(m)][0];
    assert task in m.queues[NextClass(m)] && TaskFits(task, Below(m.nextSource));
    hide QueuesFit, BodiesFit;
  }

  lemma EndKnown(m: Manager, w: nat, outcome: Outcome)
    requires Shape(m) && Enabled(m, EndBody(w, outcome)) && SourcesKnown(m)
    ensures SourcesKnown(After(m, EndBody(w, outcome)))
  {
    var task := m.workers[w].task;
    assert TaskFits(task, Below(m.nextSource));
    QueuesWeaken(m.queues, m.nextSource, m.nextSource + 1);
    BodiesWeaken(m.workers, m.nextSource, m.nextSource + 1);
    BodiesFitUpdate(m.workers, w, Finishing(task.job, task.priority), Below(m.nextSource + 1));
    EndQueuesFit(m, w, outcome, Below(m.nextSource + 1));
    EndFields(m, w, outcome);
    hide QueuesFit, BodiesFit, BodyEnd;
  }

  lemma OtherKnown(m: Manager, step: Step)
    requires Shape(m) && Enabled(m, step) && SourcesKnown(m)
    requires step.Cancel? || step.SetPaused? || step.Stop? || step.Leave? || step.Finish?
    ensures SourcesKnown(After(m, step))
  {
    if step.Leave? {
      BodiesFitUpdate(m.workers, step.leaver, Exited, Below(m.nextSource));
    } else if step.Finish? {
      BodiesFitUpdate(m.workers, step.finisher, Idle, Below(m.nextSource));
    }
    hide QueuesFit, BodiesFit;
  }

  lemma StepKnown(m: Manager, step: Step)
    requires Invariant(m) && Enabled(m, step) && SourcesKnown(m)
    ensures SourcesKnown(After(m, step))
  {
    hide Invariant, SourcesKnown, After;
    InvariantShape(m);
    match step
    case Start(inputs, priority) => StartKnown(m, inputs, priority);
    case Take(w) => TakeKnown(m, w);
    case EndBody(w, outcome) => EndKnown(m, w, outcome);
    case _ => OtherKnown(m, step);
  }

  lemma {:induction false} RunKnown(m: Manager, steps: seq<Step>)
    requires Invariant(m) && SourcesKnown(m) && IsRun(m, steps)
    ensures SourcesKnown(Reached(m, steps))
    decreases |steps|
  {
    hide Invariant, SourcesKnown, After, Enabled;
    if steps != [] {
      StepKeepsInvariant(m, steps[0]);
      StepKnown(m, steps[0]);
      RunKnown(After(m, steps[0]), steps[1..]);
    }
  }

  lemma BeginKnown(options: Options)
    ensures SourcesKnown(Begin(options))
  {
  }

  // ----- the other ends of a body -----

  predicate IsError(outcome: Outcome) {
    outcome.EngineFailure? || outcome.OtherError?
  }

  /** How a body ends otherwise. An error after a stop request cancels the job. A historical task that was asked
      to make way goes back at the priority requested by then, its attempts kept, under a source no one has
      stopped. A finished quick task is followed by a deep one. Anything else ends the job. */
  lemma EndDecided(m: Manager, w: nat, outcome: Outcome)
    requires Invariant(m) && SourcesKnown(m) && Enabled(m, EndBody(w, outcome))
    ensures
      var task, n := m.workers[w].task, After(m, EndBody(w, outcome));
      var id := task.job;
      var preempted := task.source in m.stopped && task.priority == HISTORICAL;
      && id in n.jobs && Shape(n) && id in m.requested && m.requested[id] < 3
      && (outcome.Loaded? || outcome.DeepDone? ==> n.jobs[id].status == Complete && n.queues == m.queues)
      && (outcome.Exception? ==> n.jobs[id].status == Failed && n.queues == m.queues)
      && (outcome.ShallowDone? ==>
            && n.jobs[id].status == Queued && m.nextSource !in n.stopped
            && n.queues == m.queues[task.priority := m.queues[task.priority] + [Task(id, true, task.priority, 0, m.nextSource)]])
      && (IsError(outcome) && m.jobs[id].stopRequested ==> n.jobs[id].status == Cancelled && n.queues == m.queues)
      && (IsError(outcome) && !m.jobs[id].stopRequested && preempted ==>
            && n.jobs[id].status == Queued && m.nextSource !in n.stopped
            && n.queues == m.queues[m.requested[id] := m.queues[m.requested[id]]
                                    + [Task(id, task.deep, m.requested[id], task.attempts, m.nextSource)]])
      && (outcome.OtherError? && !m.jobs[id].stopRequested && !preempted ==> n.jobs[id].status == Failed && n.queues == m.queues)
  {
    hide Invariant, QueuesFit, BodiesFit;
    InvariantShape(m);
    EndEnqueues(m, w, outcome);
    EndFields(m, w, outcome);
    EndStopped(m, w, outcome);
    hide After;
  }

  lemma EndStopped(m: Manager, w: nat, outcome: Outcome)
    requires Shape(m) && Enabled(m, EndBody(w, outcome))
    ensures After(m, EndBody(w, outcome)).stopped == m.stopped
  {
    AgainTask(m, w, outcome);
    hide BodyEnd;
  }

  /** A retried task keeps its source: one that was asked to stop and is not historical goes back as stopped as
      it was. An active task of the middle class is such a one once its game is asked for at the highest priority. */
  lemma {:induction false} StoppedGoesBack(options: Options, steps: seq<Step>, w: nat)
    requires options.workers > 0 && IsRun(Begin(options), steps)
    requires
      var m := Reached(Begin(options), steps);
      Shape(m) && Enabled(m, EndBody(w, EngineFailure)) && !m.jobs[m.workers[w].task.job].stopRequested
    ensures
      var m := Reached(Begin(options), steps);
      var task, n := m.workers[w].task, After(m, EndBody(w, EngineFailure));
      Shape(n) && forall c :: 0 <= c < 3 && m.queues[c] < n.queues[c] ==>
        var back := n.queues[c][|m.queues[c]|];
        back.source in n.stopped <==> task.source in m.stopped && task.priority != HISTORICAL
  {
    hide Invariant, Begin, IsRun, Reached, Failures, SourcesKnown;
    var m := Reached(Begin(options), steps);
    BeginInvariant(options);
    BeginKnown(options);
    RunKeepsInvariant(Begin(options), steps);
    RunKnown(Begin(options), steps);
    assert m.nextSource !in m.stopped by {
      NextSourceNew(m);
    }
    EndEnqueues(m, w, EngineFailure);
    EndFields(m, w, EngineFailure);
    EndStopped(m, w, EngineFailure);
    hide After;
  }

  lemma NextSourceNew(m: Manager)
    requires SourcesKnown(m)
    ensures m.nextSource !in m.stopped
  {
    hide QueuesFit, BodiesFit;
  }
}
