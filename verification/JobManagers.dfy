/** The job manager's mutex regions as methods on its fields, with their scans as loops; each method is
    a step of the machine and keeps its invariant. */
module JobManagers {
  import opened Positions
  import opened Jobs
  import opened JobProofs

  // ----- steps of the loops -----

  lemma {:induction false} KeptStep(queue: seq<Task>, i: nat, id: nat, priority: nat)
    requires i < |queue|
    ensures Kept(queue[i..], id, priority) ==
            (if Promotable(queue[i], id, priority) then [] else [queue[i]]) + Kept(queue[i + 1..], id, priority)
    ensures Moved(queue[i..], id, priority) ==
            (if Promotable(queue[i], id, priority) then [queue[i].(priority := priority)] else []) + Moved(queue[i + 1..], id, priority)
  {
    assert queue[i..][1..] == queue[i + 1..];
  }

  lemma Append3<T>(a: seq<T>, b: seq<T>, c: seq<T>)
    ensures a + (b + c) == a + b + c
  {
  }

  /** The scan of one queue: what stays, and what moves with its new class. */
  method SplitQueue(queue: seq<Task>, id: nat, priority: nat) returns (kept: seq<Task>, moved: seq<Task>)
    ensures kept == Kept(queue, id, priority) && moved == Moved(queue, id, priority)
  {
    hide Kept, Moved;
    kept, moved := [], [];
    assert queue[0..] == queue;
    NothingSplit(id, priority);
    for i := 0 to |queue|
      invariant kept + Kept(queue[i..], id, priority) == Kept(queue, id, priority)
      invariant moved + Moved(queue[i..], id, priority) == Moved(queue, id, priority)
    {
      KeptStep(queue, i, id, priority);
      var up := Promotable(queue[i], id, priority);
      Append3(kept, if up then [] else [queue[i]], Kept(queue[i + 1..], id, priority));
      Append3(moved, if up then [queue[i].(priority := priority)] else [], Moved(queue[i + 1..], id, priority));
      kept := kept + if up then [] else [queue[i]];
      moved := moved + if up then [queue[i].(priority := priority)] else [];
    }
    assert queue[|queue|..] == [] && kept + [] == kept && moved + [] == moved;
  }

  lemma {:induction false} NothingSplit(id: nat, priority: nat)
    ensures Kept([], id, priority) == [] && Moved([], id, priority) == []
  {
  }

  class JobManager {
    const options: Options
    var jobs: map<nat, Job>
    var queues: seq<seq<Task>>
    var workers: seq<Worker>
    var requested: map<nat, nat>
    var activeTasks: map<nat, Active>
    var activeBy: seq<nat>
    var paused: bool
    var stopping: bool
    var nextId: nat
    var nextSource: nat
    var stopped: set<nat>

    ghost function State(): Manager
      reads this
    {
      Manager(options, jobs, queues, workers, requested, activeTasks, activeBy, paused, stopping, nextId, nextSource, stopped)
    }

    ghost predicate Valid()
      reads this
    {
      Shape(State()) && Invariant(State())
    }

    constructor (limits: Options)
      requires limits.workers > 0
      ensures Valid() && State() == Begin(limits)
    {
      options := limits;
      jobs, queues, workers := map[], [[], [], []], seq(limits.workers, _ => Idle);
      requested, activeTasks, activeBy := map[], map[], [0, 0, 0];
      paused, stopping, nextId, nextSource, stopped := false, false, 1, 0, {};
      new;
      BeginInvariant(limits);
    }

    // ----- starting -----

    /** Moves a job's tasks to a higher class and asks its executing body, if listed, to stop. */
    method PromoteJob(id: nat, priority: nat)
      requires Shape(State()) && priority < 3
      modifies `requested, `queues, `stopped
      ensures State() == Promote(old(State()), id, priority)
    {
      hide Kept, Moved;
      if id !in requested || requested[id] <= priority {
        return;
      }
      requested := requested[id := priority];
      ghost var before := queues;
      for c := 0 to 3
        invariant |queues| == 3 && queues == PromotedUpTo(before, c, id, priority)
        invariant State() == old(State()).(requested := requested, queues := queues)
        invariant requested == old(requested)[id := priority]
      {
        var kept, moved := SplitQueue(queues[c], id, priority);
        queues := queues[c := kept];
        queues := queues[priority := queues[priority] + moved];
      }
      PromotedThrice(before, id, priority);
      hide PromotedUpTo, PromoteQueue, PromoteQueues;
      if id in activeTasks && activeTasks[id].priority > priority {
        stopped := stopped + {activeTasks[id].source};
      }
    }

    /** The job of a game that is queued, running or complete, found by scanning the jobs in order. */
    method FindActive(game: string) returns (found: Option<nat>)
      ensures found == FirstActive(State(), game, nextId)
    {
      found := None;
      for id := 0 to nextId
        invariant found == FirstActive(State(), game, id)
      {
        if found.None? && id in jobs && jobs[id].game == game && IsActiveStatus(jobs[id].status) {
          found := Some(id);
        }
      }
    }

    /** One game of a request: its active job is promoted, or a job is created and its task drafted. */
    method DraftGame(input: Input, priority: nat, shallow: seq<Task>, deep: seq<Task>, created: seq<nat>)
      returns (quick: seq<Task>, full: seq<Task>, made: seq<nat>)
      requires Shape(State()) && priority < 3
      modifies `jobs, `requested, `queues, `stopped, `nextId, `nextSource
      ensures Draft(State(), quick, full, made) == DraftOne(Draft(old(State()), shallow, deep, created), input, priority)
    {
      hide FirstActive, PromoteQueues;
      quick, full, made := shallow, deep, created;
      var existing := FindActive(input.game);
      if existing.Some? {
        PromoteJob(existing.value, priority);
        return;
      }
      var id, source := nextId, nextSource;
      jobs := jobs[id := Job(input.game, if input.complete then Complete else Queued, false)];
      requested := requested[id := priority];
      nextId, nextSource := id + 1, source + 1;
      made := created + [id];
      var task := Task(id, input.hasShallow, priority, 0, source);
      if !input.complete {
        if input.hasShallow {
          full := deep + [task];
        } else {
          quick := shallow + [task];
        }
      }
    }

    method EnqueueTasks(tasks: seq<Task>)
      requires Shape(State()) && forall t :: t in tasks ==> t.priority < 3
      modifies `queues
      ensures State() == EnqueueAll(old(State()), tasks)
    {
      for i := 0 to |tasks|
        invariant Shape(State()) && State() == EnqueueAll(old(State()), tasks[..i])
      {
        assert tasks[..i + 1][..i] == tasks[..i] && tasks[i] in tasks;
        queues := queues[tasks[i].priority := queues[tasks[i].priority] + [tasks[i]]];
      }
      assert tasks[..|tasks|] == tasks;
    }

    /** Starts, or promotes, the analysis of games; refused as a whole when the queue would overflow. */
    method StartJobs(inputs: seq<Input>, priority: nat) returns (accepted: bool)
      requires Valid() && priority < 3
      modifies this
      ensures Valid() && State() == Next(old(State()), Start(inputs, priority))
      ensures accepted <==> Fits(old(State()), inputs, priority)
    {
      hide Invariant, DraftOne, EnqueueAll, DraftSound;
      ghost var before := State();
      StartKeeps(before, inputs, priority);
      DraftAllKeeps(before, inputs, priority);
      DraftClasses(before, Begun(before, inputs, priority), priority);
      var shallow, deep, created := [], [], [];
      for i := 0 to |inputs|
        invariant Shape(State())
        invariant Draft(State(), shallow, deep, created) == DraftAll(Draft(before, [], [], []), inputs[..i], priority)
      {
        assert inputs[..i + 1][..i] == inputs[..i];
        shallow, deep, created := DraftGame(inputs[i], priority, shallow, deep, created);
      }
      assert inputs[..|inputs|] == inputs;
      hide DraftAll;
      if |queues[0]| + |queues[1]| + |queues[2]| + |shallow| + |deep| > options.maxQueued {
        jobs := jobs - set id | id in created;
        return false;
      }
      EnqueueTasks(shallow + deep);
      if priority != HISTORICAL {
        PreemptHistorical();
      }
      return true;
    }

    method PreemptHistorical()
      requires Shape(State())
      modifies `stopped
      ensures State() == Preempt(old(State()))
    {
      if options.workers == 1 && (queues[0] != [] || queues[1] != []) {
        stopped := stopped + set id | id in activeTasks && activeTasks[id].priority == HISTORICAL :: activeTasks[id].source;
      }
    }

    // ----- the other callers -----

    method CancelJob(id: nat) returns (cancelling: bool)
      requires Valid()
      modifies `jobs, `stopped
      ensures Valid() && State() == Next(old(State()), Cancel(id))
      ensures cancelling <==> id in old(jobs) && !IsTerminal(old(jobs)[id].status)
    {
      hide Invariant;
      CancelKeeps(State(), id);
      if id !in jobs || IsTerminal(jobs[id].status) {
        return false;
      }
      if id in activeTasks {
        stopped := stopped + {activeTasks[id].source};
      }
      var job := jobs[id].(stopRequested := true);
      jobs := jobs[id := if job.status.Queued? then job.(status := Cancelled) else job];
      return true;
    }

    method SetPause(value: bool)
      requires Valid()
      modifies `paused
      ensures Valid() && State() == Next(old(State()), SetPaused(value))
    {
      hide Invariant;
      InvariantElsewhere(State(), State().(paused := value));
      paused := value;
    }

    // ----- the workers -----

    /** A worker that may run takes the front task of the first class it may take from; a task of a
        job that is gone or cancelled is dropped. */
    method TakeTask(w: nat) returns (task: Option<Task>)
      requires Valid() && Enabled(State(), Take(w))
      modifies `queues, `activeBy, `jobs, `activeTasks, `workers
      ensures Valid() && State() == Next(old(State()), Take(w))
      ensures task.Some? <==> workers[w].Body?
    {
      hide Invariant;
      ghost var before := State();
      TakeKeeps(before, w);
      NextTake(before, w);
      TakenFields(before, w);
      hide Next, After, Taken;
      var level := 0;
      while queues[level] == [] || (level == 2 && activeBy[2] >= HistoricalLimit(options))
        invariant level <= NextClass(before) && State() == before
        decreases 3 - level
      {
        level := level + 1;
      }
      var front := queues[level][0];
      queues := queues[level := queues[level][1..]];
      if front.job !in jobs || jobs[front.job].status.Cancelled? {
        assert State() == Taken(before, w);
        return None;
      }
      MarkRunning(w, front, level);
      assert State() == Taken(before, w);
      return Some(front);
    }

    /** The job is Running, its task is listed as active and counted, and the worker executes it. */
    method MarkRunning(w: nat, task: Task, level: nat)
      requires |activeBy| == 3 && level < 3 && w < |workers| && task.job in jobs
      modifies `activeBy, `jobs, `activeTasks, `workers
      ensures activeBy == old(activeBy)[level := old(activeBy)[level] + 1] && workers == old(workers)[w := Body(task)]
      ensures jobs == old(jobs)[task.job := old(jobs)[task.job].(status := Running)]
      ensures activeTasks == old(activeTasks)[task.job := Active(task.priority, task.source)]
    {
      activeBy := activeBy[level := activeBy[level] + 1];
      jobs := jobs[task.job := jobs[task.job].(status := Running)];
      activeTasks := activeTasks[task.job := Active(task.priority, task.source)];
      workers := workers[w := Body(task)];
    }

    /** The region that ends a body: the job's new status, and the task that goes back to a queue. */
    method FinishBody(w: nat, outcome: Outcome)
      requires Valid() && Enabled(State(), EndBody(w, outcome))
      modifies `jobs, `workers, `queues, `nextSource
      ensures Valid() && State() == Next(old(State()), EndBody(w, outcome))
    {
      hide Invariant;
      ghost var before := State();
      EndKeeps(before, w, outcome);
      NextEnd(before, w, outcome);
      EndedFields(before, w, outcome);
      hide Next, After, BodyEnd, Ended;
      var task := workers[w].task;
      var status, again := Decide(task, outcome);
      LeaveBody(w, task, status, again);
    }

    method LeaveBody(w: nat, task: Task, status: Status, again: Option<Task>)
      requires |queues| == 3 && w < |workers| && task.job in jobs && (again.Some? ==> again.value.priority < 3)
      modifies `jobs, `workers, `queues, `nextSource
      ensures jobs == old(jobs)[task.job := old(jobs)[task.job].(status := status)]
      ensures workers == old(workers)[w := Finishing(task.job, task.priority)] && nextSource == old(nextSource) + 1
      ensures
        queues == if again.None? then old(queues)
                  else old(queues)[again.value.priority := old(queues)[again.value.priority] + [again.value]]
    {
      jobs := jobs[task.job := jobs[task.job].(status := status)];
      workers := workers[w := Finishing(task.job, task.priority)];
      nextSource := nextSource + 1;
      if again.Some? {
        queues := queues[again.value.priority := queues[again.value.priority] + [again.value]];
      }
    }

    /** What becomes of a job whose body ended. */
    method Decide(task: Task, outcome: Outcome) returns (status: Status, again: Option<Task>)
      requires task.job in jobs && task.job in requested && requested[task.job] < 3 && task.priority < 3
      ensures (status, again) == BodyEnd(State(), task, outcome)
      ensures again.Some? ==> again.value.priority < 3
    {
      if outcome.Loaded? || outcome.DeepDone? {
        return Complete, None;
      } else if outcome.ShallowDone? {
        return Queued, Some(Task(task.job, true, task.priority, 0, nextSource));
      } else if outcome.Exception? {
        return Failed, None;
      } else if jobs[task.job].stopRequested {
        return Cancelled, None;
      } else if task.source in stopped && task.priority == HISTORICAL {
        return Queued, Some(task.(priority := requested[task.job], source := nextSource));
      } else if outcome.EngineFailure? && task.attempts < options.retryLimit {
        return Queued, Some(task.(attempts := task.attempts + 1));
      }
      return Failed, None;
    }

    method FinishTask(w: nat)
      requires Valid() && w < |workers| && workers[w].Finishing? && workers[w].priority < 3
      modifies `activeTasks, `activeBy, `workers
      ensures Valid() && old(Enabled(State(), Finish(w))) && State() == Next(old(State()), Finish(w))
    {
      hide Invariant;
      FinishAllowed(State(), w);
      FinishKeeps(State(), w);
      var worker := workers[w];
      activeTasks := activeTasks - {worker.job};
      activeBy := activeBy[worker.priority := activeBy[worker.priority] - 1];
      workers := workers[w := Idle];
    }

    method Shutdown()
      requires Valid() && !stopping
      modifies `stopping, `jobs, `stopped
      ensures Valid() && State() == Next(old(State()), Stop)
    {
      hide Invariant;
      StopKeeps(State());
      stopping := true;
      jobs := map id | id in jobs :: Stopping(jobs[id]);
      stopped := stopped + set id | id in activeTasks :: activeTasks[id].source;
    }

    method LeaveLoop(w: nat)
      requires Valid() && Enabled(State(), Leave(w))
      modifies `workers
      ensures Valid() && State() == Next(old(State()), Leave(w))
    {
      hide Invariant;
      LeaveKeeps(State(), w);
      workers := workers[w := Exited];
    }
  }

  /** The queues after the scans of the first classes. */
  function PromotedUpTo(queues: seq<seq<Task>>, c: nat, id: nat, priority: nat): (promoted: seq<seq<Task>>)
    requires |queues| == 3 && c <= 3 && priority < 3
    ensures |promoted| == 3
  {
    if c == 0 then queues else PromoteQueue(PromotedUpTo(queues, c - 1, id, priority), c - 1, id, priority)
  }

  lemma {:induction false} PromotedThrice(queues: seq<seq<Task>>, id: nat, priority: nat)
    requires |queues| == 3 && priority < 3
    ensures PromotedUpTo(queues, 3, id, priority) == PromoteQueues(queues, id, priority)
  {
    hide PromoteQueue;
    assert PromotedUpTo(queues, 1, id, priority) == PromoteQueue(queues, 0, id, priority);
  }

  lemma NextTake(m: Manager, w: nat)
    requires Shape(m) && Enabled(m, Take(w))
    ensures Next(m, Take(w)) == Taken(m, w) == After(m, Take(w))
  {
  }

  /** The two ways a take goes, field by field. */
  lemma TakenFields(m: Manager, w: nat)
    requires Shape(m) && Enabled(m, Take(w))
    ensures
      var c := NextClass(m);
      var task := m.queues[c][0];
      var popped := m.(queues := m.queues[c := m.queues[c][1..]]);
      if task.job !in m.jobs || m.jobs[task.job].status.Cancelled? then Taken(m, w) == popped
      else
        Taken(m, w) == popped.(activeBy := m.activeBy[c := m.activeBy[c] + 1],
                               jobs := m.jobs[task.job := m.jobs[task.job].(status := Running)],
                               activeTasks := m.activeTasks[task.job := Active(task.priority, task.source)],
                               workers := m.workers[w := Body(task)])
  {
  }

  lemma EndedFields(m: Manager, w: nat, outcome: Outcome)
    requires Shape(m) && Enabled(m, EndBody(w, outcome))
    ensures
      var task := m.workers[w].task;
      var (status, again) := BodyEnd(m, task, outcome);
      var ended := m.(jobs := m.jobs[task.job := m.jobs[task.job].(status := status)],
                      workers := m.workers[w := Finishing(task.job, task.priority)], nextSource := m.nextSource + 1);
      Ended(m, w, outcome) ==
        if again.None? || again.value.priority >= 3 then ended
        else ended.(queues := m.queues[again.value.priority := m.queues[again.value.priority] + [again.value]])
  {
    AgainTask(m, w, outcome);
    hide BodyEnd;
  }

  lemma NextEnd(m: Manager, w: nat, outcome: Outcome)
    requires Shape(m) && Enabled(m, EndBody(w, outcome))
    ensures Next(m, EndBody(w, outcome)) == Ended(m, w, outcome) == After(m, EndBody(w, outcome))
  {
    hide Ended;
  }

  lemma DraftClasses(m: Manager, d: Draft, priority: nat)
    requires Shape(m) && DraftSound(m, d, priority) && priority < 3
    ensures forall t :: t in d.shallow + d.deep ==> t.priority < 3
    ensures d.m.options == m.options
  {
  }
}
