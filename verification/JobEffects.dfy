/** What each request to the job manager and each turn of a worker brings about, told by jobs, tasks and classes. */
module JobEffects {
  import opened Positions
  import opened Jobs
  import opened JobProofs

  // ----- taking a task -----

  /** How many historical tasks may be active: all workers but one, or the only one. */
  predicate HistoricalFree(m: Manager) {
    ActiveIn(m.workers, 2) < m.options.workers - 1 || (m.options.workers == 1 && ActiveIn(m.workers, 2) == 0)
  }

  lemma HistoricalCounted(m: Manager)
    requires Invariant(m)
    ensures Shape(m) && m.options.workers > 0 && m.activeBy[2] == ActiveIn(m.workers, 2)
  {
    hide Tokens, OnePerGame, Classed, Requested, Capacity, ActiveIn;
  }

  lemma NextClassIs(m: Manager)
    requires Invariant(m)
    ensures
      var c := NextClass(m);
      && Shape(m)
      && (c < 3 ==> m.queues[c] != [] && (c > 0 ==> m.queues[0] == []) && (c > 1 ==> m.queues[1] == []))
      && (c == 2 ==> m.activeBy[2] < HistoricalLimit(m.options))
      && (c == 3 ==> m.queues[0] == [] && m.queues[1] == [] && (m.queues[2] == [] || m.activeBy[2] >= HistoricalLimit(m.options)))
  {
    hide Tokens, OnePerGame, Classed, Requested, Capacity, ActiveCounts;
  }

  lemma FreeExact(m: Manager)
    requires Invariant(m)
    ensures HistoricalFree(m) <==> Shape(m) && m.activeBy[2] < HistoricalLimit(m.options)
  {
    HistoricalCounted(m);
    hide Invariant, ActiveIn;
  }

  lemma TakeEnabled(m: Manager, w: nat)
    requires Shape(m)
    ensures Enabled(m, Take(w)) <==> w < |m.workers| && m.workers[w].Idle? && !m.stopping && !m.paused && NextClass(m) < 3
  {
    hide NextClass;
  }

  /** An idle worker can take a task exactly if the manager is neither paused nor stopping and one of the first two
      classes has a task, or the historical one has and may be served. */
  lemma TakeExact(m: Manager, w: nat)
    requires Invariant(m)
    ensures Enabled(m, Take(w)) <==>
            && w < |m.workers| && m.workers[w].Idle? && !m.paused && !m.stopping
            && (m.queues[0] != [] || m.queues[1] != [] || (m.queues[2] != [] && HistoricalFree(m)))
  {
    NextClassIs(m);
    FreeExact(m);
    TakeEnabled(m, w);
    hide Invariant, HistoricalFree, HistoricalLimit, NextClass, Enabled;
  }

  /** The class is served: it has a task, no higher class has one, and historical work comes last and within its
      limit. */
  ghost predicate Served(m: Manager, c: nat)
    requires Shape(m)
  {
    && c < 3 && m.queues[c] != [] && (c > 0 ==> m.queues[0] == []) && (c > 1 ==> m.queues[1] == [])
    && (c == 2 ==> HistoricalFree(m))
  }

  /** The task taken is the front one of the class served; it is dropped if its job is cancelled, and otherwise
      executed as its job starts to run. */
  lemma TakeServes(m: Manager, w: nat) returns (c: nat)
    requires Invariant(m) && Enabled(m, Take(w))
    ensures Served(m, c)
    ensures
      var n, task := After(m, Take(w)), m.queues[c][0];
      && n.queues == m.queues[c := m.queues[c][1..]] && task.job in m.jobs && task.priority == c
      && if m.jobs[task.job].status.Cancelled? then n == m.(queues := n.queues)
         else n.workers == m.workers[w := Body(task)] && n.jobs == m.jobs[task.job := m.jobs[task.job].(status := Running)]
  {
    c := NextClass(m);
    ClassServed(m, w);
    FrontWaits(m, c);
    FrontClassed(m, c);
    hide Invariant, HistoricalFree, NextClass;
  }

  lemma ClassServed(m: Manager, w: nat)
    requires Invariant(m) && Enabled(m, Take(w))
    ensures Served(m, NextClass(m))
  {
    NextClassIs(m);
    FreeExact(m);
    TakeEnabled(m, w);
    hide Invariant, HistoricalFree, HistoricalLimit, NextClass, Enabled;
  }

  lemma FrontClassed(m: Manager, c: nat)
    requires Invariant(m) && c < 3 && m.queues[c] != []
    ensures m.queues[c][0].priority == c
  {
    hide Tokens, OnePerGame, Requested, Capacity, ActiveCounts;
  }

  // ----- stopping -----

  /** A cancelled job was queued, or is asked to stop with its executing body's source; other jobs are as before. */
  lemma CancelAsks(m: Manager, id: nat, other: nat)
    requires Shape(m)
    ensures
      var n := After(m, Cancel(id));
      && n.queues == m.queues && n.workers == m.workers
      && (other != id ==> StatusOf(n.jobs, other) == StatusOf(m.jobs, other))
      && match StatusOf(m.jobs, id)
         case Some(Queued) => StatusOf(n.jobs, id) == Some(Cancelled)
         case Some(Running) =>
           && StatusOf(n.jobs, id) == Some(Running) && n.jobs[id].stopRequested
           && (id in m.activeTasks ==> m.activeTasks[id].source in n.stopped)
         case _ => n == m
  {
  }

  /** When the manager stops, every queued or running job and every active task is asked to stop, and no worker
      takes a task again. */
  lemma StopAsks(m: Manager, id: nat, w: nat)
    requires Shape(m) && !m.stopping
    ensures
      var n := After(m, Stop);
      && Shape(n) && !Enabled(n, Take(w)) && StatusOf(n.jobs, id) == StatusOf(m.jobs, id)
      && (id in m.jobs && m.jobs[id].status in {Queued, Running} ==> n.jobs[id].stopRequested)
      && (id in m.activeTasks ==> m.activeTasks[id].source in n.stopped)
      && n.queues == m.queues && n.workers == m.workers
  {
  }

  predicate AskedToStop(jobs: map<nat, Job>, id: nat) {
    id in jobs && jobs[id].stopRequested
  }

  /** A stop once asked for is never forgotten. */
  lemma AskedKept(m: Manager, step: Step, id: nat)
    requires Invariant(m) && Enabled(m, step) && AskedToStop(m.jobs, id)
    ensures AskedToStop(After(m, step).jobs, id)
  {
    hide Invariant;
    InvariantShape(m);
    match step
    case Start(inputs, priority) => StartTerminal(m, inputs, priority, id);
    case EndBody(w, outcome) => EndFields(m, w, outcome); hide BodyEnd, After;
    case _ =>
  }

  // ----- promotion -----

  /** A promoted job is asked for at the higher class of the two, none of its tasks waits in a lower one, and its
      active task is asked to stop if it works in a lower one. Nothing happens to a job asked for as high already. */
  lemma PromoteAsks(m: Manager, id: nat, priority: nat)
    requires Shape(m) && Classed(m) && priority < 3 && id in m.requested && (id in m.activeTasks ==> m.activeTasks[id].priority < 3)
    ensures
      var n := Promote(m, id, priority);
      if m.requested[id] <= priority then n == m
      else
        && n.requested == m.requested[id := priority] && n.jobs == m.jobs && n.workers == m.workers
        && (forall c, t :: 0 <= c < 3 && t in n.queues[c] && t.job == id ==> c <= priority)
        && n.stopped == m.stopped + if id in m.activeTasks && m.activeTasks[id].priority > priority then {m.activeTasks[id].source} else {}
  {
    if m.requested[id] > priority {
      ClassedQueues(m);
      NoneBelow(m.queues, id, priority);
    }
    hide PromoteQueues, Classed;
  }

  lemma {:induction false} KeptWaits(queue: seq<Task>, id: nat, priority: nat)
    ensures forall t :: t in Kept(queue, id, priority) ==> t in queue && (t.job == id ==> t.priority <= priority)
  {
    if queue != [] {
      KeptWaits(queue[1..], id, priority);
    }
  }

  ghost predicate NoneIn(tasks: seq<Task>, id: nat) {
    forall t :: t in tasks ==> t.job != id
  }

  /** The scan of one queue clears it of the job, if it is of a lower class, and puts nothing in another lower one. */
  lemma ScanClears(queues: seq<seq<Task>>, from: nat, id: nat, priority: nat, c: nat)
    requires QueuesClassed(queues) && from < 3 && priority < c < 3
    ensures
      var promoted := PromoteQueue(queues, from, id, priority);
      QueuesClassed(promoted) && if c == from then NoneIn(promoted[c], id) else promoted[c] == queues[c]
  {
    PromoteQueueKeeps(queues, from, id, priority);
    hide AllIds, AllBare;
    KeptWaits(queues[from], id, priority);
    assert c == from ==> forall t :: t in queues[from] ==> t.priority == from;
    hide Kept, Moved, QueuesClassed;
  }

  lemma NoneBelow(queues: seq<seq<Task>>, id: nat, priority: nat)
    requires QueuesClassed(queues) && |queues| == 3 && priority < 3
    ensures forall c, t :: 0 <= c < 3 && t in PromoteQueues(queues, id, priority)[c] && t.job == id ==> c <= priority
  {
    hide QueuesClassed, PromoteQueue;
    forall c | priority < c < 3
      ensures NoneIn(PromoteQueues(queues, id, priority)[c], id)
    {
      ScanClears(queues, 0, id, priority, c);
      var first := PromoteQueue(queues, 0, id, priority);
      ScanClears(first, 1, id, priority, c);
      ScanClears(PromoteQueue(first, 1, id, priority), 2, id, priority, c);
    }
    hide PromoteQueues;
  }

  // ----- starting jobs -----

  predicate FirstOf(inputs: seq<Input>, i: nat)
    requires i < |inputs|
  {
    forall k :: 0 <= k < i ==> inputs[k].game != inputs[i].game
  }

  /** The game has an active job, asked for at the class or a higher one. */
  predicate ServedAs(m: Manager, id: nat, game: string, priority: nat) {
    IsActiveJob(m, id, game) && id in m.requested && m.requested[id] <= priority
  }

  /** New tasks of one phase, never tried, in the order of their jobs. */
  ghost predicate NewTasks(tasks: seq<Task>, deep: bool, priority: nat, from: nat, to: nat) {
    && (forall t :: t in tasks ==> t.deep == deep && t.priority == priority && t.attempts == 0 && from <= t.job < to)
    && (forall i, j :: 0 <= i < j < |tasks| ==> tasks[i].job < tasks[j].job)
  }

  ghost predicate GameServed(m: Manager, game: string, priority: nat) {
    exists id :: ServedAs(m, id, game, priority)
  }

  ghost predicate GamesServed(m: Manager, inputs: seq<Input>, priority: nat) {
    forall i :: 0 <= i < |inputs| ==> GameServed(m, inputs[i].game, priority)
  }

  predicate GameAmong(inputs: seq<Input>, game: string) {
    exists i :: 0 <= i < |inputs| && inputs[i].game == game
  }

  /** Every job from an id on is of a game of the inputs. */
  ghost predicate CreatedFor(inputs: seq<Input>, m: Manager, from: nat) {
    forall id :: id in m.jobs && from <= id ==> GameAmong(inputs, m.jobs[id].game)
  }

  /** Those jobs stand in the order of the inputs that first name their games. */
  ghost predicate CreatedInOrder(inputs: seq<Input>, m: Manager, from: nat) {
    forall i, j, a, b ::
      (&& 0 <= i < j < |inputs| && FirstOf(inputs, j) && from <= a && from <= b
       && IsActiveJob(m, a, inputs[i].game) && IsActiveJob(m, b, inputs[j].game)) ==> a < b
  }

  /** What a draft has done for the inputs so far. */
  ghost predicate DraftServes(m: Manager, inputs: seq<Input>, d: Draft, priority: nat) {
    && m.nextId <= d.m.nextId && GamesServed(d.m, inputs, priority) && CreatedFor(inputs, d.m, m.nextId)
    && CreatedInOrder(inputs, d.m, m.nextId)
    && NewTasks(d.shallow, false, priority, m.nextId, d.m.nextId) && NewTasks(d.deep, true, priority, m.nextId, d.m.nextId)
  }

  lemma TasksGrow(tasks: seq<Task>, deep: bool, priority: nat, from: nat, to: nat, source: nat)
    requires NewTasks(tasks, deep, priority, from, to) && from <= to
    ensures NewTasks(tasks, deep, priority, from, to + 1)
    ensures NewTasks(tasks + [Task(to, deep, priority, 0, source)], deep, priority, from, to + 1)
  {
    var all := tasks + [Task(to, deep, priority, 0, source)];
    assert forall t :: t in all ==> t in tasks || t == Task(to, deep, priority, 0, source);
    forall i, j | 0 <= i < j < |all|
      ensures all[i].job < all[j].job
    {
      assert all[i] == tasks[i] && tasks[i] in tasks;
      assert j < |tasks| ==> all[j] == tasks[j];
    }
  }

  lemma GamesStillServed(m: Manager, n: Manager, inputs: seq<Input>, input: Input, id: nat, priority: nat)
    requires GamesServed(m, inputs, priority) && ServedAs(n, id, input.game, priority)
    requires forall a, game :: ServedAs(m, a, game, priority) ==> ServedAs(n, a, game, priority)
    ensures GamesServed(n, inputs + [input], priority)
  {
    hide ServedAs;
    var all := inputs + [input];
    forall i | 0 <= i < |all|
      ensures GameServed(n, all[i].game, priority)
    {
      if i < |inputs| {
        assert GameServed(m, inputs[i].game, priority);
        var a :| ServedAs(m, a, inputs[i].game, priority);
        assert ServedAs(n, a, all[i].game, priority);
      } else {
        assert ServedAs(n, id, all[i].game, priority);
      }
    }
  }

  lemma AmongMore(inputs: seq<Input>, input: Input, game: string)
    ensures GameAmong(inputs + [input], game) <==> GameAmong(inputs, game) || game == input.game
  {
    var all := inputs + [input];
    assert all[|inputs|] == input;
    if i :| 0 <= i < |inputs| && inputs[i].game == game {
      assert all[i].game == game;
    }
  }

  lemma FirstAmong(inputs: seq<Input>, input: Input, j: nat)
    requires j <= |inputs|
    ensures FirstOf(inputs + [input], j) <==> if j < |inputs| then FirstOf(inputs, j) else !GameAmong(inputs, input.game)
  {
    var all := inputs + [input];
    assert forall k :: 0 <= k < |inputs| ==> all[k] == inputs[k];
  }

  lemma CreatedJobIs(d: Draft, input: Input, priority: nat, id: nat, game: string)
    ensures
      var n := Create(d, input, priority).m;
      IsActiveJob(n, id, game) <==> if id == d.m.nextId then game == input.game else IsActiveJob(d.m, id, game)
  {
  }

  lemma CreatedServed(d: Draft, inputs: seq<Input>, input: Input, priority: nat)
    requires GamesServed(d.m, inputs, priority) && Requested(d.m)
    ensures GamesServed(Create(d, input, priority).m, inputs + [input], priority)
  {
    var n := Create(d, input, priority).m;
    forall a, game | ServedAs(d.m, a, game, priority)
      ensures ServedAs(n, a, game, priority)
    {
      CreatedJobIs(d, input, priority, a, game);
    }
    CreatedJobIs(d, input, priority, d.m.nextId, input.game);
    hide IsActiveJob;
    GamesStillServed(d.m, n, inputs, input, d.m.nextId, priority);
  }

  lemma CreatedFits(d: Draft, inputs: seq<Input>, input: Input, priority: nat, from: nat)
    requires CreatedFor(inputs, d.m, from)
    ensures CreatedFor(inputs + [input], Create(d, input, priority).m, from)
  {
    hide GameAmong;
    var n := Create(d, input, priority).m;
    forall id | id in n.jobs && from <= id
      ensures GameAmong(inputs + [input], n.jobs[id].game)
    {
      AmongMore(inputs, input, n.jobs[id].game);
    }
  }

  lemma CreatedOrdered(d: Draft, inputs: seq<Input>, input: Input, priority: nat, from: nat)
    requires CreatedInOrder(inputs, d.m, from) && GamesServed(d.m, inputs, priority) && Requested(d.m)
    requires forall id: nat :: id < d.m.nextId ==> !IsActiveJob(d.m, id, input.game)
    ensures CreatedInOrder(inputs + [input], Create(d, input, priority).m, from)
  {
    var n, all, id := Create(d, input, priority).m, inputs + [input], d.m.nextId;
    forall i, j, a, b | 0 <= i < j < |all| && FirstOf(all, j) && from <= a && from <= b && IsActiveJob(n, a, all[i].game)
                        && IsActiveJob(n, b, all[j].game)
      ensures a < b
    {
      CreatedJobIs(d, input, priority, a, all[i].game);
      CreatedJobIs(d, input, priority, b, all[j].game);
      FirstAmong(inputs, input, j);
      assert inputs[i] == all[i];
      assert GameServed(d.m, inputs[i].game, priority);
      var served :| ServedAs(d.m, served, inputs[i].game, priority);
      assert served < id;
      assert all[i].game != input.game;
      if j < |inputs| {
        assert GameServed(d.m, inputs[j].game, priority);
        var also :| ServedAs(d.m, also, inputs[j].game, priority);
        assert also < id && all[j].game != input.game;
      }
    }
  }

  lemma CreateServes(m: Manager, inputs: seq<Input>, d: Draft, input: Input, priority: nat)
    requires DraftServes(m, inputs, d, priority) && Requested(d.m)
    requires forall id: nat :: id < d.m.nextId ==> !IsActiveJob(d.m, id, input.game)
    ensures DraftServes(m, inputs + [input], Create(d, input, priority), priority)
  {
    TasksGrow(d.shallow, false, priority, m.nextId, d.m.nextId, d.m.nextSource);
    TasksGrow(d.deep, true, priority, m.nextId, d.m.nextId, d.m.nextSource);
    CreatedServed(d, inputs, input, priority);
    CreatedFits(d, inputs, input, priority, m.nextId);
    CreatedOrdered(d, inputs, input, priority, m.nextId);
    hide NewTasks, CreatedFor, CreatedInOrder, GamesServed, Requested;
  }

  lemma PromotedServed(m: Manager, id: nat, inputs: seq<Input>, input: Input, priority: nat)
    requires Shape(m) && GamesServed(m, inputs, priority) && IsActiveJob(m, id, input.game) && Requested(m) && priority < 3
    ensures GamesServed(Promote(m, id, priority), inputs + [input], priority)
  {
    var n := Promote(m, id, priority);
    hide PromoteQueues;
    assert ServedAs(n, id, input.game, priority);
    GamesStillServed(m, n, inputs, input, id, priority);
  }

  lemma PromotedOrdered(m: Manager, id: nat, inputs: seq<Input>, input: Input, priority: nat, from: nat)
    requires CreatedInOrder(inputs, m, from) && CreatedFor(inputs, m, from)
    ensures CreatedInOrder(inputs + [input], m, from) && CreatedFor(inputs + [input], m, from)
  {
    var all := inputs + [input];
    forall a | a in m.jobs && from <= a
      ensures GameAmong(all, m.jobs[a].game)
    {
      AmongMore(inputs, input, m.jobs[a].game);
    }
    forall i, j, a, b | 0 <= i < j < |all| && FirstOf(all, j) && from <= a && from <= b && IsActiveJob(m, a, all[i].game)
                        && IsActiveJob(m, b, all[j].game)
      ensures a < b
    {
      FirstAmong(inputs, input, j);
      assert GameAmong(inputs, m.jobs[b].game);
      assert inputs[i] == all[i];
    }
  }

  lemma PromoteJobs(m: Manager, id: nat, priority: nat)
    requires Shape(m) && priority < 3
    ensures
      var n := Promote(m, id, priority);
      n.jobs == m.jobs && n.nextId == m.nextId && n.nextSource == m.nextSource
  {
  }

  lemma OrderSame(m: Manager, n: Manager, inputs: seq<Input>, from: nat)
    requires CreatedInOrder(inputs, m, from) && CreatedFor(inputs, m, from) && n.jobs == m.jobs
    ensures CreatedInOrder(inputs, n, from) && CreatedFor(inputs, n, from)
  {
    hide FirstOf, GameAmong;
    assert forall id, game :: IsActiveJob(n, id, game) <==> IsActiveJob(m, id, game);
  }

  lemma DraftOneServes(m: Manager, inputs: seq<Input>, d: Draft, input: Input, priority: nat)
    requires Shape(d.m) && DraftServes(m, inputs, d, priority) && Requested(d.m) && priority < 3
    ensures DraftServes(m, inputs + [input], DraftOne(d, input, priority), priority)
  {
    var existing := FirstActive(d.m, input.game, d.m.nextId);
    if existing.Some? {
      PromotedServed(d.m, existing.value, inputs, input, priority);
      PromotedOrdered(d.m, existing.value, inputs, input, priority, m.nextId);
      PromoteJobs(d.m, existing.value, priority);
      OrderSame(d.m, Promote(d.m, existing.value, priority), inputs + [input], m.nextId);
    } else {
      CreateServes(m, inputs, d, input, priority);
    }
    hide NewTasks, CreatedFor, CreatedInOrder, GamesServed, Requested, Promote, Create;
  }

  lemma DraftRequested(m: Manager, d: Draft, priority: nat)
    requires Shape(m) && DraftSound(m, d, priority)
    ensures Shape(d.m) && Requested(d.m)
  {
  }

  lemma NothingDrafted(m: Manager, priority: nat)
    requires Shape(m) && Requested(m)
    ensures DraftServes(m, [], Draft(m, [], [], []), priority)
  {
  }

  lemma {:induction false} DraftAllServes(m: Manager, inputs: seq<Input>, priority: nat)
    requires Invariant(m) && priority < 3
    ensures DraftServes(m, inputs, Begun(m, inputs, priority), priority)
    decreases |inputs|
  {
    hide DraftOne, DraftServes, DraftSound, Tokens, OnePerGame, Classed, Requested, Capacity, ActiveCounts;
    if inputs == [] {
      NothingDrafted(m, priority);
    } else {
      var before, input := inputs[..|inputs| - 1], inputs[|inputs| - 1];
      DraftAllServes(m, before, priority);
      DraftAllKeeps(m, before, priority);
      DraftRequested(m, Begun(m, before, priority), priority);
      DraftOneServes(m, before, Begun(m, before, priority), input, priority);
      assert inputs == before + [input];
    }
  }

  lemma {:induction false} DraftBare(m: Manager, inputs: seq<Input>, priority: nat)
    requires Invariant(m) && priority < 3
    ensures Shape(Begun(m, inputs, priority).m) && AllBare(Begun(m, inputs, priority).m.queues) == AllBare(m.queues)
    decreases |inputs|
  {
    hide DraftSound, Tokens, OnePerGame, Classed, Requested, Capacity, ActiveCounts, AllBare, FirstActive;
    if inputs != [] {
      var before, input := inputs[..|inputs| - 1], inputs[|inputs| - 1];
      DraftBare(m, before, priority);
      var d := Begun(m, before, priority);
      DraftAllKeeps(m, before, priority);
      DraftParts(m, d, priority);
      ClassedQueues(d.m);
      var existing := FirstActive(d.m, input.game, d.m.nextId);
      if existing.Some? {
        PromotionKeepsTasks(d.m.queues, existing.value, priority);
      }
      hide PromoteQueues, QueuesClassed, AllIds;
    }
  }

  lemma {:induction false} EnqueueAllAppends(m: Manager, tasks: seq<Task>, priority: nat)
    requires Shape(m) && priority < 3 && AllOf(tasks, priority)
    ensures EnqueueAll(m, tasks) == m.(queues := m.queues[priority := m.queues[priority] + tasks])
    decreases |tasks|
  {
    if tasks == [] {
      assert m.queues[priority] + [] == m.queues[priority];
    } else {
      var before, task := tasks[..|tasks| - 1], tasks[|tasks| - 1];
      assert tasks == before + [task] && task in tasks;
      EnqueueAllAppends(m, before, priority);
      assert m.queues[priority] + before + [task] == m.queues[priority] + tasks;
    }
  }

  /** What a request for games does, the tasks that wait being moved at most to the class asked for. If there is room
      for the new tasks, every game has an active job asked for at that class or a higher one, new jobs are of games
      asked for and in their order, and their quick tasks wait behind all others, and their deep tasks behind
      these. Without room, no job is new. */
  lemma StartServes(m: Manager, inputs: seq<Input>, priority: nat) returns (waiting: seq<seq<Task>>, quick: seq<Task>, deep: seq<Task>)
    requires Invariant(m) && priority < 3
    ensures |waiting| == 3 && AllBare(waiting) == AllBare(m.queues)
    ensures
      var n := After(m, Start(inputs, priority));
      if QueuedCount(m) + |quick| + |deep| > m.options.maxQueued then n.jobs == m.jobs && n.queues == waiting && n.workers == m.workers
      else
        && n.queues == waiting[priority := waiting[priority] + (quick + deep)] && n.workers == m.workers
        && NewTasks(quick, false, priority, m.nextId, n.nextId) && NewTasks(deep, true, priority, m.nextId, n.nextId)
        && GamesServed(n, inputs, priority) && CreatedFor(inputs, n, m.nextId) && CreatedInOrder(inputs, n, m.nextId)
        && forall id :: id in m.jobs ==> id in n.jobs && n.jobs[id] == m.jobs[id]
  {
    hide Invariant, Begun, DraftSound, DraftServes;
    InvariantShape(m);
    var d := Begun(m, inputs, priority);
    DraftBare(m, inputs, priority);
    DraftAllKeeps(m, inputs, priority);
    DraftAllServes(m, inputs, priority);
    waiting, quick, deep := d.m.queues, d.shallow, d.deep;
    DraftFacts(m, d, priority);
    if Fits(m, inputs, priority) {
      AcceptedServes(m, inputs, d, priority);
      forall id | id in m.jobs
        ensures id in After(m, Start(inputs, priority)).jobs && After(m, Start(inputs, priority)).jobs[id] == m.jobs[id]
      {
        StartTerminal(m, inputs, priority, id);
      }
      hide After;
    } else {
      RefusedJobs(m, d);
    }
    hide QueuedCount, AllBare;
  }

  lemma AcceptedServes(m: Manager, inputs: seq<Input>, d: Draft, priority: nat)
    requires Shape(m) && priority < 3 && d == Begun(m, inputs, priority) && Shape(d.m) && Fits(m, inputs, priority)
    requires DraftServes(m, inputs, d, priority) && AllOf(d.shallow, priority) && AllOf(d.deep, priority) && d.m.workers == m.workers
    ensures
      var n := After(m, Start(inputs, priority));
      && n.queues == d.m.queues[priority := d.m.queues[priority] + (d.shallow + d.deep)] && n.workers == m.workers
      && NewTasks(d.shallow, false, priority, m.nextId, n.nextId) && NewTasks(d.deep, true, priority, m.nextId, n.nextId)
      && GamesServed(n, inputs, priority) && CreatedFor(inputs, n, m.nextId) && CreatedInOrder(inputs, n, m.nextId)
  {
    hide Begun, Fits, NewTasks, GamesServed, CreatedFor, CreatedInOrder;
    AllOfBoth(d, priority);
    EnqueueAllAppends(d.m, d.shallow + d.deep, priority);
    PreemptKeeps(EnqueueAll(d.m, d.shallow + d.deep));
    hide EnqueueAll, Preempt, AllOf;
    ServedElsewhere(d.m, After(m, Start(inputs, priority)), inputs, priority, m.nextId);
  }

  lemma DraftFacts(m: Manager, d: Draft, priority: nat)
    requires Shape(m) && DraftSound(m, d, priority)
    ensures DraftJobs(m, d) && AllOf(d.shallow, priority) && AllOf(d.deep, priority)
    ensures Shape(d.m) && QueuedCount(d.m) == QueuedCount(m) && d.m.options == m.options && d.m.workers == m.workers
  {
  }

  lemma ServedElsewhere(m: Manager, n: Manager, inputs: seq<Input>, priority: nat, from: nat)
    requires GamesServed(m, inputs, priority) && CreatedFor(inputs, m, from) && CreatedInOrder(inputs, m, from)
    requires n.jobs == m.jobs && n.requested == m.requested
    ensures GamesServed(n, inputs, priority) && CreatedFor(inputs, n, from) && CreatedInOrder(inputs, n, from)
  {
    OrderSame(m, n, inputs, from);
    forall i | 0 <= i < |inputs|
      ensures GameServed(n, inputs[i].game, priority)
    {
      assert GameServed(m, inputs[i].game, priority);
      var id :| ServedAs(m, id, inputs[i].game, priority);
      assert ServedAs(n, id, inputs[i].game, priority);
    }
  }

  // ----- who is asked to make way -----

  /** The source is that of an active task whose job has been asked for at a higher class since. */
  ghost predicate Raised(m: Manager, requested: map<nat, nat>, source: nat) {
    exists id :: id in m.activeTasks && id in m.requested && id in requested && m.activeTasks[id].source == source
                 && requested[id] < m.requested[id] && requested[id] < m.activeTasks[id].priority
  }

  /** A draft asks only active tasks of raised jobs to stop, and lowers no class asked for. */
  ghost predicate OnlyRaised(m: Manager, d: Draft) {
    && d.m.activeTasks == m.activeTasks && m.stopped <= d.m.stopped
    && (forall id :: id in m.requested ==> id in d.m.requested && d.m.requested[id] <= m.requested[id])
    && (forall s :: s in d.m.stopped ==> s in m.stopped || Raised(m, d.m.requested, s))
  }

  lemma RaisedStays(m: Manager, requested: map<nat, nat>, after: map<nat, nat>, source: nat)
    requires Raised(m, requested, source) && forall id :: id in requested ==> id in after && after[id] <= requested[id]
    ensures Raised(m, after, source)
  {
  }

  /** Active tasks are of jobs asked for, and only given ids are asked for. */
  ghost predicate ActiveAsked(m: Manager) {
    (forall id :: id in m.activeTasks ==> id in m.requested) && (forall id :: id in m.requested ==> id < m.nextId)
  }

  lemma DraftOneRaises(m: Manager, d: Draft, input: Input, priority: nat)
    requires Shape(d.m) && OnlyRaised(m, d) && ActiveAsked(m) && m.nextId <= d.m.nextId && priority < 3
    ensures OnlyRaised(m, DraftOne(d, input, priority)) && m.nextId <= DraftOne(d, input, priority).m.nextId
  {
    hide PromoteQueues;
    var next := DraftOne(d, input, priority);
    forall s | s in next.m.stopped
      ensures s in m.stopped || Raised(m, next.m.requested, s)
    {
      if s in d.m.stopped && s !in m.stopped {
        if FirstActive(d.m, input.game, d.m.nextId).Some? {
          RaisedStays(m, d.m.requested, next.m.requested, s);
        } else {
          CreatedRaised(m, d, input, priority, s);
        }
      }
    }
  }

  lemma CreatedRaised(m: Manager, d: Draft, input: Input, priority: nat, source: nat)
    requires Raised(m, d.m.requested, source) && m.nextId <= d.m.nextId && forall id :: id in m.requested ==> id < m.nextId
    ensures Raised(m, Create(d, input, priority).m.requested, source)
  {
    var id :| id in m.activeTasks && id in m.requested && id in d.m.requested && m.activeTasks[id].source == source
      && d.m.requested[id] < m.requested[id] && d.m.requested[id] < m.activeTasks[id].priority;
    assert id in Create(d, input, priority).m.requested;
  }

  lemma {:induction false} DraftAllRaises(m: Manager, inputs: seq<Input>, priority: nat)
    requires Invariant(m) && ActiveAsked(m) && priority < 3
    ensures OnlyRaised(m, Begun(m, inputs, priority)) && m.nextId <= Begun(m, inputs, priority).m.nextId
    decreases |inputs|
  {
    hide DraftOne, Raised, Tokens, OnePerGame, Classed, Requested, Capacity, ActiveCounts;
    if inputs != [] {
      DraftAllRaises(m, inputs[..|inputs| - 1], priority);
      DraftOneRaises(m, Begun(m, inputs[..|inputs| - 1], priority), inputs[|inputs| - 1], priority);
      hide OnlyRaised;
    }
  }

  /** A request stops the active tasks of the jobs it raises above them, and, if it is not historical and work of the
      first two classes waits for a lone worker, its historical task. It stops nothing else. */
  lemma StartStops(m: Manager, inputs: seq<Input>, priority: nat, source: nat)
    requires Invariant(m) && ActiveAsked(m) && priority < 3
    ensures
      var n := After(m, Start(inputs, priority));
      var lone := Fits(m, inputs, priority) && priority != HISTORICAL && m.options.workers == 1 && Shape(n)
        && (n.queues[0] != [] || n.queues[1] != []);
      && m.stopped <= n.stopped
      && (source in n.stopped ==> source in m.stopped || Raised(m, n.requested, source) || (lone && source in Sources(m.activeTasks)))
      && (lone ==> Sources(m.activeTasks) <= n.stopped)
  {
    hide Invariant, Begun, DraftSound, Raised, Sources;
    InvariantShape(m);
    var d := Begun(m, inputs, priority);
    DraftAllKeeps(m, inputs, priority);
    DraftAllRaises(m, inputs, priority);
    DraftFacts(m, d, priority);
    AllOfBoth(d, priority);
    EnqueueAllAppends(d.m, d.shallow + d.deep, priority);
    hide EnqueueAll, AllOf, DraftJobs, Fits;
  }

  lemma StepAsked(m: Manager, step: Step)
    requires Invariant(m) && Enabled(m, step) && ActiveAsked(m)
    ensures ActiveAsked(After(m, step))
  {
    hide Invariant;
    InvariantShape(m);
    match step
    case Start(inputs, priority) => StartAsked(m, inputs, priority);
    case Take(w) => TakeAsked(m, w);
    case EndBody(w, outcome) => EndAsked(m, w, outcome);
    case _ =>
  }

  lemma DraftOneAsked(d: Draft, input: Input, priority: nat)
    requires Shape(d.m) && ActiveAsked(d.m) && priority < 3
    ensures ActiveAsked(DraftOne(d, input, priority).m)
  {
    hide PromoteQueues;
  }

  lemma {:induction false} DraftAllAsked(m: Manager, inputs: seq<Input>, priority: nat)
    requires Shape(m) && ActiveAsked(m) && priority < 3
    ensures ActiveAsked(Begun(m, inputs, priority).m)
    decreases |inputs|
  {
    hide DraftOne, ActiveAsked;
    if inputs != [] {
      DraftAllAsked(m, inputs[..|inputs| - 1], priority);
      DraftOneAsked(Begun(m, inputs[..|inputs| - 1], priority), inputs[|inputs| - 1], priority);
    }
  }

  lemma StartAsked(m: Manager, inputs: seq<Input>, priority: nat)
    requires Invariant(m) && ActiveAsked(m) && priority < 3
    ensures ActiveAsked(After(m, Start(inputs, priority)))
  {
    hide Invariant, Begun, DraftSound;
    InvariantShape(m);
    var d := Begun(m, inputs, priority);
    DraftAllAsked(m, inputs, priority);
    DraftAllKeeps(m, inputs, priority);
    DraftFacts(m, d, priority);
    AllOfBoth(d, priority);
    EnqueueAllAppends(d.m, d.shallow + d.deep, priority);
    PreemptKeeps(EnqueueAll(d.m, d.shallow + d.deep));
    hide EnqueueAll, AllOf, DraftJobs, Fits, Preempt;
  }

  lemma TakeAsked(m: Manager, w: nat)
    requires Invariant(m) && Enabled(m, Take(w)) && ActiveAsked(m)
    ensures ActiveAsked(After(m, Take(w)))
  {
    var c := TakeServes(m, w);
    RequestedFacts(m, m.queues[c][0].job);
    TakeActive(m, w);
    hide Invariant;
  }

  lemma TakeActive(m: Manager, w: nat)
    requires Shape(m) && Enabled(m, Take(w))
    ensures
      var n, task := After(m, Take(w)), m.queues[NextClass(m)][0];
      && n.requested == m.requested && n.nextId == m.nextId
      && n.activeTasks.Keys <= m.activeTasks.Keys + if task.job in m.jobs then {task.job} else {}
  {
  }

  lemma EndAsked(m: Manager, w: nat, outcome: Outcome)
    requires Shape(m) && Enabled(m, EndBody(w, outcome)) && ActiveAsked(m)
    ensures ActiveAsked(After(m, EndBody(w, outcome)))
  {
    AgainTask(m, w, outcome);
    hide BodyEnd;
  }

  lemma {:induction false} RunAsked(options: Options, steps: seq<Step>)
    requires options.workers > 0 && IsRun(Begin(options), steps)
    ensures ActiveAsked(Reached(Begin(options), steps))
  {
    BeginInvariant(options);
    AskedFrom(Begin(options), steps);
  }

  lemma {:induction false} AskedFrom(m: Manager, steps: seq<Step>)
    requires Invariant(m) && ActiveAsked(m) && IsRun(m, steps)
    ensures ActiveAsked(Reached(m, steps))
    decreases |steps|
  {
    hide Invariant, ActiveAsked, After, Enabled;
    if steps != [] {
      StepKeepsInvariant(m, steps[0]);
      StepAsked(m, steps[0]);
      AskedFrom(After(m, steps[0]), steps[1..]);
    }
  }
}
