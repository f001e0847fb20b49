/** What every interleaving of the job manager keeps. */
module JobProofs {
  import opened Positions
  import opened Jobs

  // ----- queues -----

  lemma {:induction false} JobIdsConcat(a: seq<Task>, b: seq<Task>)
    ensures JobIds(a + b) == JobIds(a) + JobIds(b)
  {
    if a == [] {
      assert a + b == b;
    } else {
      assert (a + b)[0] == a[0] && (a + b)[1..] == a[1..] + b;
      JobIdsConcat(a[1..], b);
    }
  }

  lemma JobIdsOne(task: Task)
    ensures JobIds([task]) == multiset{task.job}
  {
    assert [task][1..] == [];
  }

  /** A task without its class, to say that promotion keeps everything else. */
  function Bare(tasks: seq<Task>): multiset<Task> {
    if tasks == [] then multiset{} else multiset{tasks[0].(priority := 0)} + Bare(tasks[1..])
  }

  lemma {:induction false} BareConcat(a: seq<Task>, b: seq<Task>)
    ensures Bare(a + b) == Bare(a) + Bare(b)
  {
    if a == [] {
      assert a + b == b;
    } else {
      assert (a + b)[0] == a[0] && (a + b)[1..] == a[1..] + b;
      BareConcat(a[1..], b);
    }
  }

  lemma AddMiddle<T>(a: multiset<T>, x: multiset<T>, b: multiset<T>)
    ensures a + (x + b) == x + (a + b)
    ensures (x + a) + b == x + (a + b)
  {
  }

  lemma {:induction false} ScanStep(queue: seq<Task>, id: nat, priority: nat)
    requires queue != []
    ensures
      var kept, moved := Kept(queue[1..], id, priority), Moved(queue[1..], id, priority);
      if Promotable(queue[0], id, priority) then
        Kept(queue, id, priority) == kept && Moved(queue, id, priority) == [queue[0].(priority := priority)] + moved
      else Kept(queue, id, priority) == [queue[0]] + kept && Moved(queue, id, priority) == moved
  {
  }

  lemma {:induction false} KeptAndMovedIds(queue: seq<Task>, id: nat, priority: nat)
    ensures JobIds(Kept(queue, id, priority)) + JobIds(Moved(queue, id, priority)) == JobIds(queue)
  {
    if queue != [] {
      KeptAndMovedIds(queue[1..], id, priority);
      ScanStep(queue, id, priority);
      var kept, moved := Kept(queue[1..], id, priority), Moved(queue[1..], id, priority);
      JobIdsConcat([queue[0].(priority := priority)], moved);
      JobIdsConcat([queue[0]], kept);
      JobIdsOne(queue[0].(priority := priority));
      JobIdsOne(queue[0]);
      AddMiddle(JobIds(kept), multiset{queue[0].job}, JobIds(moved));
      assert JobIds(queue) == multiset{queue[0].job} + JobIds(queue[1..]);
      hide Kept, Moved, JobIds;
    }
  }

  lemma {:induction false} KeptAndMovedBare(queue: seq<Task>, id: nat, priority: nat)
    ensures Bare(Kept(queue, id, priority)) + Bare(Moved(queue, id, priority)) == Bare(queue)
  {
    if queue != [] {
      KeptAndMovedBare(queue[1..], id, priority);
      ScanStep(queue, id, priority);
      var kept, moved := Kept(queue[1..], id, priority), Moved(queue[1..], id, priority);
      BareConcat([queue[0].(priority := priority)], moved);
      BareConcat([queue[0]], kept);
      BareOne(queue[0].(priority := priority));
      BareOne(queue[0]);
      AddMiddle(Bare(kept), multiset{queue[0].(priority := 0)}, Bare(moved));
      assert Bare(queue) == multiset{queue[0].(priority := 0)} + Bare(queue[1..]);
      hide Kept, Moved, Bare;
    }
  }

  lemma BareOne(task: Task)
    ensures Bare([task]) == multiset{task.(priority := 0)}
  {
    assert [task][1..] == [];
  }

  lemma {:induction false} KeptAndMoved(queue: seq<Task>, id: nat, priority: nat)
    ensures |Kept(queue, id, priority)| + |Moved(queue, id, priority)| == |queue|
    ensures forall t :: t in Kept(queue, id, priority) ==> t in queue
    ensures forall t :: t in Moved(queue, id, priority) ==> t.priority == priority
  {
    if queue != [] {
      KeptAndMoved(queue[1..], id, priority);
    }
  }

  lemma {:induction false} NoneMoved(queue: seq<Task>, id: nat, priority: nat)
    requires forall t :: t in queue ==> t.priority <= priority
    ensures Kept(queue, id, priority) == queue && Moved(queue, id, priority) == []
  {
    if queue != [] {
      assert queue[0] in queue && forall t :: t in queue[1..] ==> t in queue;
      NoneMoved(queue[1..], id, priority);
    }
  }

  function AllIds(queues: seq<seq<Task>>): multiset<nat>
    requires |queues| == 3
  {
    JobIds(queues[0]) + JobIds(queues[1]) + JobIds(queues[2])
  }

  function AllBare(queues: seq<seq<Task>>): multiset<Task>
    requires |queues| == 3
  {
    Bare(queues[0]) + Bare(queues[1]) + Bare(queues[2])
  }

  predicate QueuesClassed(queues: seq<seq<Task>>) {
    |queues| == 3 && forall c, t :: 0 <= c < 3 && t in queues[c] ==> t.priority == c
  }

  /** Moving part of one summand to another keeps the sum. */
  lemma MovedSum<T>(from: multiset<T>, to: multiset<T>, other: multiset<T>, kept: multiset<T>, moved: multiset<T>)
    requires kept + moved == from
    ensures kept + (to + moved) + other == from + to + other
    ensures (to + moved) + kept + other == to + from + other
    ensures (to + moved) + other + kept == to + other + from
    ensures other + (to + moved) + kept == other + to + from
  {
  }

  lemma PromoteQueueKeeps(queues: seq<seq<Task>>, from: nat, id: nat, priority: nat)
    requires QueuesClassed(queues) && from < 3 && priority < 3
    ensures
      var promoted := PromoteQueue(queues, from, id, priority);
      && QueuesClassed(promoted) && AllIds(promoted) == AllIds(queues) && AllBare(promoted) == AllBare(queues)
      && |promoted[0]| + |promoted[1]| + |promoted[2]| == |queues[0]| + |queues[1]| + |queues[2]|
  {
    var queue := queues[from];
    var kept, moved := Kept(queue, id, priority), Moved(queue, id, priority);
    if from <= priority {
      NoneMoved(queue, id, priority);
      hide Kept, Moved;
      assert queues[from := queue] == queues;
      assert queues[priority] + [] == queues[priority];
      assert PromoteQueue(queues, from, id, priority) == queues;
    } else {
      hide *;
      MovedBetween(queues, from, id, priority);
      MovedClassed(queues, from, id, priority);
    }
  }

  lemma MovedClassed(queues: seq<seq<Task>>, from: nat, id: nat, priority: nat)
    requires QueuesClassed(queues) && priority < from < 3
    ensures
      var promoted := PromoteQueue(queues, from, id, priority);
      && QueuesClassed(promoted)
      && |promoted[0]| + |promoted[1]| + |promoted[2]| == |queues[0]| + |queues[1]| + |queues[2]|
  {
    hide Kept, Moved;
    KeptAndMoved(queues[from], id, priority);
    var promoted := PromoteQueue(queues, from, id, priority);
    forall c, t: Task | 0 <= c < 3 && t in promoted[c]
      ensures t.priority == c
    {
      assert c != from && c != priority ==> promoted[c] == queues[c];
    }
  }

  lemma MovedBetween(queues: seq<seq<Task>>, from: nat, id: nat, priority: nat)
    requires |queues| == 3 && priority < from < 3
    ensures
      var promoted := PromoteQueue(queues, from, id, priority);
      AllIds(promoted) == AllIds(queues) && AllBare(promoted) == AllBare(queues)
  {
    hide Kept, Moved, JobIds, Bare;
    var queue := queues[from];
    var kept, moved := Kept(queue, id, priority), Moved(queue, id, priority);
    KeptAndMovedIds(queue, id, priority);
    KeptAndMovedBare(queue, id, priority);
    JobIdsConcat(queues[priority], moved);
    BareConcat(queues[priority], moved);
    var other := queues[3 - from - priority];
    MovedSum(JobIds(queue), JobIds(queues[priority]), JobIds(other), JobIds(kept), JobIds(moved));
    MovedSum(Bare(queue), Bare(queues[priority]), Bare(other), Bare(kept), Bare(moved));
    var promoted := PromoteQueue(queues, from, id, priority);
    assert promoted[from] == kept && promoted[priority] == queues[priority] + moved;
    assert promoted[3 - from - priority] == other;
  }

  /** Promotion loses no task: it moves tasks of the job to the higher class and changes nothing else. */
  lemma PromotionKeepsTasks(queues: seq<seq<Task>>, id: nat, priority: nat)
    requires QueuesClassed(queues) && priority < 3
    ensures
      var promoted := PromoteQueues(queues, id, priority);
      && QueuesClassed(promoted) && AllIds(promoted) == AllIds(queues) && AllBare(promoted) == AllBare(queues)
      && |promoted[0]| + |promoted[1]| + |promoted[2]| == |queues[0]| + |queues[1]| + |queues[2]|
  {
    PromoteQueueKeeps(queues, 0, id, priority);
    var first := PromoteQueue(queues, 0, id, priority);
    PromoteQueueKeeps(first, 1, id, priority);
    var second := PromoteQueue(first, 1, id, priority);
    PromoteQueueKeeps(second, 2, id, priority);
    hide PromoteQueue, AllIds, AllBare;
  }

  // ----- workers -----

  lemma Shifted(first: multiset<nat>, rest: multiset<nat>, next: multiset<nat>, before: multiset<nat>, after: multiset<nat>)
    requires next + before == rest + after
    ensures first + next + before == first + rest + after
  {
    assert first + next + before == first + (next + before);
    assert first + rest + after == first + (rest + after);
  }

  lemma {:induction false} BodiesUpdated(workers: seq<Worker>, w: nat, next: Worker)
    requires w < |workers|
    ensures BodyIds(workers[w := next]) + BodyId(workers[w]) == BodyIds(workers) + BodyId(next)
  {
    hide BodyId;
    var changed := workers[w := next];
    if w == 0 {
      assert changed[1..] == workers[1..];
      var rest := BodyIds(workers[1..]);
      assert BodyId(next) + rest + BodyId(workers[0]) == BodyId(workers[0]) + rest + BodyId(next);
    } else {
      assert changed[1..] == workers[1..][w - 1 := next];
      BodiesUpdated(workers[1..], w - 1, next);
      Shifted(BodyId(workers[0]), BodyIds(workers[1..]), BodyIds(changed[1..]), BodyId(workers[w]), BodyId(next));
    }
  }

  lemma {:induction false} FewBodies(workers: seq<Worker>)
    ensures |BodyIds(workers)| <= |workers|
  {
    if workers != [] {
      FewBodies(workers[1..]);
    }
  }

  function CountIn(w: Worker, priority: nat): nat {
    if ClassOf(w) == Some(priority) then 1 else 0
  }

  lemma {:induction false} ActiveUpdated(workers: seq<Worker>, w: nat, next: Worker, priority: nat)
    requires w < |workers|
    ensures ActiveIn(workers[w := next], priority) + CountIn(workers[w], priority) ==
            ActiveIn(workers, priority) + CountIn(next, priority)
  {
    hide ClassOf;
    if w == 0 {
      assert workers[0 := next][1..] == workers[1..];
    } else {
      assert workers[w := next][1..] == workers[1..][w - 1 := next];
      ActiveUpdated(workers[1..], w - 1, next, priority);
    }
  }

  lemma CountsUpdated(m: Manager, n: Manager, w: nat, next: Worker)
    requires Shape(m) && Shape(n) && ActiveCounts(m) && w < |m.workers| && n.workers == m.workers[w := next] && n.options == m.options
    requires forall c :: 0 <= c < 3 ==> n.activeBy[c] + CountIn(m.workers[w], c) == m.activeBy[c] + CountIn(next, c)
    requires n.activeBy[2] <= HistoricalLimit(n.options)
    ensures ActiveCounts(n)
  {
    hide CountIn, ActiveIn;
    forall c | 0 <= c < 3
      ensures n.activeBy[c] == ActiveIn(n.workers, c)
    {
      ActiveUpdated(m.workers, w, next, c);
    }
  }

  /** The active count of a worker's class is not zero. */
  lemma FinishAllowed(m: Manager, w: nat)
    requires Invariant(m) && w < |m.workers| && m.workers[w].Finishing? && m.workers[w].priority < 3
    ensures Enabled(m, Finish(w))
  {
    hide Tokens, OnePerGame, Classed, Requested, Capacity;
    ActiveUpdated(m.workers, w, Idle, m.workers[w].priority);
    hide ActiveIn;
  }

  // ----- statuses -----

  lemma TokensMoved(jobs: map<nat, Job>, queued: multiset<nat>, bodies: multiset<nat>, id: nat, status: Status,
                    queuedAfter: multiset<nat>, bodiesAfter: multiset<nat>)
    requires Tokens(jobs, queued, bodies) && id in jobs
    requires forall other: nat :: other != id ==> queuedAfter[other] == queued[other] && bodiesAfter[other] == bodies[other]
    requires TokensFit(Some(status), queuedAfter[id], bodiesAfter[id])
    ensures Tokens(jobs[id := jobs[id].(status := status)], queuedAfter, bodiesAfter)
  {
    hide TokensFit;
    var after := jobs[id := jobs[id].(status := status)];
    forall other: nat
      ensures TokensFit(StatusOf(after, other), queuedAfter[other], bodiesAfter[other])
    {
      if other != id {
        assert TokensFit(StatusOf(jobs, other), queued[other], bodies[other]);
        assert StatusOf(after, other) == StatusOf(jobs, other);
      }
    }
  }

  /** Moving a job out of the active statuses, or within them, keeps one active job per game. */
  lemma OnePerGameKept(m: Manager, n: Manager)
    requires OnePerGame(m)
    requires forall id, game :: IsActiveJob(n, id, game) ==> IsActiveJob(m, id, game)
    ensures OnePerGame(n)
  {
  }

  lemma OnePerGameStatus(m: Manager, n: Manager, id: nat, status: Status)
    requires OnePerGame(m) && id in m.jobs && IsActiveStatus(m.jobs[id].status)
    requires n.jobs == m.jobs[id := m.jobs[id].(status := status)]
    ensures OnePerGame(n)
  {
    OnePerGameKept(m, n);
  }

  // ----- promotion and drafting -----

  /** What promoting keeps, as far as the invariant goes. */
  lemma PromoteKeeps(m: Manager, id: nat, priority: nat)
    requires Shape(m) && Classed(m) && Requested(m) && priority < 3
    ensures
      var n := Promote(m, id, priority);
      && n == m.(requested := n.requested, queues := n.queues, stopped := n.stopped)
      && QueuedIds(n) == QueuedIds(m) && QueuedCount(n) == QueuedCount(m) && Classed(n) && Requested(n)
      && m.requested.Keys == n.requested.Keys
  {
    if id in m.requested && m.requested[id] > priority {
      ClassedQueues(m);
      PromotionKeepsTasks(m.queues, id, priority);
      hide JobIds, PromoteQueues;
      QueuesClassedBack(m, Promote(m, id, priority));
    }
  }

  lemma ClassedQueues(m: Manager)
    requires Shape(m) && Classed(m)
    ensures QueuesClassed(m.queues)
  {
    forall c, t: Task | 0 <= c < 3 && t in m.queues[c]
      ensures t.priority == c
    {
      var i :| 0 <= i < |m.queues[c]| && m.queues[c][i] == t;
    }
  }

  lemma QueuesClassedBack(m: Manager, n: Manager)
    requires Shape(m) && Shape(n) && Classed(m) && QueuesClassed(n.queues) && n.workers == m.workers
    ensures Classed(n)
  {
    forall c, i | 0 <= c < 3 && 0 <= i < |n.queues[c]|
      ensures n.queues[c][i].priority == c
    {
      assert n.queues[c][i] in n.queues[c];
    }
  }

  function DraftIds(d: Draft): multiset<nat> {
    JobIds(d.shallow) + JobIds(d.deep)
  }

  predicate AllOf(tasks: seq<Task>, priority: nat) {
    forall t :: t in tasks ==> t.priority == priority
  }

  /** A draft's jobs are the ones there were and those it created, under new ids. */
  ghost predicate DraftJobs(m: Manager, d: Draft) {
    && m.nextId <= d.m.nextId && (forall id :: id in d.created ==> m.nextId <= id)
    && (forall id :: id in m.jobs ==> id in d.m.jobs && d.m.jobs[id] == m.jobs[id] && id !in d.created)
    && (forall id :: id in d.m.jobs ==> id in m.jobs || id in d.created)
  }

  /** A draft has only promoted what was there, created jobs under new ids, and holds a task for each
      created job that is queued. */
  ghost predicate DraftSound(m: Manager, d: Draft, priority: nat)
    requires Shape(m)
  {
    && Shape(d.m) && Classed(d.m) && Requested(d.m) && OnePerGame(d.m)
    && QueuedIds(d.m) == QueuedIds(m) && QueuedCount(d.m) == QueuedCount(m)
    && d.m.workers == m.workers && d.m.options == m.options && d.m.activeBy == m.activeBy
    && Tokens(d.m.jobs, QueuedIds(m) + DraftIds(d), BodyIds(m.workers))
    && DraftJobs(m, d) && AllOf(d.shallow, priority) && AllOf(d.deep, priority)
  }

  lemma NewTokens(jobs: map<nat, Job>, queued: multiset<nat>, bodies: multiset<nat>, id: nat, job: Job, queuedAfter: multiset<nat>)
    requires Tokens(jobs, queued, bodies) && id !in jobs
    requires job.status.Queued? || job.status.Complete?
    requires queuedAfter == queued + if job.status.Queued? then multiset{id} else multiset{}
    ensures Tokens(jobs[id := job], queuedAfter, bodies)
  {
    assert TokensFit(StatusOf(jobs, id), queued[id], bodies[id]);
    forall other: nat
      ensures TokensFit(StatusOf(jobs[id := job], other), queuedAfter[other], bodies[other])
    {
      assert TokensFit(StatusOf(jobs, other), queued[other], bodies[other]);
    }
  }

  lemma CreateKeeps(m: Manager, d: Draft, input: Input, priority: nat)
    requires Shape(m) && DraftSound(m, d, priority) && priority < 3
    requires forall id: nat :: id < d.m.nextId ==> !IsActiveJob(d.m, id, input.game)
    ensures DraftSound(m, Create(d, input, priority), priority)
  {
    hide Tokens, Classed, QueuedIds, QueuedCount, JobIds, OnePerGame, DraftIds, AllOf, DraftJobs, BodyIds, Requested;
    NextIdFree(d.m);
    CreateTokens(d, input, priority, QueuedIds(m), BodyIds(m.workers));
    CreateOnePerGame(d, input, priority);
    CreateLists(d, input, priority);
    CreateQueues(d, input, priority);
    CreateJobs(m, d, input, priority);
  }

  lemma NextIdFree(m: Manager)
    requires Requested(m)
    ensures m.nextId !in m.jobs
  {
  }

  lemma CreateJobs(m: Manager, d: Draft, input: Input, priority: nat)
    requires DraftJobs(m, d) && Requested(d.m) && priority < 3
    ensures DraftJobs(m, Create(d, input, priority)) && Requested(Create(d, input, priority).m)
    ensures Create(d, input, priority).m.workers == d.m.workers && Create(d, input, priority).m.options == d.m.options
    ensures Create(d, input, priority).m.activeBy == d.m.activeBy
  {
    var next, id := Create(d, input, priority), d.m.nextId;
    assert next.created == d.created + [id];
    assert forall x :: x in next.created <==> x in d.created || x == id;
  }

  lemma CreateQueues(d: Draft, input: Input, priority: nat)
    requires Shape(d.m) && Classed(d.m)
    ensures
      var next := Create(d, input, priority);
      Shape(next.m) && Classed(next.m) && QueuedIds(next.m) == QueuedIds(d.m) && QueuedCount(next.m) == QueuedCount(d.m)
  {
  }

  lemma CreateLists(d: Draft, input: Input, priority: nat)
    requires AllOf(d.shallow, priority) && AllOf(d.deep, priority)
    ensures
      var next := Create(d, input, priority);
      AllOf(next.shallow, priority) && AllOf(next.deep, priority) && next.created == d.created + [d.m.nextId]
  {
  }

  lemma CreateOnePerGame(d: Draft, input: Input, priority: nat)
    requires OnePerGame(d.m) && Requested(d.m)
    requires forall id: nat :: id < d.m.nextId ==> !IsActiveJob(d.m, id, input.game)
    ensures OnePerGame(Create(d, input, priority).m)
  {
    var n, id := Create(d, input, priority).m, d.m.nextId;
    forall a: nat, b: nat, game | IsActiveJob(n, a, game) && IsActiveJob(n, b, game)
      ensures a == b
    {
      assert a != id ==> IsActiveJob(d.m, a, game) && a < d.m.nextId;
      assert b != id ==> IsActiveJob(d.m, b, game) && b < d.m.nextId;
    }
  }

  lemma CreateIds(d: Draft, input: Input, priority: nat)
    ensures
      DraftIds(Create(d, input, priority)) == DraftIds(d) + if input.complete then multiset{} else multiset{d.m.nextId}
  {
    var task := Task(d.m.nextId, input.hasShallow, priority, 0, d.m.nextSource);
    JobIdsConcat(d.shallow, [task]);
    JobIdsConcat(d.deep, [task]);
    JobIdsOne(task);
    hide JobIds;
  }

  lemma CreateTokens(d: Draft, input: Input, priority: nat, queued: multiset<nat>, bodies: multiset<nat>)
    requires Tokens(d.m.jobs, queued + DraftIds(d), bodies) && d.m.nextId !in d.m.jobs
    ensures Tokens(Create(d, input, priority).m.jobs, queued + DraftIds(Create(d, input, priority)), bodies)
  {
    hide Tokens, DraftIds;
    var next := Create(d, input, priority);
    CreateIds(d, input, priority);
    assert queued + DraftIds(next) == queued + DraftIds(d) + if input.complete then multiset{} else multiset{d.m.nextId};
    NewTokens(d.m.jobs, queued + DraftIds(d), bodies, d.m.nextId, next.m.jobs[d.m.nextId], queued + DraftIds(next));
  }

  lemma DraftOneKeeps(m: Manager, d: Draft, input: Input, priority: nat)
    requires Shape(m) && DraftSound(m, d, priority) && priority < 3
    ensures DraftSound(m, DraftOne(d, input, priority), priority)
  {
    var existing := FirstActive(d.m, input.game, d.m.nextId);
    if existing.Some? {
      PromoteKeeps(d.m, existing.value, priority);
      PromotedSound(m, d, Promote(d.m, existing.value, priority), priority);
    } else {
      CreateKeeps(m, d, input, priority);
    }
    hide DraftSound, Create, Promote;
  }

  lemma PromotedSound(m: Manager, d: Draft, n: Manager, priority: nat)
    requires Shape(m) && Shape(n) && DraftSound(m, d, priority)
    requires n == d.m.(requested := n.requested, queues := n.queues, stopped := n.stopped)
    requires QueuedIds(n) == QueuedIds(d.m) && QueuedCount(n) == QueuedCount(d.m) && Classed(n) && Requested(n)
    ensures DraftSound(m, d.(m := n), priority)
  {
    OnePerGameKept(d.m, n);
    hide QueuedIds, QueuedCount, Classed, Requested, Tokens, OnePerGame, AllOf, JobIds;
  }

  lemma {:induction false} DraftAllKeeps(m: Manager, inputs: seq<Input>, priority: nat)
    requires Invariant(m) && priority < 3
    ensures DraftSound(m, Begun(m, inputs, priority), priority)
  {
    hide DraftOne;
    if inputs == [] {
      EmptyDraft(m, priority);
    } else {
      DraftAllKeeps(m, inputs[..|inputs| - 1], priority);
      DraftOneKeeps(m, Begun(m, inputs[..|inputs| - 1], priority), inputs[|inputs| - 1], priority);
      hide DraftSound;
    }
  }

  lemma EmptyDraft(m: Manager, priority: nat)
    requires Invariant(m)
    ensures DraftSound(m, Draft(m, [], [], []), priority)
  {
    assert DraftIds(Draft(m, [], [], [])) == multiset{};
    hide QueuedIds, Classed, OnePerGame, Capacity, ActiveCounts, BodyIds;
    assert QueuedIds(m) + multiset{} == QueuedIds(m);
  }

  // ----- starting -----

  lemma {:induction false} QueueIdsUpdated(queues: seq<seq<Task>>, c: nat, queue: seq<Task>, x: multiset<nat>, y: multiset<nat>)
    requires |queues| == 3 && c < 3 && JobIds(queue) + x == JobIds(queues[c]) + y
    ensures AllIds(queues[c := queue]) + x == AllIds(queues) + y
  {
    hide JobIds;
    forall id
      ensures (AllIds(queues[c := queue]) + x)[id] == (AllIds(queues) + y)[id]
    {
      assert (JobIds(queue) + x)[id] == (JobIds(queues[c]) + y)[id];
    }
  }

  lemma EnqueueClassed(m: Manager, task: Task)
    requires Shape(m) && Classed(m) && task.priority < 3
    ensures Classed(Enqueue(m, task))
  {
  }

  lemma EnqueueIds(m: Manager, task: Task)
    requires Shape(m) && task.priority < 3
    ensures QueuedIds(Enqueue(m, task)) == QueuedIds(m) + multiset{task.job}
  {
    var queue := m.queues[task.priority];
    JobIdsConcat(queue, [task]);
    JobIdsOne(task);
    hide JobIds;
    assert JobIds(queue + [task]) + multiset{} == JobIds(queue) + multiset{task.job};
    QueueIdsUpdated(m.queues, task.priority, queue + [task], multiset{}, multiset{task.job});
    hide AllIds;
    IdsOfQueues(m);
    IdsOfQueues(Enqueue(m, task));
    hide QueuedIds;
    assert AllIds(Enqueue(m, task).queues) + multiset{} == AllIds(Enqueue(m, task).queues);
  }

  lemma IdsOfQueues(m: Manager)
    requires Shape(m)
    ensures QueuedIds(m) == AllIds(m.queues)
  {
  }

  lemma EnqueueKeeps(m: Manager, task: Task)
    requires Shape(m) && Classed(m) && task.priority < 3
    ensures
      var n := Enqueue(m, task);
      QueuedIds(n) == QueuedIds(m) + multiset{task.job} && QueuedCount(n) == QueuedCount(m) + 1 && Classed(n)
  {
    hide QueuedIds, Classed;
    EnqueueIds(m, task);
    EnqueueClassed(m, task);
  }

  lemma {:induction false} EnqueueAllKeeps(m: Manager, tasks: seq<Task>, priority: nat)
    requires Shape(m) && Classed(m) && priority < 3 && AllOf(tasks, priority)
    ensures
      var n := EnqueueAll(m, tasks);
      && n == m.(queues := n.queues) && QueuedIds(n) == QueuedIds(m) + JobIds(tasks)
      && QueuedCount(n) == QueuedCount(m) + |tasks| && Classed(n)
  {
    hide QueuedIds, QueuedCount, Classed, JobIds;
    if tasks == [] {
      NoIds();
    } else {
      var before, task := tasks[..|tasks| - 1], tasks[|tasks| - 1];
      assert tasks == before + [task] && task in tasks;
      EnqueueAllKeeps(m, before, priority);
      EnqueueKeeps(EnqueueAll(m, before), task);
      JobIdsConcat(before, [task]);
      JobIdsOne(task);
    }
  }

  lemma NoIds()
    ensures JobIds([]) == multiset{}
  {
  }

  lemma PreemptKeeps(m: Manager)
    requires Shape(m)
    ensures Preempt(m) == m.(stopped := Preempt(m).stopped)
  {
  }

  lemma ClassedSame(m: Manager, n: Manager)
    requires Shape(m) && Shape(n) && Classed(m) && n.queues == m.queues && n.workers == m.workers
    ensures Classed(n)
  {
  }

  lemma RequestedSame(m: Manager, n: Manager)
    requires Requested(m) && n.jobs.Keys <= m.jobs.Keys && n.requested == m.requested && n.nextId >= m.nextId
    ensures Requested(n)
  {
    forall id | id in n.jobs
      ensures id < n.nextId && id in n.requested
    {
      assert id in m.jobs;
    }
  }

  lemma CapacitySame(m: Manager, n: Manager)
    requires Shape(m) && Shape(n) && Capacity(m) && n.queues == m.queues && n.workers == m.workers && n.options == m.options
    ensures Capacity(n)
  {
    hide BodyIds;
  }

  lemma CountsSame(m: Manager, n: Manager)
    requires Shape(m) && Shape(n) && ActiveCounts(m) && n.workers == m.workers && n.activeBy == m.activeBy && n.options == m.options
    ensures ActiveCounts(n)
  {
    hide ActiveIn;
  }

  /** Two managers with the same queues, workers and counts, and jobs of the same statuses. */
  lemma InvariantSame(m: Manager, n: Manager)
    requires Invariant(m) && Shape(n) && n.queues == m.queues && n.workers == m.workers && n.options == m.options
    requires n.activeBy == m.activeBy && n.requested == m.requested && n.nextId == m.nextId && n.jobs.Keys == m.jobs.Keys
    requires Tokens(n.jobs, QueuedIds(m), BodyIds(m.workers)) && OnePerGame(n)
    ensures Invariant(n)
  {
    ClassedSame(m, n);
    RequestedSame(m, n);
    CapacitySame(m, n);
    CountsSame(m, n);
    SameIds(m, n);
    hide Tokens, OnePerGame, Classed, Requested, Capacity, ActiveCounts, QueuedIds;
  }

  lemma SameIds(m: Manager, n: Manager)
    requires Shape(m) && Shape(n) && n.queues == m.queues
    ensures QueuedIds(n) == QueuedIds(m)
  {
  }

  /** The invariant does not look at the stopped sources, the pause flag, or the active tasks. */
  lemma InvariantElsewhere(m: Manager, n: Manager)
    requires Invariant(m)
    requires n == m.(stopped := n.stopped, paused := n.paused, activeTasks := n.activeTasks, stopping := n.stopping)
    ensures Invariant(n)
  {
    hide Tokens, OnePerGame, Classed, Requested, Capacity, ActiveCounts, QueuedIds;
    OnePerGameKept(m, n);
    InvariantSame(m, n);
  }

  lemma StartKeeps(m: Manager, inputs: seq<Input>, priority: nat)
    requires Invariant(m) && priority < 3
    ensures Invariant(After(m, Start(inputs, priority)))
  {
    hide Begun, Invariant, DraftSound;
    InvariantShape(m);
    DraftAllKeeps(m, inputs, priority);
    var d := Begun(m, inputs, priority);
    if Fits(m, inputs, priority) {
      DraftOptions(m, d, priority);
      AcceptedKeeps(m, d, priority);
    } else {
      RefusedKeeps(m, d, priority);
    }
  }

  lemma InvariantShape(m: Manager)
    requires Invariant(m)
    ensures Shape(m)
  {
  }

  lemma DraftOptions(m: Manager, d: Draft, priority: nat)
    requires Shape(m) && DraftSound(m, d, priority)
    ensures d.m.options == m.options && Shape(d.m)
  {
  }

  lemma RefusedKeeps(m: Manager, d: Draft, priority: nat)
    requires Invariant(m) && DraftSound(m, d, priority)
    ensures Invariant(d.m.(jobs := d.m.jobs - set id | id in d.created))
  {
    hide Tokens, OnePerGame, Classed, Requested, QueuedIds, QueuedCount, BodyIds, DraftJobs, AllOf, DraftIds, ActiveCounts;
    var n := d.m.(jobs := d.m.jobs - set id | id in d.created);
    RefusedJobs(m, d);
    OnePerGameKept(m, n);
    ClassedSame(d.m, n);
    RefusedRequested(m, d);
    SameIds(d.m, n);
    SameCount(d.m, n);
    CountsSame(m, n);
  }

  lemma RefusedRequested(m: Manager, d: Draft)
    requires DraftJobs(m, d) && Requested(d.m)
    ensures Requested(d.m.(jobs := d.m.jobs - set id | id in d.created))
  {
    RequestedSame(d.m, d.m.(jobs := d.m.jobs - set id | id in d.created));
  }

  lemma RefusedJobs(m: Manager, d: Draft)
    requires DraftJobs(m, d)
    ensures d.m.jobs - (set id | id in d.created) == m.jobs
  {
    var n := d.m.jobs - (set id | id in d.created);
    assert n.Keys == m.jobs.Keys;
  }

  lemma AcceptedKeeps(m: Manager, d: Draft, priority: nat)
    requires Invariant(m) && DraftSound(m, d, priority) && priority < 3
    requires QueuedCount(d.m) + |d.shallow| + |d.deep| <= m.options.maxQueued
    ensures
      var queued := EnqueueAll(d.m, d.shallow + d.deep);
      Invariant(queued) && Invariant(Preempt(queued))
  {
    hide Tokens, OnePerGame, Classed, Requested, QueuedIds, QueuedCount, BodyIds, JobIds, DraftJobs, AllOf, ActiveCounts, EnqueueAll;
    var tasks := d.shallow + d.deep;
    var queued := EnqueueAll(d.m, tasks);
    AllOfBoth(d, priority);
    EnqueueAllKeeps(d.m, tasks, priority);
    JobIdsConcat(d.shallow, d.deep);
    FewBodies(m.workers);
    OnePerGameKept(d.m, queued);
    RequestedSame(d.m, queued);
    CountsSame(m, queued);
    PreemptKeeps(queued);
    hide Preempt;
    assert Invariant(queued);
    hide Invariant;
    InvariantElsewhere(queued, Preempt(queued));
  }

  lemma AllOfBoth(d: Draft, priority: nat)
    requires AllOf(d.shallow, priority) && AllOf(d.deep, priority)
    ensures AllOf(d.shallow + d.deep, priority)
  {
  }

  // ----- the other steps -----

  lemma CancelKeeps(m: Manager, id: nat)
    requires Invariant(m)
    ensures Invariant(CancelledJob(m, id))
  {
    var n := CancelledJob(m, id);
    if id in m.jobs && !IsTerminal(m.jobs[id].status) {
      assert TokensFit(StatusOf(m.jobs, id), QueuedIds(m)[id], BodyIds(m.workers)[id]);
      OnePerGameKept(m, n);
      hide JobIds, BodyIds, OnePerGame, ActiveIn;
      CancelTokens(m.jobs, QueuedIds(m), BodyIds(m.workers), id, n.jobs[id]);
      assert n.jobs == m.jobs[id := n.jobs[id]];
      hide Tokens;
      assert QueuedIds(n) == QueuedIds(m);
    }
  }

  lemma CancelTokens(jobs: map<nat, Job>, queued: multiset<nat>, bodies: multiset<nat>, id: nat, job: Job)
    requires Tokens(jobs, queued, bodies) && id in jobs
    requires job.status == jobs[id].status || (jobs[id].status.Queued? && job.status.Cancelled?)
    ensures Tokens(jobs[id := job], queued, bodies)
  {
    forall other: nat
      ensures TokensFit(StatusOf(jobs[id := job], other), queued[other], bodies[other])
    {
      assert TokensFit(StatusOf(jobs, other), queued[other], bodies[other]);
    }
  }

  lemma StopKeeps(m: Manager)
    requires Invariant(m) && Enabled(m, Stop)
    ensures Invariant(After(m, Stop))
  {
    var n := After(m, Stop);
    forall id: nat
      ensures StatusOf(n.jobs, id) == StatusOf(m.jobs, id)
    {
    }
    SameStatusTokens(m.jobs, n.jobs, QueuedIds(m), BodyIds(m.workers));
    OnePerGameKept(m, n);
    hide JobIds, BodyIds, Tokens, OnePerGame, ActiveIn;
    assert QueuedIds(n) == QueuedIds(m);
  }

  lemma SameStatusTokens(jobs: map<nat, Job>, after: map<nat, Job>, queued: multiset<nat>, bodies: multiset<nat>)
    requires Tokens(jobs, queued, bodies) && forall id: nat :: StatusOf(after, id) == StatusOf(jobs, id)
    ensures Tokens(after, queued, bodies)
  {
    hide TokensFit, StatusOf;
    forall id: nat
      ensures TokensFit(StatusOf(after, id), queued[id], bodies[id])
    {
      assert TokensFit(StatusOf(jobs, id), queued[id], bodies[id]);
    }
  }

  lemma ClassedWorker(m: Manager, n: Manager, w: nat, next: Worker)
    requires Shape(m) && Shape(n) && Classed(m) && w < |m.workers| && n.queues == m.queues && n.workers == m.workers[w := next]
    requires next.Body? ==> next.task.priority < 3
    ensures Classed(n)
  {
  }

  /** A worker that executes no body before or after a step. */
  lemma BodylessStep(m: Manager, n: Manager, w: nat, next: Worker)
    requires w < |m.workers| && n.workers == m.workers[w := next] && !m.workers[w].Body? && !next.Body?
    ensures BodyIds(n.workers) == BodyIds(m.workers)
  {
    BodiesUpdated(m.workers, w, next);
    hide BodyIds;
    assert BodyIds(n.workers) + multiset{} == BodyIds(n.workers) && BodyIds(m.workers) + multiset{} == BodyIds(m.workers);
  }

  lemma BodylessKeeps(m: Manager, n: Manager, w: nat, next: Worker)
    requires Invariant(m) && Shape(n) && w < |m.workers| && !m.workers[w].Body? && !next.Body?
    requires n.workers == m.workers[w := next] && n.queues == m.queues && n.jobs == m.jobs && n.requested == m.requested
    requires n.nextId == m.nextId && n.options == m.options && ActiveCounts(n)
    ensures Invariant(n)
  {
    BodylessStep(m, n, w, next);
    OnePerGameKept(m, n);
    ClassedWorker(m, n, w, next);
    RequestedSame(m, n);
    SameIds(m, n);
    hide Tokens, OnePerGame, Classed, Requested, QueuedIds, BodyIds, ActiveCounts;
  }

  lemma LeaveKeeps(m: Manager, w: nat)
    requires Invariant(m) && Enabled(m, Leave(w))
    ensures Invariant(After(m, Leave(w)))
  {
    hide Tokens, OnePerGame, Classed, Requested, Capacity;
    CountsUpdated(m, After(m, Leave(w)), w, Exited);
    hide Invariant, ActiveCounts;
    BodylessKeeps(m, After(m, Leave(w)), w, Exited);
  }

  lemma {:induction false} FrontIds(queue: seq<Task>)
    requires queue != []
    ensures JobIds(queue[1..]) + multiset{queue[0].job} == JobIds(queue) + multiset{}
  {
  }

  lemma PopClassed(m: Manager, priority: nat)
    requires Shape(m) && Classed(m) && priority < 3 && m.queues[priority] != []
    ensures Classed(m.(queues := m.queues[priority := m.queues[priority][1..]])) && m.queues[priority][0].priority == priority
  {
    var queue := m.queues[priority];
    assert forall i :: 0 <= i < |queue[1..]| ==> queue[1..][i] == queue[i + 1];
  }

  lemma PopIds(m: Manager, priority: nat)
    requires Shape(m) && priority < 3 && m.queues[priority] != []
    ensures
      var popped := m.(queues := m.queues[priority := m.queues[priority][1..]]);
      QueuedIds(popped) + multiset{m.queues[priority][0].job} == QueuedIds(m)
  {
    var queue := m.queues[priority];
    var popped := m.(queues := m.queues[priority := queue[1..]]);
    FrontIds(queue);
    hide JobIds;
    QueueIdsUpdated(m.queues, priority, queue[1..], multiset{queue[0].job}, multiset{});
    hide AllIds;
    IdsOfQueues(m);
    IdsOfQueues(popped);
    hide QueuedIds;
    assert AllIds(m.queues) + multiset{} == AllIds(m.queues);
  }

  /** What popping the front of the next class's queue does. */
  lemma PopKeeps(m: Manager, priority: nat)
    requires Shape(m) && Classed(m) && priority < 3 && m.queues[priority] != []
    ensures
      var popped := m.(queues := m.queues[priority := m.queues[priority][1..]]);
      && QueuedIds(popped) + multiset{m.queues[priority][0].job} == QueuedIds(m)
      && QueuedCount(popped) + 1 == QueuedCount(m) && Classed(popped) && m.queues[priority][0].priority == priority
  {
    hide Classed, QueuedIds;
    PopClassed(m, priority);
    PopIds(m, priority);
  }

  lemma DropTokens(jobs: map<nat, Job>, queued: multiset<nat>, bodies: multiset<nat>, id: nat, after: multiset<nat>)
    requires Tokens(jobs, queued, bodies) && after + multiset{id} == queued
    requires id !in jobs || jobs[id].status.Cancelled?
    ensures Tokens(jobs, after, bodies)
  {
    forall other: nat
      ensures TokensFit(StatusOf(jobs, other), after[other], bodies[other])
    {
      assert TokensFit(StatusOf(jobs, other), queued[other], bodies[other]);
      assert (after + multiset{id})[other] == queued[other];
    }
  }

  lemma RunTokens(jobs: map<nat, Job>, queued: multiset<nat>, bodies: multiset<nat>, id: nat, queuedAfter: multiset<nat>,
                  bodiesAfter: multiset<nat>)
    requires Tokens(jobs, queued, bodies) && queuedAfter + multiset{id} == queued && bodiesAfter == bodies + multiset{id}
    requires id in jobs && !jobs[id].status.Cancelled?
    ensures jobs[id].status.Queued? && Tokens(jobs[id := jobs[id].(status := Running)], queuedAfter, bodiesAfter)
  {
    assert TokensFit(StatusOf(jobs, id), queued[id], bodies[id]);
    assert (queuedAfter + multiset{id})[id] == queued[id];
    forall other: nat | other != id
      ensures queuedAfter[other] == queued[other]
    {
      assert (queuedAfter + multiset{id})[other] == queued[other];
    }
    TokensMoved(jobs, queued, bodies, id, Running, queuedAfter, bodiesAfter);
  }

  lemma TakeKeeps(m: Manager, w: nat)
    requires Invariant(m) && Enabled(m, Take(w))
    ensures Invariant(After(m, Take(w)))
  {
    var priority := NextClass(m);
    PopKeeps(m, priority);
    var task := m.queues[priority][0];
    if task.job !in m.jobs || m.jobs[task.job].status.Cancelled? {
      DropKeeps(m, w);
    } else {
      RunKeeps(m, w);
    }
    hide Invariant;
  }

  lemma DropKeeps(m: Manager, w: nat)
    requires Invariant(m) && Enabled(m, Take(w))
    requires
      var job := m.queues[NextClass(m)][0].job;
      job !in m.jobs || m.jobs[job].status.Cancelled?
    ensures Invariant(After(m, Take(w)))
  {
    hide JobIds, BodyIds, OnePerGame, Tokens, ActiveCounts, QueuedIds, Classed, Requested, QueuedCount;
    var n, priority := After(m, Take(w)), NextClass(m);
    PopKeeps(m, priority);
    DropTokens(m.jobs, QueuedIds(m), BodyIds(m.workers), m.queues[priority][0].job, QueuedIds(n));
    OnePerGameKept(m, n);
    CountsSame(m, n);
    RequestedSame(m, n);
  }

  lemma RunKeeps(m: Manager, w: nat)
    requires Invariant(m) && Enabled(m, Take(w))
    requires
      var job := m.queues[NextClass(m)][0].job;
      job in m.jobs && !m.jobs[job].status.Cancelled?
    ensures Invariant(After(m, Take(w)))
  {
    hide JobIds, BodyIds, OnePerGame, ActiveIn, Tokens, QueuedIds, Classed, QueuedCount, Requested;
    var n, priority := After(m, Take(w)), NextClass(m);
    var task := m.queues[priority][0];
    var popped := m.(queues := n.queues);
    PopKeeps(m, priority);
    SameIds(popped, n);
    BodiesUpdated(m.workers, w, Body(task));
    assert BodyIds(n.workers) + multiset{} == BodyIds(n.workers);
    RunTokens(m.jobs, QueuedIds(m), BodyIds(m.workers), task.job, QueuedIds(n), BodyIds(n.workers));
    CountsUpdated(m, n, w, Body(task));
    hide ActiveCounts;
    OnePerGameStatus(m, n, task.job, Running);
    ClassedWorker(popped, n, w, Body(task));
    RequestedSame(m, n);
    SameCount(popped, n);
    assert |BodyIds(n.workers)| == |BodyIds(m.workers)| + 1;
  }

  lemma SameCount(m: Manager, n: Manager)
    requires Shape(m) && Shape(n) && n.queues == m.queues
    ensures QueuedCount(n) == QueuedCount(m)
  {
  }

  lemma EndTokens(m: Manager, task: Task, status: Status, again: Option<Task>, queuedAfter: multiset<nat>, bodiesAfter: multiset<nat>)
    requires Shape(m) && Tokens(m.jobs, QueuedIds(m), BodyIds(m.workers)) && task.job in m.jobs
    requires bodiesAfter + multiset{task.job} == BodyIds(m.workers)
    requires queuedAfter == QueuedIds(m) + if again.Some? then multiset{task.job} else multiset{}
    requires if again.Some? then status.Queued? else IsTerminal(status)
    ensures m.jobs[task.job].status.Running?
    ensures Tokens(m.jobs[task.job := m.jobs[task.job].(status := status)], queuedAfter, bodiesAfter)
  {
    hide QueuedIds, BodyIds;
    var id := task.job;
    assert (bodiesAfter + multiset{id})[id] == BodyIds(m.workers)[id];
    assert TokensFit(StatusOf(m.jobs, id), QueuedIds(m)[id], BodyIds(m.workers)[id]);
    forall other: nat | other != id
      ensures queuedAfter[other] == QueuedIds(m)[other] && bodiesAfter[other] == BodyIds(m.workers)[other]
    {
      assert (bodiesAfter + multiset{id})[other] == BodyIds(m.workers)[other];
    }
    TokensMoved(m.jobs, QueuedIds(m), BodyIds(m.workers), id, status, queuedAfter, bodiesAfter);
  }

  lemma EndKeeps(m: Manager, w: nat, outcome: Outcome)
    requires Invariant(m) && Enabled(m, EndBody(w, outcome))
    ensures Invariant(After(m, EndBody(w, outcome)))
  {
    hide JobIds, BodyIds, OnePerGame, ActiveIn, Tokens, QueuedIds, Classed, QueuedCount, Requested, BodyEnd;
    EndFields(m, w, outcome);
    var n, task := After(m, EndBody(w, outcome)), m.workers[w].task;
    var (status, again) := BodyEnd(m, task, outcome);
    var next := Finishing(task.job, task.priority);
    EndQueues(m, w, outcome);
    EndStatus(m, task, outcome);
    BodiesUpdated(m.workers, w, next);
    assert BodyIds(n.workers) + multiset{task.job} == BodyIds(m.workers) + multiset{};
    assert BodyIds(n.workers) + multiset{task.job} == BodyIds(m.workers);
    EndCounts(m, w, outcome);
    hide ActiveCounts;
    EndTokens(m, task, status, again, QueuedIds(n), BodyIds(n.workers));
    OnePerGameStatus(m, n, task.job, status);
    RequestedSame(m, n);
    assert |BodyIds(n.workers)| + 1 == |BodyIds(m.workers)|;
  }

  lemma EndCounts(m: Manager, w: nat, outcome: Outcome)
    requires Shape(m) && ActiveCounts(m) && Enabled(m, EndBody(w, outcome))
    ensures ActiveCounts(After(m, EndBody(w, outcome)))
  {
    EndFields(m, w, outcome);
    var n, task := After(m, EndBody(w, outcome)), m.workers[w].task;
    hide After, BodyEnd;
    CountsUpdated(m, n, w, Finishing(task.job, task.priority));
  }

  lemma AgainTask(m: Manager, w: nat, outcome: Outcome)
    requires Shape(m) && Enabled(m, EndBody(w, outcome))
    ensures
      var again := BodyEnd(m, m.workers[w].task, outcome).1;
      again.Some? ==> again.value.job == m.workers[w].task.job && again.value.priority < 3
  {
  }

  lemma EndFields(m: Manager, w: nat, outcome: Outcome)
    requires Shape(m) && Enabled(m, EndBody(w, outcome))
    ensures
      var n, task := After(m, EndBody(w, outcome)), m.workers[w].task;
      && Shape(n) && n.jobs == m.jobs[task.job := m.jobs[task.job].(status := BodyEnd(m, task, outcome).0)]
      && n.workers == m.workers[w := Finishing(task.job, task.priority)] && n.options == m.options
      && n.activeBy == m.activeBy && n.requested == m.requested && n.nextId == m.nextId
      && (forall c :: 0 <= c < 3 ==> CountIn(m.workers[w], c) == CountIn(Finishing(task.job, task.priority), c))
  {
    AgainTask(m, w, outcome);
    hide BodyEnd;
  }

  lemma EndStatus(m: Manager, task: Task, outcome: Outcome)
    requires task.job in m.jobs && task.job in m.requested
    ensures
      var (status, again) := BodyEnd(m, task, outcome);
      if again.Some? then status.Queued? else IsTerminal(status)
  {
  }

  /** The queues after a body ends: at most its own job's task more, in its own class. */
  lemma EndQueues(m: Manager, w: nat, outcome: Outcome)
    requires Shape(m) && Classed(m) && Enabled(m, EndBody(w, outcome))
    ensures
      var n, task := After(m, EndBody(w, outcome)), m.workers[w].task;
      var again := BodyEnd(m, task, outcome).1;
      && Shape(n) && QueuedIds(n) == QueuedIds(m) + (if again.Some? then multiset{task.job} else multiset{})
      && QueuedCount(n) == QueuedCount(m) + (if again.Some? then 1 else 0) && Classed(n)
  {
    hide QueuedIds, QueuedCount, Classed, BodyEnd;
    AgainTask(m, w, outcome);
    var task := m.workers[w].task;
    var (status, again) := BodyEnd(m, task, outcome);
    var next := Finishing(task.job, task.priority);
    var ended := WithStatus(m, task.job, status).(workers := m.workers[w := next], nextSource := m.nextSource + 1);
    ClassedWorker(m, ended, w, next);
    SameIds(m, ended);
    SameCount(m, ended);
    if again.Some? {
      EnqueueKeeps(ended, again.value);
    } else {
      assert QueuedIds(m) + multiset{} == QueuedIds(m);
    }
  }

  lemma FinishKeeps(m: Manager, w: nat)
    requires Invariant(m) && Enabled(m, Finish(w))
    ensures Invariant(After(m, Finish(w)))
  {
    hide Tokens, OnePerGame, Classed, Requested, Capacity, ActiveIn;
    CountsUpdated(m, After(m, Finish(w)), w, Idle);
    hide Invariant, ActiveCounts;
    BodylessKeeps(m, After(m, Finish(w)), w, Idle);
  }

  lemma StepKeepsInvariant(m: Manager, step: Step)
    requires Invariant(m) && Enabled(m, step)
    ensures Invariant(After(m, step))
  {
    match step
    case Start(inputs, priority) => hide Invariant; StartKeeps(m, inputs, priority);
    case Cancel(id) => hide Invariant; CancelKeeps(m, id);
    case SetPaused(value) => hide Invariant; InvariantElsewhere(m, m.(paused := value));
    case Stop => hide Invariant; StopKeeps(m);
    case Leave(w) => hide Invariant; LeaveKeeps(m, w);
    case Take(w) => hide Invariant; TakeKeeps(m, w);
    case EndBody(w, outcome) => hide Invariant; EndKeeps(m, w, outcome);
    case Finish(w) => hide Invariant; FinishKeeps(m, w);
  }

  // ----- statuses over a step -----

  /** A job that is complete, failed or cancelled stays as it is. */
  lemma TerminalKept(m: Manager, step: Step, id: nat)
    requires Invariant(m) && Enabled(m, step) && id in m.jobs && IsTerminal(m.jobs[id].status)
    ensures
      var n := After(m, step);
      id in n.jobs && n.jobs[id].status == m.jobs[id].status
  {
    hide OnePerGame, Classed, Requested, Capacity, ActiveCounts, QueuedIds, JobIds, BodyIds;
    match step
    case Start(inputs, priority) => StartTerminal(m, inputs, priority, id);
    case Take(w) => TakeTerminal(m, w, id);
    case EndBody(w, outcome) => EndTerminal(m, w, outcome, id);
    case _ =>
  }

  lemma StartTerminal(m: Manager, inputs: seq<Input>, priority: nat, id: nat)
    requires Invariant(m) && priority < 3 && id in m.jobs
    ensures
      var n := After(m, Start(inputs, priority));
      id in n.jobs && n.jobs[id] == m.jobs[id]
  {
    hide Begun, DraftSound, Invariant;
    InvariantShape(m);
    DraftAllKeeps(m, inputs, priority);
    var d := Begun(m, inputs, priority);
    assert Shape(d.m) && DraftJobs(m, d) && Classed(d.m) && AllOf(d.shallow, priority) && AllOf(d.deep, priority) by {
      DraftParts(m, d, priority);
    }
    hide Classed, AllOf;
    if Fits(m, inputs, priority) {
      AllOfBoth(d, priority);
      EnqueueAllKeeps(d.m, d.shallow + d.deep, priority);
      hide EnqueueAll;
    }
  }

  lemma DraftParts(m: Manager, d: Draft, priority: nat)
    requires Shape(m) && DraftSound(m, d, priority)
    ensures Shape(d.m) && DraftJobs(m, d) && Classed(d.m) && AllOf(d.shallow, priority) && AllOf(d.deep, priority)
  {
  }

  lemma QueuedCounted(m: Manager, priority: nat)
    requires Shape(m) && priority < 3 && m.queues[priority] != []
    ensures QueuedIds(m)[m.queues[priority][0].job] > 0
  {
    var queue := m.queues[priority];
    FrontIds(queue);
    hide JobIds;
    assert (JobIds(queue[1..]) + multiset{queue[0].job})[queue[0].job] == (JobIds(queue) + multiset{})[queue[0].job];
  }

  /** A queued task's job is queued or cancelled. */
  lemma FrontWaits(m: Manager, priority: nat)
    requires Invariant(m) && priority < 3 && m.queues[priority] != []
    ensures StatusOf(m.jobs, m.queues[priority][0].job) in {Some(Queued), Some(Cancelled)}
  {
    hide OnePerGame, Classed, Requested, Capacity, ActiveCounts, JobIds, BodyIds;
    QueuedCounted(m, priority);
    hide QueuedIds;
    var id := m.queues[priority][0].job;
    assert TokensFit(StatusOf(m.jobs, id), QueuedIds(m)[id], BodyIds(m.workers)[id]);
  }

  lemma TakeTerminal(m: Manager, w: nat, id: nat)
    requires Invariant(m) && Enabled(m, Take(w)) && id in m.jobs && IsTerminal(m.jobs[id].status)
    ensures
      var n := After(m, Take(w));
      id in n.jobs && n.jobs[id].status == m.jobs[id].status
  {
    FrontWaits(m, NextClass(m));
    hide Tokens, OnePerGame, Classed, Requested, Capacity, ActiveCounts, JobIds, BodyIds;
  }

  lemma {:induction false} BodyCounted(workers: seq<Worker>, w: nat)
    requires w < |workers| && workers[w].Body?
    ensures BodyIds(workers)[workers[w].task.job] > 0
  {
    if w > 0 {
      BodyCounted(workers[1..], w - 1);
    }
  }

  /** A body executes only for a running job. */
  lemma BodyRuns(m: Manager, w: nat)
    requires Invariant(m) && w < |m.workers| && m.workers[w].Body?
    ensures StatusOf(m.jobs, m.workers[w].task.job) == Some(Running)
  {
    hide OnePerGame, Classed, Requested, Capacity, ActiveCounts, JobIds;
    BodyCounted(m.workers, w);
    hide BodyIds, QueuedIds;
    var id := m.workers[w].task.job;
    assert TokensFit(StatusOf(m.jobs, id), QueuedIds(m)[id], BodyIds(m.workers)[id]);
  }

  lemma EndTerminal(m: Manager, w: nat, outcome: Outcome, id: nat)
    requires Invariant(m) && Enabled(m, EndBody(w, outcome)) && id in m.jobs && IsTerminal(m.jobs[id].status)
    ensures
      var n := After(m, EndBody(w, outcome));
      id in n.jobs && n.jobs[id].status == m.jobs[id].status
  {
    BodyRuns(m, w);
    hide Tokens, OnePerGame, Classed, Requested, Capacity, ActiveCounts, BodyEnd, JobIds;
    EndFields(m, w, outcome);
  }

  // ----- a failure after the task went back -----

  /** Marking a job failed keeps the invariant exactly when no task of it is queued and no body executes. */
  lemma FailingExact(m: Manager, id: nat)
    requires Invariant(m) && id in m.jobs
    ensures Invariant(WithStatus(m, id, Failed)) <==> QueuedIds(m)[id] == 0 && BodyIds(m.workers)[id] == 0
  {
    hide OnePerGame, Classed, Requested, Capacity, ActiveCounts, QueuedIds, BodyIds;
    var n := WithStatus(m, id, Failed);
    SameIds(m, n);
    if Invariant(n) {
      assert TokensFit(StatusOf(n.jobs, id), QueuedIds(m)[id], BodyIds(m.workers)[id]);
    } else if QueuedIds(m)[id] == 0 && BodyIds(m.workers)[id] == 0 {
      forall other: nat
        ensures TokensFit(StatusOf(n.jobs, other), QueuedIds(m)[other], BodyIds(m.workers)[other])
      {
        assert TokensFit(StatusOf(m.jobs, other), QueuedIds(m)[other], BodyIds(m.workers)[other]);
      }
      OnePerGameKept(m, n);
      InvariantSame(m, n);
    }
  }

  /** The recording of a job's state between its quick task and its deep one is in reach of the handler that
      marks the job failed. An error there leaves a failed job whose deep task is still queued. */
  lemma LateFailureBreaks(m: Manager, w: nat)
    requires Invariant(m) && Enabled(m, EndBody(w, ShallowDone))
    ensures
      var id, n := m.workers[w].task.job, After(m, EndBody(w, ShallowDone));
      && n.jobs[id].status == Queued && QueuedIds(n)[id] == 1
      && !Invariant(WithStatus(n, id, Failed))
  {
    var id, n := m.workers[w].task.job, After(m, EndBody(w, ShallowDone));
    StepKeepsInvariant(m, EndBody(w, ShallowDone));
    EndFields(m, w, ShallowDone);
    FailingExact(n, id);
    hide OnePerGame, Classed, Requested, Capacity, ActiveCounts, QueuedIds, BodyIds;
    assert TokensFit(StatusOf(n.jobs, id), QueuedIds(n)[id], BodyIds(n.workers)[id]);
  }

  predicate IsFault(outcome: Outcome) {
    outcome.EngineFailure? || outcome.OtherError? || outcome.Exception?
  }

  /** The handler that catches an error after the task went back: it decides as at the end of a body, by the
      task it still holds and the job as it is by then. */
  function LateHandled(m: Manager, task: Task, fault: Outcome): Manager
    requires Shape(m) && task.job in m.jobs && task.job in m.requested && m.requested[task.job] < 3 && task.priority < 3
    requires IsFault(fault)
  {
    var (status, again) := BodyEnd(m, task, fault);
    var marked := WithStatus(m, task.job, status).(nextSource := m.nextSource + 1);
    if again.None? then marked else Enqueue(marked, again.value)
  }

  /** What the handler decides for a job whose stop was not asked for. */
  predicate PutsBack(m: Manager, task: Task, fault: Outcome) {
    !fault.Exception? &&
    ((IsPreempted(m, task) && task.priority == HISTORICAL) || (fault.EngineFailure? && task.attempts < m.options.retryLimit))
  }

  lemma LateStatus(m: Manager, task: Task, fault: Outcome)
    requires Invariant(m) && task.job in m.jobs && task.priority < 3 && IsFault(fault)
    ensures task.job in m.requested && m.requested[task.job] < 3
    ensures
      var n, id := LateHandled(m, task, fault), task.job;
      var stopped := !fault.Exception? && m.jobs[id].stopRequested;
      && n.jobs == m.jobs[id := m.jobs[id].(status := n.jobs[id].status)]
      && n.jobs[id].status == (if stopped then Cancelled else if PutsBack(m, task, fault) then Queued else Failed)
      && QueuedIds(n)[id] == QueuedIds(m)[id] + (if !stopped && PutsBack(m, task, fault) then 1 else 0)
      && n.workers == m.workers
  {
    hide Tokens, OnePerGame, Classed, Capacity, ActiveCounts, JobIds;
    var (status, again) := BodyEnd(m, task, fault);
    var marked := WithStatus(m, task.job, status).(nextSource := m.nextSource + 1);
    SameIds(m, marked);
    if again.Some? {
      EnqueueIds(marked, again.value);
    }
    hide QueuedIds;
  }

  /** Exactly when the job still fits its tasks and bodies after the handler: for a job cancelled, unless a body
      executes; for one failed or put back, if none of its tasks is queued and no body executes. */
  lemma LateExact(m: Manager, task: Task, fault: Outcome)
    requires Invariant(m) && task.job in m.jobs && task.job in m.requested && m.requested[task.job] < 3 && task.priority < 3
    requires IsFault(fault)
    ensures
      var n, id := LateHandled(m, task, fault), task.job;
      TokensFit(StatusOf(n.jobs, id), QueuedIds(n)[id], BodyIds(n.workers)[id]) <==>
        BodyIds(m.workers)[id] == 0 && (QueuedIds(m)[id] == 0 || n.jobs[id].status == Cancelled)
  {
    LateStatus(m, task, fault);
    hide OnePerGame, Classed, Requested, Capacity, ActiveCounts, QueuedIds, BodyIds, LateHandled;
    assert TokensFit(StatusOf(m.jobs, task.job), QueuedIds(m)[task.job], BodyIds(m.workers)[task.job]);
  }

  /** A historical quick task asked to stop by then, its deep task queued: the handler queues a second task. */
  lemma LateQueuesTwice(m: Manager, task: Task, fault: Outcome)
    requires Invariant(m) && task.job in m.jobs && task.job in m.requested && m.requested[task.job] < 3 && task.priority < 3
    requires IsFault(fault) && m.jobs[task.job].status == Queued && !m.jobs[task.job].stopRequested
    requires PutsBack(m, task, fault)
    ensures
      var n := LateHandled(m, task, fault);
      n.jobs[task.job].status == Queued && QueuedIds(n)[task.job] == 2 && !Invariant(n)
  {
    LateStatus(m, task, fault);
    hide OnePerGame, Classed, Requested, Capacity, ActiveCounts, QueuedIds, BodyIds, LateHandled, PutsBack;
    assert TokensFit(StatusOf(m.jobs, task.job), QueuedIds(m)[task.job], BodyIds(m.workers)[task.job]);
    var n := LateHandled(m, task, fault);
    assert !TokensFit(StatusOf(n.jobs, task.job), QueuedIds(n)[task.job], BodyIds(n.workers)[task.job]);
  }

  /** A job whose deep task another worker finished by then is complete, and the handler never leaves it so: it
      is cancelled if its stop was asked for, queued again if the task is put back, and failed otherwise. */
  lemma LateLeavesComplete(m: Manager, task: Task, fault: Outcome)
    requires Invariant(m) && task.job in m.jobs && task.job in m.requested && m.requested[task.job] < 3 && task.priority < 3
    requires IsFault(fault) && m.jobs[task.job].status == Complete
    ensures
      var n, id := LateHandled(m, task, fault), task.job;
      && n.jobs[id].status != Complete
      && (n.jobs[id].status == Failed <==> fault.Exception? || (!m.jobs[id].stopRequested && !PutsBack(m, task, fault)))
      && TokensFit(StatusOf(n.jobs, id), QueuedIds(n)[id], BodyIds(n.workers)[id])
  {
    LateStatus(m, task, fault);
    LateExact(m, task, fault);
    hide OnePerGame, Classed, Requested, Capacity, ActiveCounts, QueuedIds, BodyIds, LateHandled;
    assert TokensFit(StatusOf(m.jobs, task.job), QueuedIds(m)[task.job], BodyIds(m.workers)[task.job]);
  }

  lemma TakenBody(m: Manager, v: nat, task: Task)
    requires Shape(m) && Enabled(m, Take(v)) && m.queues[NextClass(m)][0] == task
    requires task.job in m.jobs && !m.jobs[task.job].status.Cancelled?
    ensures
      var n := After(m, Take(v));
      && Shape(n) && n.workers == m.workers[v := Body(task)] && n.requested == m.requested
      && n.jobs == m.jobs[task.job := m.jobs[task.job].(status := Running)]
  {
  }

  lemma RequestedFacts(m: Manager, id: nat)
    requires Invariant(m) && id in m.jobs
    ensures id in m.requested && m.requested[id] < 3
  {
    hide Tokens, OnePerGame, Classed, Capacity, ActiveCounts, QueuedIds, BodyIds;
  }

  lemma DeepEnds(m: Manager, v: nat)
    requires Invariant(m) && v < |m.workers| && m.workers[v].Body? && m.workers[v].task.deep
    requires m.workers[v].task.job in m.jobs && m.workers[v].task.priority < 3
    ensures Enabled(m, EndBody(v, DeepDone)) && Invariant(After(m, EndBody(v, DeepDone)))
    ensures After(m, EndBody(v, DeepDone)).jobs ==
            m.jobs[m.workers[v].task.job := m.jobs[m.workers[v].task.job].(status := Complete)]
  {
    RequestedFacts(m, m.workers[v].task.job);
    assert Enabled(m, EndBody(v, DeepDone));
    StepKeepsInvariant(m, EndBody(v, DeepDone));
    EndFields(m, v, DeepDone);
    hide Invariant, Ended, After;
  }

  lemma DeepRuns(m: Manager, v: nat, task: Task)
    requires Invariant(m) && Enabled(m, Take(v)) && m.queues[NextClass(m)][0] == task && task.deep && task.priority < 3
    requires task.job in m.jobs && !m.jobs[task.job].status.Cancelled?
    ensures
      var taken := After(m, Take(v));
      && Shape(taken) && Enabled(taken, EndBody(v, DeepDone)) && taken.workers == m.workers[v := Body(task)]
      && After(taken, EndBody(v, DeepDone)).jobs[task.job].status == Complete && Invariant(After(taken, EndBody(v, DeepDone)))
  {
    hide Invariant, After, NextClass;
    InvariantShape(m);
    TakenBody(m, v, task);
    StepKeepsInvariant(m, Take(v));
    DeepEnds(After(m, Take(v)), v);
  }

  /** And another worker can: it takes the deep task, if that is the next one, and finishes it, all before the
      worker of the quick task has recorded the state. */
  lemma DeepTaskOvertakes(m: Manager, w: nat, v: nat)
    requires Invariant(m) && Enabled(m, EndBody(w, ShallowDone))
    requires
      var n, task := After(m, EndBody(w, ShallowDone)), m.workers[w].task;
      Enabled(n, Take(v)) && n.queues[NextClass(n)][0] == Task(task.job, true, task.priority, 0, m.nextSource)
    ensures
      var n, id := After(m, EndBody(w, ShallowDone)), m.workers[w].task.job;
      var taken := After(n, Take(v));
      && Shape(taken) && Enabled(taken, EndBody(v, DeepDone)) && After(taken, EndBody(v, DeepDone)).jobs[id].status == Complete
      && Invariant(After(taken, EndBody(v, DeepDone))) && taken.workers[w] == n.workers[w]
  {
    var n, task := After(m, EndBody(w, ShallowDone)), m.workers[w].task;
    StepKeepsInvariant(m, EndBody(w, ShallowDone));
    EndFields(m, w, ShallowDone);
    hide Invariant, After, NextClass, Ended;
    DeepRuns(n, v, Task(task.job, true, task.priority, 0, m.nextSource));
  }

  // ----- runs -----

  lemma {:induction false} IdleNothing(workers: seq<Worker>)
    requires forall w :: 0 <= w < |workers| ==> workers[w].Idle?
    ensures BodyIds(workers) == multiset{} && forall c :: ActiveIn(workers, c) == 0
  {
    if workers != [] {
      IdleNothing(workers[1..]);
    }
  }

  lemma BeginInvariant(options: Options)
    requires options.workers > 0
    ensures Invariant(Begin(options))
  {
    IdleNothing(Begin(options).workers);
    hide BodyIds, ActiveIn;
  }

  lemma BeginOptions(options: Options)
    ensures Begin(options).options == options
  {
  }

  ghost predicate IsRun(m: Manager, steps: seq<Step>)
    decreases |steps|
  {
    Shape(m) && (steps == [] || (Enabled(m, steps[0]) && IsRun(After(m, steps[0]), steps[1..])))
  }

  ghost function Reached(m: Manager, steps: seq<Step>): Manager
    requires IsRun(m, steps)
    decreases |steps|
  {
    if steps == [] then m else Reached(After(m, steps[0]), steps[1..])
  }

  lemma OptionsKept(m: Manager, step: Step)
    requires Invariant(m) && Enabled(m, step)
    ensures After(m, step).options == m.options
  {
    match step
    case Start(inputs, priority) => hide Invariant; StartOptions(m, inputs, priority);
    case _ => hide Invariant, BodyEnd;
  }

  lemma StartOptions(m: Manager, inputs: seq<Input>, priority: nat)
    requires Invariant(m) && priority < 3
    ensures After(m, Start(inputs, priority)).options == m.options
  {
    hide Begun, DraftSound, Invariant;
    InvariantShape(m);
    DraftAllKeeps(m, inputs, priority);
    var d := Begun(m, inputs, priority);
    DraftOptions(m, d, priority);
    DraftParts(m, d, priority);
    hide Classed, AllOf, DraftJobs;
    AllOfBoth(d, priority);
    EnqueueAllKeeps(d.m, d.shallow + d.deep, priority);
    hide EnqueueAll;
  }

  /** The invariant over every interleaving. */
  lemma {:induction false} RunKeepsInvariant(m: Manager, steps: seq<Step>)
    requires Invariant(m) && IsRun(m, steps)
    ensures Invariant(Reached(m, steps)) && Reached(m, steps).options == m.options
    decreases |steps|
  {
    hide Invariant, After, Enabled;
    if steps != [] {
      StepKeepsInvariant(m, steps[0]);
      OptionsKept(m, steps[0]);
      RunKeepsInvariant(After(m, steps[0]), steps[1..]);
    }
  }

  /** Terminal statuses are never left, however long the run. */
  lemma {:induction false} RunKeepsTerminal(m: Manager, steps: seq<Step>, id: nat)
    requires Invariant(m) && IsRun(m, steps) && id in m.jobs && IsTerminal(m.jobs[id].status)
    ensures id in Reached(m, steps).jobs && Reached(m, steps).jobs[id].status == m.jobs[id].status
    decreases |steps|
  {
    hide Invariant, After, Enabled;
    if steps != [] {
      StepKeepsInvariant(m, steps[0]);
      TerminalKept(m, steps[0], id);
      RunKeepsTerminal(After(m, steps[0]), steps[1..], id);
    }
  }

  /** Over every interleaving: a queued job has exactly one queued task and no executing body, a running
      one exactly one body and no task; complete and failed jobs have neither; no game has two active
      jobs; and queued tasks stay within the queue limit plus one for each worker. */
  lemma {:induction false} JobSafety(options: Options, steps: seq<Step>, id: nat)
    requires options.workers > 0 && IsRun(Begin(options), steps)
    ensures
      var m := Reached(Begin(options), steps);
      && Shape(m) && OnePerGame(m) && QueuedCount(m) <= options.maxQueued + options.workers
      && var queued, bodies := QueuedIds(m)[id], BodyIds(m.workers)[id];
         match StatusOf(m.jobs, id)
         case Some(Queued) => queued == 1 && bodies == 0
         case Some(Running) => queued == 0 && bodies == 1
         case Some(Cancelled) => queued <= 1 && bodies == 0
         case _ => queued == 0 && bodies == 0
  {
    hide Begin, IsRun, Reached, OnePerGame, Classed, Requested, ActiveCounts, QueuedIds, BodyIds;
    BeginInvariant(options);
    BeginOptions(options);
    RunKeepsInvariant(Begin(options), steps);
    var m := Reached(Begin(options), steps);
    assert TokensFit(StatusOf(m.jobs, id), QueuedIds(m)[id], BodyIds(m.workers)[id]);
  }
}
