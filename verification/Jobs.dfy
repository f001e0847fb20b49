/** The job manager as a state machine: each region under its mutex is one step, and callers and
    workers interleave freely. Repository and analyzer calls between regions only decide which step a
    worker takes next. */
module Jobs {
  import opened Positions

  datatype Options = Options(workers: nat, maxQueued: nat, retryLimit: nat)

  datatype Status = Queued | Running | Complete | Failed | Cancelled

  datatype Job = Job(game: string, status: Status, stopRequested: bool)

  /** A unit of work; `source` names the cancellation source its copies share. */
  datatype Task = Task(job: nat, deep: bool, priority: nat, attempts: nat, source: nat)

  /** A worker waits, executes a task's body, has ended the body but not left the counts, or is gone. */
  datatype Worker = Idle | Body(task: Task) | Finishing(job: nat, priority: nat) | Exited

  datatype Active = Active(priority: nat, source: nat)

  datatype Manager = Manager(
    options: Options, jobs: map<nat, Job>, queues: seq<seq<Task>>, workers: seq<Worker>, requested: map<nat, nat>,
    activeTasks: map<nat, Active>, activeBy: seq<nat>, paused: bool, stopping: bool, nextId: nat, nextSource: nat,
    stopped: set<nat>)

  /** What start reads of a game, in the order it processes them. */
  datatype Input = Input(game: string, hasShallow: bool, complete: bool)

  const HISTORICAL := 2

  function Begin(options: Options): Manager {
    Manager(options, map[], [[], [], []], seq(options.workers, _ => Idle), map[], map[], [0, 0, 0], false, false, 1, 0, {})
  }

  predicate Shape(m: Manager) {
    |m.queues| == 3 && |m.activeBy| == 3
  }

  predicate IsActiveStatus(status: Status) {
    status.Queued? || status.Running? || status.Complete?
  }

  predicate IsTerminal(status: Status) {
    status.Complete? || status.Failed? || status.Cancelled?
  }

  function HistoricalLimit(options: Options): int {
    if options.workers == 1 then 1 else options.workers - 1
  }

  function QueuedCount(m: Manager): nat
    requires Shape(m)
  {
    |m.queues[0]| + |m.queues[1]| + |m.queues[2]|
  }

  function NextClass(m: Manager): (priority: nat)
    requires Shape(m)
    ensures priority <= 3 && (priority < 3 ==> m.queues[priority] != [])
  {
    if m.queues[0] != [] then 0
    else if m.queues[1] != [] then 1
    else if m.queues[2] != [] && m.activeBy[2] < HistoricalLimit(m.options) then 2
    else 3
  }

  // ----- promotion -----

  predicate Promotable(task: Task, id: nat, priority: nat) {
    task.job == id && task.priority > priority
  }

  function Kept(queue: seq<Task>, id: nat, priority: nat): seq<Task> {
    if queue == [] then []
    else (if Promotable(queue[0], id, priority) then [] else [queue[0]]) + Kept(queue[1..], id, priority)
  }

  function Moved(queue: seq<Task>, id: nat, priority: nat): seq<Task> {
    if queue == [] then []
    else (if Promotable(queue[0], id, priority) then [queue[0].(priority := priority)] else []) + Moved(queue[1..], id, priority)
  }

  /** The scan over one queue: promoted tasks leave it for the end of the queue of their new class. */
  function PromoteQueue(queues: seq<seq<Task>>, from: nat, id: nat, priority: nat): (promoted: seq<seq<Task>>)
    requires |queues| == 3 && from < 3 && priority < 3
    ensures |promoted| == 3
  {
    var moved := Moved(queues[from], id, priority);
    var kept := queues[from := Kept(queues[from], id, priority)];
    kept[priority := kept[priority] + moved]
  }

  function PromoteQueues(queues: seq<seq<Task>>, id: nat, priority: nat): (promoted: seq<seq<Task>>)
    requires |queues| == 3 && priority < 3
    ensures |promoted| == 3
  {
    PromoteQueue(PromoteQueue(PromoteQueue(queues, 0, id, priority), 1, id, priority), 2, id, priority)
  }

  function Promote(m: Manager, id: nat, priority: nat): (promoted: Manager)
    requires Shape(m) && priority < 3
    ensures Shape(promoted)
  {
    if id !in m.requested || m.requested[id] <= priority then m
    else
      m.(requested := m.requested[id := priority], queues := PromoteQueues(m.queues, id, priority),
         stopped := if id in m.activeTasks && m.activeTasks[id].priority > priority then m.stopped + {m.activeTasks[id].source}
                    else m.stopped)
  }

  // ----- starting jobs -----

  predicate IsActiveJob(m: Manager, id: nat, game: string) {
    id in m.jobs && m.jobs[id].game == game && IsActiveStatus(m.jobs[id].status)
  }

  /** The first queued, running or complete job of a game below an id. */
  function FirstActive(m: Manager, game: string, below: nat): (found: Option<nat>)
    ensures found.Some? ==> found.value < below && IsActiveJob(m, found.value, game)
    ensures found.None? ==> forall id: nat :: id < below ==> !IsActiveJob(m, id, game)
  {
    if below == 0 then None
    else
      var earlier := FirstActive(m, game, below - 1);
      if earlier.Some? then earlier else if IsActiveJob(m, below - 1, game) then Some(below - 1) else None
  }

  datatype Draft = Draft(m: Manager, shallow: seq<Task>, deep: seq<Task>, created: seq<nat>)

  function Create(d: Draft, input: Input, priority: nat): Draft {
    var id := d.m.nextId;
    var job := Job(input.game, if input.complete then Complete else Queued, false);
    var m := d.m.(jobs := d.m.jobs[id := job], requested := d.m.requested[id := priority], nextId := id + 1,
                  nextSource := d.m.nextSource + 1);
    var task := Task(id, input.hasShallow, priority, 0, d.m.nextSource);
    if input.complete then Draft(m, d.shallow, d.deep, d.created + [id])
    else if input.hasShallow then Draft(m, d.shallow, d.deep + [task], d.created + [id])
    else Draft(m, d.shallow + [task], d.deep, d.created + [id])
  }

  /** One game: its active job is promoted, or a job is created, with a task unless it is complete. */
  function DraftOne(d: Draft, input: Input, priority: nat): (next: Draft)
    requires Shape(d.m) && priority < 3
    ensures Shape(next.m)
  {
    var existing := FirstActive(d.m, input.game, d.m.nextId);
    if existing.Some? then d.(m := Promote(d.m, existing.value, priority)) else Create(d, input, priority)
  }

  function DraftAll(d: Draft, inputs: seq<Input>, priority: nat): (last: Draft)
    requires Shape(d.m) && priority < 3
    ensures Shape(last.m)
  {
    if inputs == [] then d else DraftOne(DraftAll(d, inputs[..|inputs| - 1], priority), inputs[|inputs| - 1], priority)
  }

  function Enqueue(m: Manager, task: Task): Manager
    requires Shape(m) && task.priority < 3
  {
    m.(queues := m.queues[task.priority := m.queues[task.priority] + [task]])
  }

  function EnqueueAll(m: Manager, tasks: seq<Task>): (n: Manager)
    requires Shape(m)
    ensures Shape(n)
  {
    if tasks == [] then m
    else
      var n := EnqueueAll(m, tasks[..|tasks| - 1]);
      var task := tasks[|tasks| - 1];
      if task.priority < 3 then Enqueue(n, task) else n
  }

  function Sources(active: map<nat, Active>): set<nat> {
    set id | id in active && active[id].priority == HISTORICAL :: active[id].source
  }

  /** A lone worker busy with historical work is asked to stop when other work waits. */
  function Preempt(m: Manager): Manager
    requires Shape(m)
  {
    if m.options.workers != 1 || (m.queues[0] == [] && m.queues[1] == []) then m
    else m.(stopped := m.stopped + Sources(m.activeTasks))
  }

  function Begun(m: Manager, inputs: seq<Input>, priority: nat): Draft
    requires Shape(m) && priority < 3
  {
    DraftAll(Draft(m, [], [], []), inputs, priority)
  }

  predicate Fits(m: Manager, inputs: seq<Input>, priority: nat)
    requires Shape(m) && priority < 3
  {
    var d := Begun(m, inputs, priority);
    QueuedCount(d.m) + |d.shallow| + |d.deep| <= m.options.maxQueued
  }

  /** Too many tasks: the jobs just created are erased. Otherwise quick tasks are queued, then deep ones. */
  function Started(m: Manager, inputs: seq<Input>, priority: nat): Manager
    requires Shape(m) && priority < 3
  {
    var d := Begun(m, inputs, priority);
    if !Fits(m, inputs, priority) then d.m.(jobs := d.m.jobs - set id | id in d.created)
    else
      var queued := EnqueueAll(d.m, d.shallow + d.deep);
      if priority != HISTORICAL then Preempt(queued) else queued
  }

  // ----- steps -----

  datatype Outcome = Loaded | ShallowDone | DeepDone | EngineFailure | OtherError | Exception

  datatype Step =
    | Start(inputs: seq<Input>, priority: nat)
    | Cancel(id: nat)
    | SetPaused(value: bool)
    | Stop
    | Leave(leaver: nat)
    | Take(taker: nat)
    | EndBody(ender: nat, outcome: Outcome)
    | Finish(finisher: nat)

  predicate IsPreempted(m: Manager, task: Task) {
    task.source in m.stopped
  }

  predicate Enabled(m: Manager, step: Step)
    requires Shape(m)
  {
    match step
    case Start(_, priority) => priority < 3
    case Cancel(_) => true
    case SetPaused(_) => true
    case Stop => !m.stopping
    case Leave(w) => w < |m.workers| && m.workers[w].Idle? && m.stopping
    case Take(w) => w < |m.workers| && m.workers[w].Idle? && !m.stopping && !m.paused && NextClass(m) < 3
    case EndBody(w, outcome) =>
      && w < |m.workers| && m.workers[w].Body? && m.workers[w].task.job in m.jobs && m.workers[w].task.job in m.requested
      && m.workers[w].task.priority < 3 && m.requested[m.workers[w].task.job] < 3
      && (outcome.ShallowDone? ==> !m.workers[w].task.deep) && (outcome.DeepDone? ==> m.workers[w].task.deep)
    case Finish(w) =>
      w < |m.workers| && m.workers[w].Finishing? && m.workers[w].priority < 3 && m.activeBy[m.workers[w].priority] > 0
  }

  function WithStatus(m: Manager, id: nat, status: Status): Manager
    requires id in m.jobs
  {
    m.(jobs := m.jobs[id := m.jobs[id].(status := status)])
  }

  function Stopping(job: Job): Job {
    if job.status.Queued? || job.status.Running? then job.(stopRequested := true) else job
  }

  function CancelledJob(m: Manager, id: nat): Manager {
    if id !in m.jobs || IsTerminal(m.jobs[id].status) then m
    else
      var job := m.jobs[id].(stopRequested := true);
      m.(jobs := m.jobs[id := if job.status.Queued? then job.(status := Cancelled) else job],
         stopped := if id in m.activeTasks then m.stopped + {m.activeTasks[id].source} else m.stopped)
  }

  /** A worker pops the front task of the next class; a task of a job that is gone or cancelled is
      dropped, any other makes its job Running. */
  function Taken(m: Manager, w: nat): Manager
    requires Shape(m) && Enabled(m, Take(w))
  {
    var priority := NextClass(m);
    var task := m.queues[priority][0];
    var popped := m.(queues := m.queues[priority := m.queues[priority][1..]]);
    if task.job !in m.jobs || m.jobs[task.job].status.Cancelled? then popped
    else
      WithStatus(popped, task.job, Running).(
        activeBy := m.activeBy[priority := m.activeBy[priority] + 1],
        activeTasks := m.activeTasks[task.job := Active(task.priority, task.source)], workers := m.workers[w := Body(task)])
  }

  /** The end of a body: the job's status, and the task it puts back, if any. */
  function BodyEnd(m: Manager, task: Task, outcome: Outcome): (Status, Option<Task>)
    requires task.job in m.jobs && task.job in m.requested
  {
    match outcome
    case Loaded => (Complete, None)
    case DeepDone => (Complete, None)
    case ShallowDone => (Queued, Some(Task(task.job, true, task.priority, 0, m.nextSource)))
    case Exception => (Failed, None)
    case _ =>
      if m.jobs[task.job].stopRequested then (Cancelled, None)
      else if IsPreempted(m, task) && task.priority == HISTORICAL then
        (Queued, Some(task.(priority := m.requested[task.job], source := m.nextSource)))
      else if outcome.EngineFailure? && task.attempts < m.options.retryLimit then
        (Queued, Some(task.(attempts := task.attempts + 1)))
      else (Failed, None)
  }

  function Ended(m: Manager, w: nat, outcome: Outcome): Manager
    requires Shape(m) && Enabled(m, EndBody(w, outcome))
  {
    var task := m.workers[w].task;
    var (status, again) := BodyEnd(m, task, outcome);
    var ended := WithStatus(m, task.job, status).(workers := m.workers[w := Finishing(task.job, task.priority)],
                                                  nextSource := m.nextSource + 1);
    if again.None? then ended else Enqueue(ended, again.value)
  }

  function Finished(m: Manager, w: nat): Manager
    requires Shape(m) && Enabled(m, Finish(w))
  {
    var worker := m.workers[w];
    m.(activeTasks := m.activeTasks - {worker.job}, activeBy := m.activeBy[worker.priority := m.activeBy[worker.priority] - 1],
       workers := m.workers[w := Idle])
  }

  function After(m: Manager, step: Step): Manager
    requires Shape(m) && Enabled(m, step)
  {
    match step
    case Start(inputs, priority) => Started(m, inputs, priority)
    case Cancel(id) => CancelledJob(m, id)
    case SetPaused(value) => m.(paused := value)
    case Stop =>
      m.(stopping := true, jobs := map id | id in m.jobs :: Stopping(m.jobs[id]),
         stopped := m.stopped + set id | id in m.activeTasks :: m.activeTasks[id].source)
    case Leave(w) => m.(workers := m.workers[w := Exited])
    case Take(w) => Taken(m, w)
    case EndBody(w, outcome) => Ended(m, w, outcome)
    case Finish(w) => Finished(m, w)
  }

  /** The manager after a step, if it can be taken. */
  function Next(m: Manager, step: Step): Manager {
    if Shape(m) && Enabled(m, step) then After(m, step) else m
  }

  // ----- the invariant -----

  function JobIds(tasks: seq<Task>): multiset<nat> {
    if tasks == [] then multiset{} else multiset{tasks[0].job} + JobIds(tasks[1..])
  }

  function BodyId(w: Worker): multiset<nat> {
    if w.Body? then multiset{w.task.job} else multiset{}
  }

  function BodyIds(workers: seq<Worker>): multiset<nat> {
    if workers == [] then multiset{} else BodyId(workers[0]) + BodyIds(workers[1..])
  }

  function QueuedIds(m: Manager): multiset<nat>
    requires Shape(m)
  {
    JobIds(m.queues[0]) + JobIds(m.queues[1]) + JobIds(m.queues[2])
  }

  /** How many tasks are queued and how many bodies execute for a job, by its status. */
  predicate TokensFit(status: Option<Status>, queued: nat, bodies: nat) {
    match status
    case None => queued == 0 && bodies == 0
    case Some(Queued) => queued == 1 && bodies == 0
    case Some(Running) => queued == 0 && bodies == 1
    case Some(Cancelled) => queued <= 1 && bodies == 0
    case Some(_) => queued == 0 && bodies == 0
  }

  function StatusOf(jobs: map<nat, Job>, id: nat): Option<Status> {
    if id in jobs then Some(jobs[id].status) else None
  }

  ghost predicate Tokens(jobs: map<nat, Job>, queued: multiset<nat>, bodies: multiset<nat>) {
    forall id: nat :: TokensFit(StatusOf(jobs, id), queued[id], bodies[id])
  }

  /** Each game has at most one queued, running or complete job. */
  ghost predicate OnePerGame(m: Manager) {
    forall a, b, game :: IsActiveJob(m, a, game) && IsActiveJob(m, b, game) ==> a == b
  }

  /** A queue holds tasks of its own class. */
  ghost predicate Classed(m: Manager)
    requires Shape(m)
  {
    && (forall c, i :: 0 <= c < 3 && 0 <= i < |m.queues[c]| ==> m.queues[c][i].priority == c)
    && (forall w :: 0 <= w < |m.workers| && m.workers[w].Body? ==> m.workers[w].task.priority < 3)
  }

  ghost predicate Requested(m: Manager) {
    && (forall id :: id in m.jobs ==> id < m.nextId && id in m.requested)
    && (forall id :: id in m.requested ==> m.requested[id] < 3)
  }

  predicate Capacity(m: Manager)
    requires Shape(m)
  {
    QueuedCount(m) + |BodyIds(m.workers)| <= m.options.maxQueued + m.options.workers && |m.workers| == m.options.workers
  }

  function ClassOf(w: Worker): Option<nat> {
    match w
    case Body(task) => Some(task.priority)
    case Finishing(_, priority) => Some(priority)
    case _ => None
  }

  /** The workers counted as active in a class. */
  function ActiveIn(workers: seq<Worker>, priority: nat): nat {
    if workers == [] then 0
    else (if ClassOf(workers[0]) == Some(priority) then 1 else 0) + ActiveIn(workers[1..], priority)
  }

  /** The active counts are true, and historical work stays below its limit. */
  predicate ActiveCounts(m: Manager)
    requires Shape(m)
  {
    && (forall c :: 0 <= c < 3 ==> m.activeBy[c] == ActiveIn(m.workers, c))
    && m.activeBy[2] <= HistoricalLimit(m.options)
  }

  ghost predicate Invariant(m: Manager) {
    && Shape(m) && ActiveCounts(m) && m.options.workers > 0 && Tokens(m.jobs, QueuedIds(m), BodyIds(m.workers))
    && OnePerGame(m) && Classed(m) && Requested(m) && Capacity(m)
  }
}
