/** The engine pool's mutex regions as methods on its fields, each equal to a step of the machine. */
module EnginePools {
  import opened Pool
  import opened PoolProofs

  class EnginePool {
    const options: Options
    var queues: seq<seq<Work>>
    var workers: seq<Worker>
    var stopping: bool
    var cancelled: set<nat>
    var abandoned: seq<Work>
    var active: nat
    var activeBy: seq<nat>
    var submitted: nat
    var completed: nat
    var failed: nat
    var retried: nat
    var rejected: nat
    ghost var succeeded: multiset<nat>
    ghost var errored: multiset<nat>
    ghost var shutDown: multiset<nat>

    ghost function State(): Pool
      reads this
    {
      Pool(options, queues, workers, stopping, cancelled, abandoned, active, activeBy, submitted, completed, failed, retried,
           rejected, succeeded, errored, shutDown)
    }

    ghost predicate Valid()
      reads this
    {
      Shape(State()) && Invariant(State())
    }

    /** Every worker starts in its loop. */
    constructor (limits: Options)
      requires limits.workers > 0 && limits.maxPending > 0
      ensures Valid() && State() == Start(limits)
    {
      options := limits;
      queues, workers, abandoned := [[], [], []], seq(limits.workers, _ => Idle), [];
      stopping, cancelled, active, activeBy := false, {}, 0, [0, 0, 0];
      submitted, completed, failed, retried, rejected := 0, 0, 0, 0, 0;
      succeeded, errored, shutDown := multiset{}, multiset{}, multiset{};
      new;
      StartInvariant(limits);
    }

    /** Active work and every queue. */
    method Pending() returns (count: nat)
      requires |queues| == 3
      ensures count == active + Queued(State())
    {
      count := active;
      for i := 0 to 3
        invariant count == active + (if i > 0 then |queues[0]| else 0) + (if i > 1 then |queues[1]| else 0) +
                           (if i > 2 then |queues[2]| else 0)
      {
        count := count + |queues[i]|;
      }
    }

    /** A caller's request: refused while shutting down or when too much is pending, else queued. */
    method Analyze(priority: nat) returns (accepted: bool)
      requires Valid() && priority < 3
      modifies this
      ensures Valid() && State() == Next(old(State()), Submit(priority)) && accepted == Accepts(old(State()))
    {
      hide Invariant;
      SubmitKeeps(State(), priority);
      if stopping {
        return false;
      }
      var pending := Pending();
      if pending >= options.maxPending {
        rejected := rejected + 1;
        return false;
      }
      queues := queues[priority := queues[priority] + [Work(submitted, priority, 0, 0)]];
      submitted := submitted + 1;
      return true;
    }

    method RequestStop(request: nat)
      requires Valid()
      modifies this`cancelled
      ensures Valid() && State() == Next(old(State()), Cancel(request))
    {
      hide Invariant;
      CancelKeeps(State(), request);
      cancelled := cancelled + {request};
    }

    /** A worker's next work: the scan over the classes, or nothing once the pool stops. The caller has
        waited until there is work it may take, or the pool stops. */
    method TakeWork(w: nat) returns (took: bool)
      requires Valid() && Enabled(State(), Take(w))
      modifies this
      ensures Valid() && State() == Next(old(State()), Take(w)) && took == !old(stopping)
    {
      hide Invariant;
      ghost var before := State();
      TakeKeeps(before, w);
      if stopping {
        workers := workers[w := Exited];
        return false;
      }
      for priority := 0 to 3
        invariant State() == before && priority <= NextClass(before)
      {
        if queues[priority] != [] && !(priority == 2 && activeBy[2] >= HistoricalLimit(options)) {
          StartWork(w, priority);
          return true;
        }
      }
      assert false;
    }

    /** The front of a queue moves to the worker. */
    method StartWork(w: nat, priority: nat)
      requires |queues| == 3 && |activeBy| == 3 && w < |workers| && priority < 3 && queues[priority] != []
      modifies `queues, `active, `activeBy, `workers
      ensures queues == old(queues)[priority := old(queues)[priority][1..]] && active == old(active) + 1
      ensures activeBy == old(activeBy)[priority := old(activeBy)[priority] + 1]
      ensures
        var work := old(queues)[priority][0];
        workers == old(workers)[w := Running(work.(runs := work.runs + 1))]
    {
      var work := queues[priority][0];
      queues := queues[priority := queues[priority][1..]];
      active := active + 1;
      activeBy := activeBy[priority := activeBy[priority] + 1];
      workers := workers[w := Running(work.(runs := work.runs + 1))];
    }

    /** The engine returned a result: it is counted under the mutex, then the promise is fulfilled. */
    method CountResult(w: nat)
      requires Valid() && Enabled(State(), CountSuccess(w))
      modifies this
      ensures Valid() && State() == Next(old(State()), CountSuccess(w))
    {
      hide Invariant;
      CountSuccessKeeps(State(), w);
      completed := completed + 1;
      workers := workers[w := Counted(workers[w].work)];
    }

    method SetValue(w: nat)
      requires Valid() && Enabled(State(), Fulfil(w))
      modifies this
      ensures Valid() && State() == Next(old(State()), Fulfil(w))
    {
      hide Invariant;
      FulfilKeeps(State(), w);
      succeeded := succeeded + multiset{workers[w].work.id};
      workers := workers[w := Finishing(workers[w].work)];
    }

    method FinishActive(w: nat)
      requires Valid() && w < |workers| && workers[w].Finishing?
      modifies this
      ensures Valid() && old(Enabled(State(), LeaveActive(w))) && State() == Next(old(State()), LeaveActive(w))
    {
      hide Invariant;
      assert IsActive(workers[w]) == 1;
      LeavingAllowed(State(), w);
      LeaveActiveKeeps(State(), w);
      LeaveCounts(workers[w].work.priority);
      workers := workers[w := Idle];
    }

    method LeaveCounts(priority: nat)
      requires priority < 3 && |activeBy| == 3 && active > 0 && activeBy[priority] > 0
      modifies `active, `activeBy
      ensures active == old(active) - 1 && activeBy == old(activeBy)[priority := old(activeBy)[priority] - 1]
    {
      active := active - 1;
      activeBy := activeBy[priority := activeBy[priority] - 1];
    }

    /** The engine failed: the work goes back to the front of its queue while it may be retried. */
    method HandleFailure(w: nat) returns (retry: bool)
      requires Valid() && w < |workers| && workers[w].Running?
      modifies this
      ensures Valid() && State() == Next(old(State()), Fail(w)) && retry == old(Retries(State(), workers[w].work))
    {
      hide Invariant, IsActive, LeavesActive;
      ghost var before := State();
      FailAllowed(before, w);
      FailKeeps(before, w);
      NextFields(before, w);
      hide Next, After, FailedRun;
      var work := workers[w].work;
      retry := !stopping && work.id !in cancelled && work.attempts < options.retryLimit;
      LeaveCounts(work.priority);
      PutBack(w, work, retry);
    }

    method PutBack(w: nat, work: Work, retry: bool)
      requires |queues| == 3 && work.priority < 3 && w < |workers|
      modifies `queues, `retried, `failed, `workers
      ensures
        queues == if retry then old(queues)[work.priority := [work.(attempts := work.attempts + 1)] + old(queues)[work.priority]]
                  else old(queues)
      ensures retried == old(retried) + (if retry then 1 else 0) && failed == old(failed) + (if retry then 0 else 1)
      ensures workers == old(workers)[w := if retry then Idle else Failing(work)]
    {
      if retry {
        retried := retried + 1;
        queues := queues[work.priority := [work.(attempts := work.attempts + 1)] + queues[work.priority]];
        workers := workers[w := Idle];
      } else {
        failed := failed + 1;
        workers := workers[w := Failing(work)];
      }
    }

    lemma FailAllowed(p: Pool, w: nat)
      requires Shape(p) && Invariant(p) && w < |p.workers| && p.workers[w].Running?
      ensures
        var priority := p.workers[w].work.priority;
        Enabled(p, Fail(w)) && priority < 3 && p.active > 0 && p.activeBy[priority] > 0
    {
      LeavingAllowed(p, w);
    }

    lemma NextFields(p: Pool, w: nat)
      requires Shape(p) && Enabled(p, Fail(w))
      ensures
        var work := p.workers[w].work;
        var retry := Retries(p, work);
        && Next(p, Fail(w)) == After(p, Fail(w))
        && Next(p, Fail(w)) == p.(
             active := p.active - 1, activeBy := p.activeBy[work.priority := p.activeBy[work.priority] - 1],
             queues := if retry then p.queues[work.priority := [work.(attempts := work.attempts + 1)] + p.queues[work.priority]]
                       else p.queues,
             retried := p.retried + (if retry then 1 else 0), failed := p.failed + (if retry then 0 else 1),
             workers := p.workers[w := if retry then Idle else Failing(work)])
    {
    }

    method SetException(w: nat)
      requires Valid() && Enabled(State(), FailPromise(w))
      modifies this
      ensures Valid() && State() == Next(old(State()), FailPromise(w))
    {
      hide Invariant;
      FailPromiseKeeps(State(), w);
      errored := errored + multiset{workers[w].work.id};
      workers := workers[w := Idle];
    }

    /** Shutting down: under the mutex the queues are emptied; then each abandoned request is failed. */
    method Shutdown()
      requires Valid() && !stopping
      modifies this
      ensures Valid() && State() == Next(old(State()), Stop)
    {
      hide Invariant;
      StopKeeps(State());
      stopping := true;
      abandoned := queues[0] + queues[1] + queues[2];
      queues := [[], [], []];
    }

    method AbandonNext()
      requires Valid() && abandoned != []
      modifies this
      ensures Valid() && State() == Next(old(State()), Abandon)
    {
      hide Invariant;
      AbandonKeeps(State());
      shutDown := shutDown + multiset{abandoned[0].id};
      abandoned := abandoned[1..];
    }
  }
}
