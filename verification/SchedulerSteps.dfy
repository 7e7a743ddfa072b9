/**
  Every elementary change the scheduler makes keeps its invariant. Each lemma about one change
  rests on lemmas about the single conjuncts that the change touches.
 */
module SchedulerSteps {
  import opened Wrappers
  import opened Messages
  import opened Nodes
  import opened Orders
  import opened Scheduler
  import opened SchedulerInvariant

  // ---------- Taking the invariant apart and putting it together ----------

  lemma Unfold(c: Core, accepting: map<string, Accepting>, jobs: set<string>, key: string, todo: set<string>, hole: Option<string>)
    requires Within(c, accepting, jobs, key, todo, hole)
    ensures WellKeyed(c.tasks)
    ensures Graph(c.tasks, c.stamp)
    ensures Degrees(c.tasks)
    ensures Stamps(c.tasks, c.stamp, c.log)
    ensures Known(c.stamp, c.log)
    ensures Safe(c.log)
    ensures Fifo(c.queue, c.log)
    ensures Requests(c.tasks, c.waiters, c.pool.channels.Keys)
    ensures ReadyOnes(c.tasks, c.log, accepting)
    ensures JobsKnown(c.stamp, jobs)
    ensures Admission(c.tasks, c.stamp, accepting, jobs)
    ensures Valid(c.pool)
    ensures Flags(c.tasks, c.stamp, c.log, key, todo)
    ensures Phase(c.tasks, c.log, accepting, hole)
  {
  }

  lemma Fold(c: Core, accepting: map<string, Accepting>, jobs: set<string>, key: string, todo: set<string>, hole: Option<string>)
    requires WellKeyed(c.tasks)
    requires Graph(c.tasks, c.stamp)
    requires Degrees(c.tasks)
    requires Stamps(c.tasks, c.stamp, c.log)
    requires Known(c.stamp, c.log)
    requires Safe(c.log)
    requires Fifo(c.queue, c.log)
    requires Requests(c.tasks, c.waiters, c.pool.channels.Keys)
    requires ReadyOnes(c.tasks, c.log, accepting)
    requires JobsKnown(c.stamp, jobs)
    requires Admission(c.tasks, c.stamp, accepting, jobs)
    requires Valid(c.pool)
    requires Flags(c.tasks, c.stamp, c.log, key, todo)
    requires Phase(c.tasks, c.log, accepting, hole)
    ensures Within(c, accepting, jobs, key, todo, hole)
  {
  }

  // ---------- A longer log ----------

  lemma CompletedInLonger(log: seq<Event>, e: Event, from: nat, d: string)
    ensures CompletedIn(log + [e], from, |log| + 1, d) <==> CompletedIn(log, from, |log|, d) || (e == Completed(d) && from < |log|)
  {
    var log' := log + [e];
    if q: int :| 0 <= from < q < |log'| && log'[q] == Completed(d) {
      assert q < |log| ==> log[q] == Completed(d);
    }
    if q: int :| 0 <= from < q < |log| && log[q] == Completed(d) {
      assert log'[q] == Completed(d);
    }
    if e == Completed(d) && from < |log| {
      assert log'[|log|] == Completed(d);
    }
  }

  lemma CompletedInPrefix(log: seq<Event>, e: Event, from: int, to: int, d: string)
    requires CompletedIn(log, from, to, d)
    ensures CompletedIn(log + [e], from, to, d)
  {
    var q :| 0 <= from < q < to <= |log| && log[q] == Completed(d);
    assert (log + [e])[q] == Completed(d);
  }

  lemma SafeBeforeLonger(log: seq<Event>, e: Event, to: int, id: string)
    requires SafeBefore(log, to, id) && to <= |log|
    ensures SafeBefore(log + [e], to, id)
  {
    var p :| 0 <= p < to && p < |log| &&
      log[p].Inserted? && log[p].id == id && forall d | d in log[p].deps :: CompletedIn(log, p, to, d);
    var log' := log + [e];
    assert log'[p] == log[p];
    forall d | d in log'[p].deps
      ensures CompletedIn(log', p, to, d)
    {
      CompletedInPrefix(log, e, p, to, d);
    }
  }

  lemma QueuedBeforeLonger(log: seq<Event>, e: Event, to: int, id: string)
    requires QueuedBefore(log, to, id) && to <= |log|
    ensures QueuedBefore(log + [e], to, id)
  {
    var j :| 0 <= j < to && j < |log| && log[j].Enqueued? && log[j].id == id;
    assert (log + [e])[j] == log[j];
  }

  lemma SafeLonger(log: seq<Event>, e: Event)
    requires Safe(log)
    requires e.Enqueued? ==> SafeBefore(log, |log|, e.id)
    requires e.Dispatched? || e.Lost? ==> QueuedBefore(log, |log|, e.id)
    ensures Safe(log + [e])
  {
    var log' := log + [e];
    forall i | 0 <= i < |log'|
      ensures log'[i].Enqueued? ==> SafeBefore(log', i, log'[i].id)
      ensures log'[i].Takes() ==> QueuedBefore(log', i, log'[i].id)
    {
      if i < |log| { assert log'[i] == log[i]; }
      if log'[i].Enqueued? { SafeBeforeLonger(log, e, i, log'[i].id); }
      if log'[i].Takes() { QueuedBeforeLonger(log, e, i, log'[i].id); }
    }
  }

  lemma StampsLonger(tasks: map<string, Handler>, stamp: map<string, nat>, log: seq<Event>, e: Event)
    requires Stamps(tasks, stamp, log)
    ensures Stamps(tasks, stamp, log + [e])
  {
  }

  lemma FifoLonger(queue: seq<string>, log: seq<Event>, e: Event, queue': seq<string>)
    requires Fifo(queue, log)
    requires match e
      case Enqueued(id, _) => queue' == queue + [id]
      case Dispatched(id, _) => queue == [id] + queue'
      case Lost(id) => queue == [id] + queue'
      case _ => queue' == queue
    ensures Fifo(queue', log + [e])
  {
  }

  /** An event other than a completion leaves the flags right. */
  lemma FlagsLonger(tasks: map<string, Handler>, stamp: map<string, nat>, log: seq<Event>, e: Event, key: string, todo: set<string>)
    requires Flags(tasks, stamp, log, key, todo) && !e.Completed?
    ensures Flags(tasks, stamp, log + [e], key, todo)
  {
    forall id, d | id in tasks && id in stamp && d in tasks[id].dependencies && !(d == key && id in todo)
      ensures FlagAt(tasks[id], log + [e], stamp[id], d)
    {
      assert FlagAt(tasks[id], log, stamp[id], d);
      CompletedInLonger(log, e, stamp[id], d);
    }
  }

  /** A completion leaves exactly the flags of its dependents due. */
  lemma FlagsAfterCompletion(tasks: map<string, Handler>, stamp: map<string, nat>, log: seq<Event>, key: string)
    requires Flags(tasks, stamp, log, "", {})
    ensures Flags(tasks, stamp, log + [Completed(key)], key, tasks.Keys)
  {
    forall id, d | id in tasks && id in stamp && d in tasks[id].dependencies && !(d == key && id in tasks.Keys)
      ensures FlagAt(tasks[id], log + [Completed(key)], stamp[id], d)
    {
      assert FlagAt(tasks[id], log, stamp[id], d);
      CompletedInLonger(log, Completed(key), stamp[id], d);
    }
  }

  lemma PhaseLonger(tasks: map<string, Handler>, log: seq<Event>, e: Event, accepting: map<string, Accepting>, hole: Option<string>)
    requires Phase(tasks, log, accepting, hole)
    requires !(e.Enqueued? && e.cause == Initial) && !e.RecruitFailed?
    ensures Phase(tasks, log + [e], accepting, hole)
  {
  }

  /** The first enqueue and the failed recruitment of a task are what places it. */
  lemma PhasePlaced(tasks: map<string, Handler>, log: seq<Event>, e: Event, accepting: map<string, Accepting>, id: string)
    requires Phase(tasks, log, accepting, Some(id))
    requires id in tasks && tasks[id].inDegrees == 0
    requires e == Enqueued(id, Initial) || e == RecruitFailed(id)
    ensures Phase(tasks, log + [e], accepting, None)
  {
  }

  lemma ReadyOnesLonger(tasks: map<string, Handler>, log: seq<Event>, e: Event, accepting: map<string, Accepting>)
    requires ReadyOnes(tasks, log, accepting)
    requires e.Enqueued? && e.id in tasks ==> tasks[e.id].Ready()
    ensures ReadyOnes(tasks, log + [e], accepting)
  {
  }

  // ---------- A ready task is safe to queue ----------

  lemma NothingOpen(h: Handler)
    requires h.inDegrees == 0 == |Open(h.dependencies)|
    ensures forall d | d in h.dependencies :: h.dependencies[d]
  {
    forall d | d in h.dependencies
      ensures h.dependencies[d]
    {
      assert d !in Open(h.dependencies);
    }
  }

  lemma ReadyIsSafe(c: Core, id: string, key: string, todo: set<string>)
    requires id in c.tasks && c.tasks[id].inDegrees == 0 && id !in todo
    requires Degrees(c.tasks) && Stamps(c.tasks, c.stamp, c.log) && Flags(c.tasks, c.stamp, c.log, key, todo)
    ensures SafeBefore(c.log, |c.log|, id)
  {
    var h, p := c.tasks[id], c.stamp[id];
    assert StampedAt(c.stamp, c.log, id);
    assert c.log[p] == Inserted(id, h.dependencies.Keys);
    NothingOpen(h);
    forall d | d in c.log[p].deps
      ensures CompletedIn(c.log, p, |c.log|, d)
    {
      assert d in h.dependencies;
      assert FlagAt(h, c.log, p, d);
    }
  }

  /** Queuing a ready task for the first time closes its hole; queuing it again changes no phase. */
  lemma EnqueueKeeps(c: Core, id: string, cause: Cause, accepting: map<string, Accepting>, jobs: set<string>, key: string, todo: set<string>)
    requires Within(c, accepting, jobs, key, todo, if cause == Initial then Some(id) else None)
    requires id in c.tasks && c.tasks[id].Ready() && id !in todo
    ensures Within(c.(queue := c.queue + [id], log := c.log + [Enqueued(id, cause)]), accepting, jobs, key, todo, None)
  {
    hide *;
    var e := Enqueued(id, cause);
    Unfold(c, accepting, jobs, key, todo, if cause == Initial then Some(id) else None);
    ReadyHasNoDegree(c.tasks[id]);
    ReadyIsSafe(c, id, key, todo);
    SafeLonger(c.log, e);
    StampsLonger(c.tasks, c.stamp, c.log, e);
    KnownLonger(c.tasks, c.stamp, c.log, e);
    FifoLonger(c.queue, c.log, e, c.queue + [id]);
    FlagsLonger(c.tasks, c.stamp, c.log, e, key, todo);
    ReadyOnesLonger(c.tasks, c.log, e, accepting);
    if cause == Initial {
      PhasePlaced(c.tasks, c.log, e, accepting, id);
    } else {
      PhaseLonger(c.tasks, c.log, e, accepting, None);
    }
    Fold(c.(queue := c.queue + [id], log := c.log + [e]), accepting, jobs, key, todo, None);
  }

  lemma ReadyHasNoDegree(h: Handler)
    requires h.Ready()
    ensures h.inDegrees == 0 && h.task.receiver.Some?
  {
  }

  lemma KnownLonger(tasks: map<string, Handler>, stamp: map<string, nat>, log: seq<Event>, e: Event)
    requires Known(stamp, log) && Stamps(tasks, stamp, log) && e.id in tasks
    ensures Known(stamp, log + [e])
  {
  }

  /** A failed recruitment closes the hole as well. */
  lemma RecruitFailedKeeps(c: Core, id: string, accepting: map<string, Accepting>, jobs: set<string>, key: string, todo: set<string>)
    requires Within(c, accepting, jobs, key, todo, Some(id))
    requires id in c.tasks && c.tasks[id].inDegrees == 0
    ensures Within(c.(log := c.log + [RecruitFailed(id)]), accepting, jobs, key, todo, None)
  {
    hide *;
    var e := RecruitFailed(id);
    Unfold(c, accepting, jobs, key, todo, Some(id));
    SafeLonger(c.log, e);
    StampsLonger(c.tasks, c.stamp, c.log, e);
    KnownLonger(c.tasks, c.stamp, c.log, e);
    FifoLonger(c.queue, c.log, e, c.queue);
    FlagsLonger(c.tasks, c.stamp, c.log, e, key, todo);
    ReadyOnesLonger(c.tasks, c.log, e, accepting);
    PhasePlaced(c.tasks, c.log, e, accepting, id);
    Fold(c.(log := c.log + [e]), accepting, jobs, key, todo, None);
  }

  lemma CompletedKeeps(c: Core, accepting: map<string, Accepting>, jobs: set<string>, key: string)
    requires Within(c, accepting, jobs, "", {}, None) && key in c.tasks
    ensures Within(c.(log := c.log + [Completed(key)]), accepting, jobs, key, c.tasks.Keys, None)
  {
    hide *;
    var e := Completed(key);
    Unfold(c, accepting, jobs, "", {}, None);
    SafeLonger(c.log, e);
    StampsLonger(c.tasks, c.stamp, c.log, e);
    KnownLonger(c.tasks, c.stamp, c.log, e);
    FifoLonger(c.queue, c.log, e, c.queue);
    FlagsAfterCompletion(c.tasks, c.stamp, c.log, key);
    ReadyOnesLonger(c.tasks, c.log, e, accepting);
    PhaseLonger(c.tasks, c.log, e, accepting, None);
    Fold(c.(log := c.log + [e]), accepting, jobs, key, c.tasks.Keys, None);
  }

  // ---------- Changes that do not touch a task's place in the graph ----------

  ghost predicate SameShape(h: Handler, h': Handler) {
    && h'.dependencies == h.dependencies
    && h'.inDegrees == h.inDegrees
    && h'.jobId == h.jobId
    && h'.nodeRequest == h.nodeRequest
    && h'.task.name == h.task.name
    && h'.task.jobId == h.task.jobId
    && h'.task.receiver == h.task.receiver
  }

  ghost predicate SameShapes(tasks: map<string, Handler>, tasks': map<string, Handler>) {
    tasks'.Keys == tasks.Keys && forall id | id in tasks :: SameShape(tasks[id], tasks'[id])
  }

  lemma SameShapesTasks(tasks: map<string, Handler>, tasks': map<string, Handler>, stamp: map<string, nat>, log: seq<Event>)
    requires SameShapes(tasks, tasks')
    requires WellKeyed(tasks) && Graph(tasks, stamp) && Degrees(tasks) && Stamps(tasks, stamp, log)
    ensures WellKeyed(tasks') && Graph(tasks', stamp) && Degrees(tasks') && Stamps(tasks', stamp, log)
  {
  }

  lemma SameShapesPlaces(tasks: map<string, Handler>, tasks': map<string, Handler>, log: seq<Event>, accepting: map<string, Accepting>,
                         waiters: map<Ticket, string>, channels: set<Ticket>, hole: Option<string>)
    requires SameShapes(tasks, tasks')
    requires Requests(tasks, waiters, channels) && ReadyOnes(tasks, log, accepting) && Phase(tasks, log, accepting, hole)
    ensures Requests(tasks', waiters, channels) && ReadyOnes(tasks', log, accepting) && Phase(tasks', log, accepting, hole)
  {
    assert forall id | id in tasks :: SameShape(tasks[id], tasks'[id]);
    forall id | id in tasks'
      ensures PhaseAt(tasks'[id], log, accepting, hole, id) && ReadyAt(tasks'[id], log, accepting, id)
    {
      assert PhaseAt(tasks[id], log, accepting, hole, id) && ReadyAt(tasks[id], log, accepting, id);
    }
  }

  lemma SameShapesFlags(tasks: map<string, Handler>, tasks': map<string, Handler>, stamp: map<string, nat>, log: seq<Event>, key: string, todo: set<string>)
    requires SameShapes(tasks, tasks') && Flags(tasks, stamp, log, key, todo)
    ensures Flags(tasks', stamp, log, key, todo)
  {
  }

  lemma SameShapesAdmission(tasks: map<string, Handler>, tasks': map<string, Handler>, stamp: map<string, nat>, accepting: map<string, Accepting>, jobs: set<string>)
    requires SameShapes(tasks, tasks') && Admission(tasks, stamp, accepting, jobs)
    ensures Admission(tasks', stamp, accepting, jobs)
  {
  }

  lemma ReshapeKeeps(c: Core, tasks': map<string, Handler>, accepting: map<string, Accepting>, jobs: set<string>, key: string, todo: set<string>, hole: Option<string>)
    requires Within(c, accepting, jobs, key, todo, hole) && SameShapes(c.tasks, tasks')
    ensures Within(c.(tasks := tasks'), accepting, jobs, key, todo, hole)
  {
    hide *;
    Unfold(c, accepting, jobs, key, todo, hole);
    SameShapesTasks(c.tasks, tasks', c.stamp, c.log);
    SameShapesPlaces(c.tasks, tasks', c.log, accepting, c.waiters, c.pool.channels.Keys, hole);
    SameShapesFlags(c.tasks, tasks', c.stamp, c.log, key, todo);
    SameShapesAdmission(c.tasks, tasks', c.stamp, accepting, jobs);
    Fold(c.(tasks := tasks'), accepting, jobs, key, todo, hole);
  }

  // ---------- Changing one task ----------

  ghost predicate SameIdentity(h: Handler, h': Handler) {
    && h'.jobId == h.jobId
    && h'.task.jobId == h.task.jobId
    && h'.task.name == h.task.name
    && h'.dependencies.Keys == h.dependencies.Keys
  }

  lemma SameIdentityTasks(tasks: map<string, Handler>, id: string, h': Handler, stamp: map<string, nat>, log: seq<Event>)
    requires id in tasks && SameIdentity(tasks[id], h')
    requires WellKeyed(tasks) && Graph(tasks, stamp) && Stamps(tasks, stamp, log)
    ensures WellKeyed(tasks[id := h']) && Graph(tasks[id := h'], stamp) && Stamps(tasks[id := h'], stamp, log)
  {
  }

  lemma SameIdentityAdmission(tasks: map<string, Handler>, id: string, h': Handler, stamp: map<string, nat>, accepting: map<string, Accepting>, jobs: set<string>)
    requires id in tasks && SameIdentity(tasks[id], h') && Admission(tasks, stamp, accepting, jobs)
    ensures Admission(tasks[id := h'], stamp, accepting, jobs)
  {
  }

  lemma SameFlags(tasks: map<string, Handler>, id: string, h': Handler, stamp: map<string, nat>, log: seq<Event>, key: string, todo: set<string>)
    requires id in tasks && h'.dependencies == tasks[id].dependencies && Flags(tasks, stamp, log, key, todo)
    ensures Flags(tasks[id := h'], stamp, log, key, todo)
  {
  }

  // ---------- Clearing a dependency ----------

  function Cleared(h: Handler, key: string): Handler {
    h.(dependencies := h.dependencies[key := true], inDegrees := h.inDegrees - 1)
  }

  /** The decrement never underflows: a false flag is one of the dependencies counted. */
  lemma OneLessOpen(dependencies: map<string, bool>, key: string)
    requires key in dependencies && !dependencies[key]
    ensures |Open(dependencies[key := true])| == |Open(dependencies)| - 1
  {
    assert Open(dependencies[key := true]) == Open(dependencies) - {key};
    assert key in Open(dependencies);
  }

  lemma ClearedDegrees(tasks: map<string, Handler>, id: string, key: string)
    requires id in tasks && key in tasks[id].dependencies && !tasks[id].dependencies[key] && Degrees(tasks)
    ensures Degrees(tasks[id := Cleared(tasks[id], key)])
    ensures tasks[id].inDegrees >= 1
  {
    OneLessOpen(tasks[id].dependencies, key);
    assert key in Open(tasks[id].dependencies);
  }

  lemma ClearedFlags(tasks: map<string, Handler>, id: string, key: string, stamp: map<string, nat>, log: seq<Event>, todo: set<string>)
    requires id in tasks && id in stamp && CompletedIn(log, stamp[id], |log|, key)
    requires Flags(tasks, stamp, log, key, todo)
    ensures key in tasks[id].dependencies ==> Flags(tasks[id := Cleared(tasks[id], key)], stamp, log, key, todo - {id})
    ensures key !in tasks[id].dependencies || tasks[id].dependencies[key] ==> Flags(tasks, stamp, log, key, todo - {id})
  {
  }

  ghost predicate NeverQueued(log: seq<Event>, id: string) {
    forall cause :: Enqueued(id, cause) !in log
  }

  lemma WaitingIsUnplaced(tasks: map<string, Handler>, log: seq<Event>, accepting: map<string, Accepting>, hole: Option<string>, id: string)
    requires id in tasks && tasks[id].inDegrees != 0
    requires Phase(tasks, log, accepting, hole) && ReadyOnes(tasks, log, accepting)
    ensures tasks[id].nodeRequest.None? && NeverQueued(log, id) && Pending(accepting, tasks[id].jobId, id) == 0
  {
  }

  lemma ClearedPlaces(tasks: map<string, Handler>, id: string, key: string, log: seq<Event>, accepting: map<string, Accepting>,
                      waiters: map<Ticket, string>, channels: set<Ticket>)
    requires id in tasks && tasks[id].inDegrees >= 1
    requires Requests(tasks, waiters, channels) && Phase(tasks, log, accepting, None) && ReadyOnes(tasks, log, accepting)
    ensures var h := Cleared(tasks[id], key);
      && Requests(tasks[id := h], waiters, channels)
      && ReadyOnes(tasks[id := h], log, accepting)
      && Phase(tasks[id := h], log, accepting, if h.inDegrees == 0 then Some(id) else None)
  {
  }

  /** Setting one due flag; the task becomes the hole when it was the last. */
  lemma ClearKeeps(c: Core, id: string, accepting: map<string, Accepting>, jobs: set<string>, key: string, todo: set<string>)
    requires Within(c, accepting, jobs, key, todo, None)
    requires id in c.tasks && id in c.stamp && CompletedIn(c.log, c.stamp[id], |c.log|, key)
    requires key in c.tasks[id].dependencies && !c.tasks[id].dependencies[key]
    ensures var h := Cleared(c.tasks[id], key);
      Within(c.(tasks := c.tasks[id := h]), accepting, jobs, key, todo - {id}, if h.inDegrees == 0 then Some(id) else None)
    ensures NeverQueued(c.log, id) && c.tasks[id].nodeRequest.None?
  {
    hide *;
    Unfold(c, accepting, jobs, key, todo, None);
    var h := c.tasks[id].(dependencies := c.tasks[id].dependencies[key := true], inDegrees := c.tasks[id].inDegrees - 1);
    ClearedIs(c.tasks[id], key);
    ClearedDegrees(c.tasks, id, key);
    ClearedFlags(c.tasks, id, key, c.stamp, c.log, todo);
    WaitingIsUnplaced(c.tasks, c.log, accepting, None, id);
    ClearedPlaces(c.tasks, id, key, c.log, accepting, c.waiters, c.pool.channels.Keys);
    SameIdentityTasks(c.tasks, id, h, c.stamp, c.log);
    SameIdentityAdmission(c.tasks, id, h, c.stamp, accepting, jobs);
    Fold(c.(tasks := c.tasks[id := h]), accepting, jobs, key, todo - {id}, if h.inDegrees == 0 then Some(id) else None);
  }

  lemma ClearedIs(h: Handler, key: string)
    requires key in h.dependencies
    ensures Cleared(h, key) == h.(dependencies := h.dependencies[key := true], inDegrees := h.inDegrees - 1)
    ensures SameIdentity(h, Cleared(h, key))
  {
  }

  /** A handler whose flag is set already, or that does not need the task, has nothing due. */
  lemma NothingDueKeeps(c: Core, id: string, accepting: map<string, Accepting>, jobs: set<string>, key: string, todo: set<string>)
    requires Within(c, accepting, jobs, key, todo, None)
    requires id in c.tasks && id in c.stamp && CompletedIn(c.log, c.stamp[id], |c.log|, key)
    requires key !in c.tasks[id].dependencies || c.tasks[id].dependencies[key]
    ensures Within(c, accepting, jobs, key, todo - {id}, None)
  {
    hide *;
    Unfold(c, accepting, jobs, key, todo, None);
    ClearedFlags(c.tasks, id, key, c.stamp, c.log, todo);
    Fold(c, accepting, jobs, key, todo - {id}, None);
  }

  // ---------- Recruiting for a task that is being placed ----------

  lemma HoleIsUnplaced(tasks: map<string, Handler>, log: seq<Event>, accepting: map<string, Accepting>, id: string)
    requires id in tasks && Phase(tasks, log, accepting, Some(id))
    ensures tasks[id].nodeRequest.None? && Pending(accepting, tasks[id].jobId, id) == 0
  {
  }

  lemma FoundPlaces(tasks: map<string, Handler>, id: string, nodeId: string, log: seq<Event>, accepting: map<string, Accepting>,
                    waiters: map<Ticket, string>, channels: set<Ticket>)
    requires id in tasks && tasks[id].inDegrees == 0
    requires Requests(tasks, waiters, channels) && Phase(tasks, log, accepting, Some(id)) && ReadyOnes(tasks, log, accepting)
    requires Degrees(tasks)
    ensures var tasks' := tasks[id := tasks[id].(task := tasks[id].task.(receiver := Some(nodeId)))];
      && Requests(tasks', waiters, channels)
      && ReadyOnes(tasks', log, accepting)
      && Phase(tasks', log, accepting, Some(id))
      && Degrees(tasks')
  {
  }

  lemma FoundKeeps(c: Core, id: string, nodeId: string, pool': NodesState, accepting: map<string, Accepting>, jobs: set<string>, key: string, todo: set<string>)
    requires Within(c, accepting, jobs, key, todo, Some(id))
    requires id in c.tasks && c.tasks[id].inDegrees == 0
    requires Valid(pool') && pool'.channels.Keys == c.pool.channels.Keys
    ensures var h := c.tasks[id].(task := c.tasks[id].task.(receiver := Some(nodeId)));
      Within(c.(tasks := c.tasks[id := h], pool := pool'), accepting, jobs, key, todo, Some(id))
  {
    var h := c.tasks[id].(task := c.tasks[id].task.(receiver := Some(nodeId)));
    assert SameIdentity(c.tasks[id], h);
    hide *;
    Unfold(c, accepting, jobs, key, todo, Some(id));
    FoundPlaces(c.tasks, id, nodeId, c.log, accepting, c.waiters, c.pool.channels.Keys);
    SameIdentityTasks(c.tasks, id, h, c.stamp, c.log);
    SameIdentityAdmission(c.tasks, id, h, c.stamp, accepting, jobs);
    SameFlags(c.tasks, id, h, c.stamp, c.log, key, todo);
    Fold(c.(tasks := c.tasks[id := h], pool := pool'), accepting, jobs, key, todo, Some(id));
  }

  lemma AskedPlaces(tasks: map<string, Handler>, id: string, t: Ticket, log: seq<Event>, accepting: map<string, Accepting>,
                    waiters: map<Ticket, string>, channels: set<Ticket>)
    requires id in tasks && tasks[id].inDegrees == 0 && t !in channels && NeverQueued(log, id)
    requires Requests(tasks, waiters, channels) && Phase(tasks, log, accepting, Some(id)) && ReadyOnes(tasks, log, accepting)
    requires Degrees(tasks)
    ensures var tasks' := tasks[id := tasks[id].(task := tasks[id].task.(receiver := None), nodeRequest := Some(t))];
      && Requests(tasks', waiters[t := id], channels + {t})
      && ReadyOnes(tasks', log, accepting)
      && Phase(tasks', log, accepting, None)
      && Degrees(tasks')
  {
    HoleIsUnplaced(tasks, log, accepting, id);
    var tasks' := tasks[id := tasks[id].(task := tasks[id].task.(receiver := None), nodeRequest := Some(t))];
    forall i | i in tasks'
      ensures PhaseAt(tasks'[i], log, accepting, None, i) && ReadyAt(tasks'[i], log, accepting, i)
    {
      assert PhaseAt(tasks[i], log, accepting, Some(id), i) && ReadyAt(tasks[i], log, accepting, i);
    }
  }

  lemma AskedKeeps(c: Core, id: string, endpoint: string, accepting: map<string, Accepting>, jobs: set<string>, key: string, todo: set<string>)
    requires Within(c, accepting, jobs, key, todo, Some(id))
    requires id in c.tasks && c.tasks[id].inDegrees == 0 && NeverQueued(c.log, id)
    ensures var (pool', t) := Request(c.pool, endpoint);
      var h := c.tasks[id].(task := c.tasks[id].task.(receiver := None), nodeRequest := Some(t));
      Within(c.(tasks := c.tasks[id := h], pool := pool', waiters := c.waiters[t := id]), accepting, jobs, key, todo, None)
  {
    var (pool', t) := Request(c.pool, endpoint);
    assert pool'.channels.Keys == c.pool.channels.Keys + {t};
    var h := c.tasks[id].(task := c.tasks[id].task.(receiver := None), nodeRequest := Some(t));
    assert SameIdentity(c.tasks[id], h);
    hide *;
    Unfold(c, accepting, jobs, key, todo, Some(id));
    RequestKeeps(c.pool, endpoint);
    AskedPlaces(c.tasks, id, t, c.log, accepting, c.waiters, c.pool.channels.Keys);
    SameIdentityTasks(c.tasks, id, h, c.stamp, c.log);
    SameIdentityAdmission(c.tasks, id, h, c.stamp, accepting, jobs);
    SameFlags(c.tasks, id, h, c.stamp, c.log, key, todo);
    Fold(c.(tasks := c.tasks[id := h], pool := pool', waiters := c.waiters[t := id]), accepting, jobs, key, todo, None);
  }

  // ---------- A recruitment wakes up ----------

  lemma AskingIsIdle(tasks: map<string, Handler>, log: seq<Event>, accepting: map<string, Accepting>, id: string)
    requires id in tasks && tasks[id].nodeRequest.Some? && Phase(tasks, log, accepting, None)
    ensures tasks[id].inDegrees == 0
  {
  }

  lemma WokenPlaces(tasks: map<string, Handler>, id: string, nodeId: string, t: Ticket, log: seq<Event>, accepting: map<string, Accepting>,
                    waiters: map<Ticket, string>, channels: set<Ticket>)
    requires t in waiters && waiters[t] == id && id in tasks
    requires Requests(tasks, waiters, channels) && Phase(tasks, log, accepting, None) && ReadyOnes(tasks, log, accepting)
    requires Degrees(tasks)
    ensures var tasks' := tasks[id := tasks[id].(task := tasks[id].task.(receiver := Some(nodeId)), nodeRequest := None)];
      && Requests(tasks', waiters - {t}, channels - {t})
      && ReadyOnes(tasks', log, accepting)
      && Phase(tasks', log, accepting, Some(id))
      && Degrees(tasks')
  {
    AskingIsIdle(tasks, log, accepting, id);
    var tasks' := tasks[id := tasks[id].(task := tasks[id].task.(receiver := Some(nodeId)), nodeRequest := None)];
    forall i | i in tasks'
      ensures PhaseAt(tasks'[i], log, accepting, Some(id), i) && ReadyAt(tasks'[i], log, accepting, i)
    {
      assert PhaseAt(tasks[i], log, accepting, None, i) && ReadyAt(tasks[i], log, accepting, i);
    }
  }

  lemma WokenKeeps(c: Core, id: string, nodeId: string, t: Ticket, accepting: map<string, Accepting>, jobs: set<string>)
    requires Within(c, accepting, jobs, "", {}, None)
    requires t in c.waiters && c.waiters[t] == id && id in c.tasks
    ensures var h := c.tasks[id].(task := c.tasks[id].task.(receiver := Some(nodeId)), nodeRequest := None);
      Within(c.(tasks := c.tasks[id := h], waiters := c.waiters - {t}, pool := Drop(c.pool, t)), accepting, jobs, "", {}, Some(id))
    ensures c.tasks[id].inDegrees == 0
  {
    var h := c.tasks[id].(task := c.tasks[id].task.(receiver := Some(nodeId)), nodeRequest := None);
    assert SameIdentity(c.tasks[id], h);
    assert Drop(c.pool, t).channels.Keys == c.pool.channels.Keys - {t};
    assert c.tasks[id].nodeRequest.Some?;
    hide *;
    Unfold(c, accepting, jobs, "", {}, None);
    AskingIsIdle(c.tasks, c.log, accepting, id);
    DropKeeps(c.pool, t);
    WokenPlaces(c.tasks, id, nodeId, t, c.log, accepting, c.waiters, c.pool.channels.Keys);
    SameIdentityTasks(c.tasks, id, h, c.stamp, c.log);
    SameIdentityAdmission(c.tasks, id, h, c.stamp, accepting, jobs);
    SameFlags(c.tasks, id, h, c.stamp, c.log, "", {});
    Fold(c.(tasks := c.tasks[id := h], waiters := c.waiters - {t}, pool := Drop(c.pool, t)), accepting, jobs, "", {}, Some(id));
  }

  // ---------- The pool and the queue ----------

  lemma PoolKeeps(c: Core, pool': NodesState, accepting: map<string, Accepting>, jobs: set<string>)
    requires Within(c, accepting, jobs, "", {}, None)
    requires Valid(pool') && pool'.channels.Keys == c.pool.channels.Keys
    ensures Within(c.(pool := pool'), accepting, jobs, "", {}, None)
  {
  }

  lemma {:induction false} EnqueuedIdsAreLogged(log: seq<Event>, id: string)
    requires id in EnqueuedIds(log)
    ensures QueuedBefore(log, |log|, id)
    decreases |log|
  {
    var n := |log| - 1;
    if id in EnqueuedIds(log[..n]) {
      EnqueuedIdsAreLogged(log[..n], id);
      var i :| 0 <= i < n && log[..n][i].Enqueued? && log[..n][i].id == id;
      assert log[i].Enqueued? && log[i].id == id;
    } else {
      assert log[n].Enqueued? && log[n].id == id;
    }
  }

  lemma QueueIsKnown(queue: seq<string>, stamp: map<string, nat>, log: seq<Event>)
    requires Fifo(queue, log) && Known(stamp, log)
    ensures forall id | id in queue :: id in stamp && QueuedBefore(log, |log|, id)
  {
    forall id | id in queue
      ensures id in stamp && QueuedBefore(log, |log|, id)
    {
      EnqueuedIdsAreLogged(log, id);
    }
  }

  /** Taking the front id, dispatched or lost. */
  lemma TakeKeeps(c: Core, e: Event, accepting: map<string, Accepting>, jobs: set<string>)
    requires Within(c, accepting, jobs, "", {}, None) && c.queue != []
    requires (e.Dispatched? || e.Lost?) && e.id == c.queue[0]
    ensures Within(c.(queue := c.queue[1..], log := c.log + [e]), accepting, jobs, "", {}, None)
  {
    hide *;
    Unfold(c, accepting, jobs, "", {}, None);
    QueueIsKnown(c.queue, c.stamp, c.log);
    SafeLonger(c.log, e);
    StampsLonger(c.tasks, c.stamp, c.log, e);
    KnownStays(c.stamp, c.log, e);
    assert c.queue == [c.queue[0]] + c.queue[1..];
    FifoLonger(c.queue, c.log, e, c.queue[1..]);
    FlagsLonger(c.tasks, c.stamp, c.log, e, "", {});
    ReadyOnesLonger(c.tasks, c.log, e, accepting);
    PhaseLonger(c.tasks, c.log, e, accepting, None);
    Fold(c.(queue := c.queue[1..], log := c.log + [e]), accepting, jobs, "", {}, None);
  }

  lemma KnownStays(stamp: map<string, nat>, log: seq<Event>, e: Event)
    requires Known(stamp, log) && e.id in stamp
    ensures Known(stamp, log + [e])
  {
  }

  // ---------- accept_job's own list ----------

  /** The validated task joins the list of ids that accept_job queues at the end. */
  lemma PendKeeps(c: Core, id: string, accepting: map<string, Accepting>, jobs: set<string>)
    requires Within(c, accepting, jobs, "", {}, Some(id))
    requires id in c.tasks && c.tasks[id].Ready() && c.tasks[id].jobId in accepting
    ensures var jobId := c.tasks[id].jobId;
      Within(c, accepting[jobId := accepting[jobId].(ready := accepting[jobId].ready + [id])], jobs, "", {}, None)
  {
    var jobId := c.tasks[id].jobId;
    var a := accepting[jobId].(ready := accepting[jobId].ready + [id]);
    ReadyHasNoDegree(c.tasks[id]);
    assert multiset(a.ready) == multiset(accepting[jobId].ready) + multiset{id};
    hide *;
    Unfold(c, accepting, jobs, "", {}, Some(id));
    PendAdmission(c.tasks, id, c.stamp, accepting, jobs);
    PendPlaces(c.tasks, id, c.log, accepting);
    Fold(c, accepting[jobId := a], jobs, "", {}, None);
  }

  lemma PendAdmission(tasks: map<string, Handler>, id: string, stamp: map<string, nat>, accepting: map<string, Accepting>, jobs: set<string>)
    requires id in tasks && tasks[id].jobId in accepting && Admission(tasks, stamp, accepting, jobs)
    ensures var jobId := tasks[id].jobId;
      Admission(tasks, stamp, accepting[jobId := accepting[jobId].(ready := accepting[jobId].ready + [id])], jobs)
  {
  }

  lemma PendPlaces(tasks: map<string, Handler>, id: string, log: seq<Event>, accepting: map<string, Accepting>)
    requires id in tasks && tasks[id].Ready() && tasks[id].jobId in accepting
    requires Phase(tasks, log, accepting, Some(id)) && ReadyOnes(tasks, log, accepting)
    ensures var jobId := tasks[id].jobId;
      var accepting' := accepting[jobId := accepting[jobId].(ready := accepting[jobId].ready + [id])];
      Phase(tasks, log, accepting', None) && ReadyOnes(tasks, log, accepting')
  {
  }

  /** accept_job takes the first id off its list, which opens that task's hole. */
  lemma UnpendKeeps(c: Core, jobId: string, accepting: map<string, Accepting>, jobs: set<string>)
    requires Within(c, accepting, jobs, "", {}, None)
    requires jobId in accepting && accepting[jobId].ready != []
    ensures var id := accepting[jobId].ready[0];
      && id in c.tasks && c.tasks[id].Ready()
      && Within(c, accepting[jobId := accepting[jobId].(ready := accepting[jobId].ready[1..])], jobs, "", {}, Some(id))
  {
    var id, a := accepting[jobId].ready[0], accepting[jobId].(ready := accepting[jobId].ready[1..]);
    hide *;
    Unfold(c, accepting, jobs, "", {}, None);
    UnpendPlaces(c.tasks, jobId, c.stamp, c.log, accepting, jobs);
    Fold(c, accepting[jobId := a], jobs, "", {}, Some(id));
  }

  lemma UnpendPlaces(tasks: map<string, Handler>, jobId: string, stamp: map<string, nat>, log: seq<Event>, accepting: map<string, Accepting>, jobs: set<string>)
    requires jobId in accepting && accepting[jobId].ready != []
    requires Phase(tasks, log, accepting, None) && ReadyOnes(tasks, log, accepting) && Admission(tasks, stamp, accepting, jobs)
    ensures var id := accepting[jobId].ready[0];
      var accepting' := accepting[jobId := accepting[jobId].(ready := accepting[jobId].ready[1..])];
      && Phase(tasks, log, accepting', Some(id)) && ReadyOnes(tasks, log, accepting') && Admission(tasks, stamp, accepting', jobs)
      && id in tasks && tasks[id].Ready()
  {
    var id, rest := accepting[jobId].ready[0], accepting[jobId].ready[1..];
    var accepting' := accepting[jobId := accepting[jobId].(ready := rest)];
    assert accepting[jobId].ready == [id] + rest;
    assert multiset(accepting[jobId].ready) == multiset{id} + multiset(rest);
    assert AcceptingAt(tasks, stamp, jobs, jobId, accepting[jobId]);
    assert id in accepting[jobId].ready;
    assert ReadyAt(tasks[id], log, accepting, id);
    forall i | i in tasks
      ensures PhaseAt(tasks[i], log, accepting', Some(id), i) && ReadyAt(tasks[i], log, accepting', i)
    {
      assert PhaseAt(tasks[i], log, accepting, None, i) && ReadyAt(tasks[i], log, accepting, i);
    }
    forall j | j in accepting'
      ensures AcceptingAt(tasks, stamp, jobs, j, accepting'[j])
    {
      assert AcceptingAt(tasks, stamp, jobs, j, accepting[j]);
    }
  }

  /** A job whose list is empty leaves the accepting jobs without a trace. */
  lemma AcceptedKeeps(c: Core, jobId: string, accepting: map<string, Accepting>, jobs: set<string>)
    requires Within(c, accepting, jobs, "", {}, None)
    requires jobId in accepting && accepting[jobId].ready == []
    ensures Within(c, accepting - {jobId}, jobs, "", {}, None)
  {
    hide *;
    Unfold(c, accepting, jobs, "", {}, None);
    AcceptedPlaces(c.tasks, jobId, c.stamp, c.log, accepting, jobs);
    Fold(c, accepting - {jobId}, jobs, "", {}, None);
  }

  lemma AcceptedPlaces(tasks: map<string, Handler>, jobId: string, stamp: map<string, nat>, log: seq<Event>, accepting: map<string, Accepting>, jobs: set<string>)
    requires jobId in accepting && accepting[jobId].ready == []
    requires Phase(tasks, log, accepting, None) && ReadyOnes(tasks, log, accepting) && Admission(tasks, stamp, accepting, jobs)
    ensures Phase(tasks, log, accepting - {jobId}, None)
    ensures ReadyOnes(tasks, log, accepting - {jobId})
    ensures Admission(tasks, stamp, accepting - {jobId}, jobs)
  {
  }

  /** The first request is taken off the list of those still to validate. */
  lemma NextRequestKeeps(c: Core, jobId: string, accepting: map<string, Accepting>, jobs: set<string>)
    requires Within(c, accepting, jobs, "", {}, None)
    requires jobId in accepting && accepting[jobId].rest != []
    ensures Within(c, accepting[jobId := accepting[jobId].(rest := accepting[jobId].rest[1..])], jobs, "", {}, None)
  {
    var a := accepting[jobId].(rest := accepting[jobId].rest[1..]);
    hide *;
    Unfold(c, accepting, jobs, "", {}, None);
    NextRequestPlaces(c.tasks, jobId, c.stamp, c.log, accepting, jobs);
    Fold(c, accepting[jobId := a], jobs, "", {}, None);
  }

  lemma NextRequestPlaces(tasks: map<string, Handler>, jobId: string, stamp: map<string, nat>, log: seq<Event>, accepting: map<string, Accepting>, jobs: set<string>)
    requires jobId in accepting && accepting[jobId].rest != []
    requires Phase(tasks, log, accepting, None) && ReadyOnes(tasks, log, accepting) && Admission(tasks, stamp, accepting, jobs)
    ensures var accepting' := accepting[jobId := accepting[jobId].(rest := accepting[jobId].rest[1..])];
      Phase(tasks, log, accepting', None) && ReadyOnes(tasks, log, accepting') && Admission(tasks, stamp, accepting', jobs)
  {
    var accepting' := accepting[jobId := accepting[jobId].(rest := accepting[jobId].rest[1..])];
    forall i | i in tasks
      ensures PhaseAt(tasks[i], log, accepting', None, i) && ReadyAt(tasks[i], log, accepting', i)
    {
      assert PhaseAt(tasks[i], log, accepting, None, i) && ReadyAt(tasks[i], log, accepting, i);
    }
    forall j | j in accepting'
      ensures AcceptingAt(tasks, stamp, jobs, j, accepting'[j])
    {
      assert AcceptingAt(tasks, stamp, jobs, j, accepting[j]);
    }
  }

  lemma SubmitKeeps(c: Core, jobId: string, subs: seq<Submission>, accepting: map<string, Accepting>, jobs: set<string>)
    requires Within(c, accepting, jobs, "", {}, None)
    requires jobId !in jobs && NoDash(jobId) && DistinctNames(subs)
    ensures Within(c, accepting[jobId := Accepting(subs, [])], jobs + {jobId}, "", {}, None)
  {
    hide *;
    Unfold(c, accepting, jobs, "", {}, None);
    NewJobPlaces(c.tasks, jobId, subs, c.stamp, c.log, accepting, jobs);
    NewJobAdmission(c.tasks, jobId, subs, c.stamp, accepting, jobs);
    Fold(c, accepting[jobId := Accepting(subs, [])], jobs + {jobId}, "", {}, None);
  }

  lemma NewJobPlaces(tasks: map<string, Handler>, jobId: string, subs: seq<Submission>, stamp: map<string, nat>, log: seq<Event>,
                     accepting: map<string, Accepting>, jobs: set<string>)
    requires jobId !in jobs && Admission(tasks, stamp, accepting, jobs)
    requires Phase(tasks, log, accepting, None) && ReadyOnes(tasks, log, accepting) && JobsKnown(stamp, jobs)
    ensures var accepting' := accepting[jobId := Accepting(subs, [])];
      Phase(tasks, log, accepting', None) && ReadyOnes(tasks, log, accepting') && JobsKnown(stamp, jobs + {jobId})
  {
  }

  lemma NewJobAdmission(tasks: map<string, Handler>, jobId: string, subs: seq<Submission>, stamp: map<string, nat>,
                        accepting: map<string, Accepting>, jobs: set<string>)
    requires jobId !in jobs && NoDash(jobId) && DistinctNames(subs)
    requires JobsKnown(stamp, jobs) && Admission(tasks, stamp, accepting, jobs)
    ensures Admission(tasks, stamp, accepting[jobId := Accepting(subs, [])], jobs + {jobId})
  {
    forall i | 0 <= i < |subs|
      ensures TaskIdOf(jobId, subs[i].req.name) !in stamp
    {
      JobOfTaskId(jobId, subs[i].req.name);
    }
    forall j | j in accepting && j != jobId
      ensures AcceptingAt(tasks, stamp, jobs + {jobId}, j, accepting[j])
    {
      assert AcceptingAt(tasks, stamp, jobs, j, accepting[j]);
    }
  }

  // ---------- Inserting a task ----------

  /** A handler that may be inserted under a new id: nothing of it is done, queued or requested yet. */
  ghost predicate Insertable(tasks: map<string, Handler>, stamp: map<string, nat>, id: string, h: Handler) {
    && id !in stamp
    && Keyed(id, h)
    && h.nodeRequest.None?
    && h.inDegrees == |h.dependencies.Keys|
    && forall d | d in h.dependencies :: !h.dependencies[d] && d in tasks && tasks[d].jobId == h.jobId
  }

  lemma InsertedTasks(tasks: map<string, Handler>, stamp: map<string, nat>, log: seq<Event>, id: string, h: Handler)
    requires Insertable(tasks, stamp, id, h)
    requires WellKeyed(tasks) && Graph(tasks, stamp) && Degrees(tasks) && Stamps(tasks, stamp, log)
    ensures WellKeyed(tasks[id := h])
    ensures Graph(tasks[id := h], stamp[id := |log|])
    ensures Degrees(tasks[id := h])
  {
    InsertedKeys(tasks, stamp, id, h);
    InsertedDegrees(tasks, stamp, id, h);
    InsertedGraph(tasks, stamp, log, id, h);
  }

  lemma InsertedKeys(tasks: map<string, Handler>, stamp: map<string, nat>, id: string, h: Handler)
    requires Insertable(tasks, stamp, id, h) && WellKeyed(tasks)
    ensures WellKeyed(tasks[id := h])
  {
  }

  lemma InsertedDegrees(tasks: map<string, Handler>, stamp: map<string, nat>, id: string, h: Handler)
    requires Insertable(tasks, stamp, id, h) && Degrees(tasks)
    ensures Degrees(tasks[id := h])
  {
    hide Keyed;
    assert Open(h.dependencies) == h.dependencies.Keys;
  }

  lemma InsertedGraph(tasks: map<string, Handler>, stamp: map<string, nat>, log: seq<Event>, id: string, h: Handler)
    requires Insertable(tasks, stamp, id, h) && Graph(tasks, stamp) && Stamps(tasks, stamp, log)
    ensures Graph(tasks[id := h], stamp[id := |log|])
  {
  }

  lemma InsertedHistory(tasks: map<string, Handler>, stamp: map<string, nat>, log: seq<Event>, id: string, h: Handler, key: string, todo: set<string>)
    requires Insertable(tasks, stamp, id, h)
    requires Stamps(tasks, stamp, log) && Known(stamp, log) && Flags(tasks, stamp, log, key, todo)
    ensures var e := Inserted(id, h.dependencies.Keys);
      && Stamps(tasks[id := h], stamp[id := |log|], log + [e])
      && Known(stamp[id := |log|], log + [e])
      && Flags(tasks[id := h], stamp[id := |log|], log + [e], key, todo)
  {
    var e := Inserted(id, h.dependencies.Keys);
    var tasks', stamp', log' := tasks[id := h], stamp[id := |log|], log + [e];
    assert forall i | i in stamp :: StampedAt(stamp, log, i);
    forall i, d | i in tasks' && i in stamp' && d in tasks'[i].dependencies && !(d == key && i in todo)
      ensures FlagAt(tasks'[i], log', stamp'[i], d)
    {
      if i != id {
        assert FlagAt(tasks[i], log, stamp[i], d);
        CompletedInLonger(log, e, stamp[i], d);
      }
    }
  }

  lemma InsertedPlaces(tasks: map<string, Handler>, stamp: map<string, nat>, log: seq<Event>, id: string, h: Handler,
                       accepting: map<string, Accepting>, jobs: set<string>)
    requires id !in stamp && id !in tasks && h.nodeRequest.None? && Pending(accepting, h.jobId, id) == 0
    requires Known(stamp, log) && Phase(tasks, log, accepting, None) && ReadyOnes(tasks, log, accepting)
    ensures var log' := log + [Inserted(id, h.dependencies.Keys)];
      && Phase(tasks[id := h], log', accepting, if h.inDegrees == 0 then Some(id) else None)
      && ReadyOnes(tasks[id := h], log', accepting)
      && NeverQueued(log', id)
  {
  }

  lemma NewIdIsNotPending(tasks: map<string, Handler>, stamp: map<string, nat>, id: string, accepting: map<string, Accepting>, jobs: set<string>, jobId: string)
    requires id !in tasks && Admission(tasks, stamp, accepting, jobs)
    ensures Pending(accepting, jobId, id) == 0
  {
  }

  lemma InsertedRequests(tasks: map<string, Handler>, id: string, h: Handler, waiters: map<Ticket, string>, channels: set<Ticket>)
    requires id !in tasks && h.nodeRequest.None? && Requests(tasks, waiters, channels)
    ensures Requests(tasks[id := h], waiters, channels)
  {
  }

  /** No job still wants to use this id. */
  ghost predicate Unclaimed(accepting: map<string, Accepting>, id: string) {
    forall j, i | j in accepting && 0 <= i < |accepting[j].rest| :: TaskIdOf(j, accepting[j].rest[i].req.name) != id
  }

  lemma InsertedAdmission(tasks: map<string, Handler>, stamp: map<string, nat>, id: string, h: Handler, position: nat,
                          accepting: map<string, Accepting>, jobs: set<string>)
    requires id !in tasks && Keyed(id, h) && h.jobId in jobs && Unclaimed(accepting, id)
    requires JobsKnown(stamp, jobs) && Admission(tasks, stamp, accepting, jobs)
    ensures JobsKnown(stamp[id := position], jobs)
    ensures Admission(tasks[id := h], stamp[id := position], accepting, jobs)
  {
    JobOfTaskId(h.jobId, h.task.name);
    forall j | j in accepting
      ensures AcceptingAt(tasks[id := h], stamp[id := position], jobs, j, accepting[j])
    {
      assert AcceptingAt(tasks, stamp, jobs, j, accepting[j]);
    }
  }

  lemma InsertKeeps(c: Core, id: string, h: Handler, accepting: map<string, Accepting>, jobs: set<string>)
    requires Within(c, accepting, jobs, "", {}, None)
    requires Insertable(c.tasks, c.stamp, id, h) && h.jobId in jobs && Unclaimed(accepting, id)
    ensures var c' := c.(tasks := c.tasks[id := h], stamp := c.stamp[id := |c.log|], log := c.log + [Inserted(id, h.dependencies.Keys)]);
      && Within(c', accepting, jobs, "", {}, if h.inDegrees == 0 then Some(id) else None)
      && NeverQueued(c'.log, id)
  {
    var e := Inserted(id, h.dependencies.Keys);
    assert Keyed(id, h) && id !in c.stamp && h.nodeRequest.None?;
    hide *;
    Unfold(c, accepting, jobs, "", {}, None);
    StampedTasks(c.tasks, c.stamp, c.log);
    InsertedTasks(c.tasks, c.stamp, c.log, id, h);
    InsertedHistory(c.tasks, c.stamp, c.log, id, h, "", {});
    NewIdIsNotPending(c.tasks, c.stamp, id, accepting, jobs, h.jobId);
    InsertedPlaces(c.tasks, c.stamp, c.log, id, h, accepting, jobs);
    InsertedRequests(c.tasks, id, h, c.waiters, c.pool.channels.Keys);
    InsertedAdmission(c.tasks, c.stamp, id, h, |c.log|, accepting, jobs);
    SafeLonger(c.log, e);
    FifoLonger(c.queue, c.log, e, c.queue);
    Fold(c.(tasks := c.tasks[id := h], stamp := c.stamp[id := |c.log|], log := c.log + [e]),
         accepting, jobs, "", {}, if h.inDegrees == 0 then Some(id) else None);
  }

  lemma StampedTasks(tasks: map<string, Handler>, stamp: map<string, nat>, log: seq<Event>)
    requires Stamps(tasks, stamp, log)
    ensures tasks.Keys <= stamp.Keys
  {
  }

  // ---------- Removing a job ----------

  function Others(tasks: map<string, Handler>, jobId: string): map<string, Handler> {
    map id | id in tasks && tasks[id].jobId != jobId :: tasks[id]
  }

  lemma RemovedTasks(tasks: map<string, Handler>, jobId: string, stamp: map<string, nat>, log: seq<Event>)
    requires WellKeyed(tasks) && Graph(tasks, stamp) && Degrees(tasks) && Stamps(tasks, stamp, log)
    ensures WellKeyed(Others(tasks, jobId)) && Graph(Others(tasks, jobId), stamp)
    ensures Degrees(Others(tasks, jobId)) && Stamps(Others(tasks, jobId), stamp, log)
  {
    forall i | i in Others(tasks, jobId)
      ensures Keyed(i, tasks[i]) && GraphAt(Others(tasks, jobId), stamp, i)
    {
      assert Keyed(i, tasks[i]) && GraphAt(tasks, stamp, i);
    }
  }

  lemma RemovedFlags(tasks: map<string, Handler>, jobId: string, stamp: map<string, nat>, log: seq<Event>)
    requires Flags(tasks, stamp, log, "", {})
    ensures Flags(Others(tasks, jobId), stamp, log, "", {})
  {
  }

  lemma RemovedRequests(tasks: map<string, Handler>, jobId: string, waiters: map<Ticket, string>, channels: set<Ticket>)
    requires Requests(tasks, waiters, channels)
    ensures var dead := RequestsOf(tasks, jobId);
      Requests(Others(tasks, jobId), waiters - dead, channels - dead)
  {
  }

  lemma RemovedPlaces(tasks: map<string, Handler>, jobId: string, stamp: map<string, nat>, log: seq<Event>, accepting: map<string, Accepting>, jobs: set<string>)
    requires Phase(tasks, log, accepting, None) && ReadyOnes(tasks, log, accepting) && Admission(tasks, stamp, accepting, jobs)
    ensures Phase(Others(tasks, jobId), log, accepting - {jobId}, None)
    ensures ReadyOnes(Others(tasks, jobId), log, accepting - {jobId})
    ensures Admission(Others(tasks, jobId), stamp, accepting - {jobId}, jobs)
  {
    forall i | i in Others(tasks, jobId)
      ensures PhaseAt(tasks[i], log, accepting - {jobId}, None, i) && ReadyAt(tasks[i], log, accepting - {jobId}, i)
    {
      assert PhaseAt(tasks[i], log, accepting, None, i) && ReadyAt(tasks[i], log, accepting, i);
    }
    forall j | j in accepting - {jobId}
      ensures AcceptingAt(Others(tasks, jobId), stamp, jobs, j, accepting[j])
    {
      assert AcceptingAt(tasks, stamp, jobs, j, accepting[j]);
    }
  }

  lemma ClosedChannelsKeep(ns: NodesState, dead: set<Ticket>)
    requires Valid(ns)
    ensures Valid(ns.(channels := ns.channels - dead))
  {
  }

  lemma RemoveKeeps(c: Core, jobId: string, accepting: map<string, Accepting>, jobs: set<string>)
    requires Within(c, accepting, jobs, "", {}, None)
    ensures Within(RemoveJob(c, jobId), accepting - {jobId}, jobs, "", {}, None)
  {
    var dead := RequestsOf(c.tasks, jobId);
    var c' := c.(tasks := Others(c.tasks, jobId), waiters := c.waiters - dead, pool := c.pool.(channels := c.pool.channels - dead));
    assert RemoveJob(c, jobId) == c';
    assert c'.pool.channels.Keys == c.pool.channels.Keys - dead;
    hide *;
    Unfold(c, accepting, jobs, "", {}, None);
    RemovedTasks(c.tasks, jobId, c.stamp, c.log);
    RemovedFlags(c.tasks, jobId, c.stamp, c.log);
    RemovedRequests(c.tasks, jobId, c.waiters, c.pool.channels.Keys);
    RemovedPlaces(c.tasks, jobId, c.stamp, c.log, accepting, jobs);
    ClosedChannelsKeep(c.pool, dead);
    Fold(c', accepting - {jobId}, jobs, "", {}, None);
  }
}
