/** What the scheduler promises over whole runs. */
module SchedulerProperties {
  import opened Wrappers
  import opened Messages
  import opened Nodes
  import opened Orders
  import opened Scheduler
  import opened SchedulerInvariant
  import opened SchedulerSteps
  import opened SchedulerRuns

  // ---------- History only grows ----------

  ghost predicate Grows(c: Core, c': Core) {
    && c.log <= c'.log
    && forall id | id in c.stamp :: id in c'.stamp && c'.stamp[id] == c.stamp[id]
  }

  lemma GrowsFurther(c: Core, c': Core, c'': Core)
    requires Grows(c, c') && Grows(c', c'')
    ensures Grows(c, c'')
  {
  }

  lemma VisitGrows(c: Core, key: string, id: string)
    ensures Grows(c, DoneVisit(c, key, id)) && DoneVisit(c, key, id).stamp == c.stamp
  {
    if id in c.tasks && key in c.tasks[id].dependencies && !c.tasks[id].dependencies[key] {
      var h := Cleared(c.tasks[id], key);
      VisitIs(c, key, id);
      PlaceDoneFrame(c, id, h);
    }
  }

  lemma {:induction false} SweepGrows(c: Core, key: string, order: seq<string>)
    ensures Grows(c, DoneSweep(c, key, order)) && DoneSweep(c, key, order).stamp == c.stamp
    decreases |order|
  {
    hide DoneVisit;
    if order != [] {
      SweepGrows(c, key, order[..|order| - 1]);
      VisitGrows(DoneSweep(c, key, order[..|order| - 1]), key, order[|order| - 1]);
    }
  }

  lemma RetryGrows(c: Core, key: string)
    ensures Grows(c, Retry(c, key).0) && Retry(c, key).0.stamp == c.stamp
  {
    if key in c.tasks {
      hide Retry;
      RetryIs(c, key);
    }
  }

  lemma DoneGrows(c: Core, key: string, order: seq<string>)
    ensures Grows(c, Done(c, key, order).0)
  {
    hide DoneSweep;
    if key in c.tasks {
      var c1 := Put(c, key, c.tasks[key].WithStatus(DONE));
      SweepGrows(c1.(log := c1.log + [Completed(key)]), key, order);
    }
  }

  lemma UpdateGrows(c: Core, task: Task, order: seq<string>)
    ensures Grows(c, Update(c, task, order))
  {
    hide Retry, Done, MarkFailed;
    UpdateIs(c, task, order);
    var key := TaskIdOf(task.jobId, task.name);
    if key in c.tasks {
      var c1 := c.(tasks := c.tasks[key := c.tasks[key].(task := task)]);
      RetryGrows(c1, key);
      DoneGrows(c1, key, order);
    }
  }

  lemma {:induction false} PushGrows(c: Core, ids: seq<string>)
    ensures Grows(c, Push(c, ids)) && Push(c, ids).tasks == c.tasks && Push(c, ids).stamp == c.stamp
    decreases |ids|
  {
    if ids != [] {
      PushGrows(c, ids[..|ids| - 1]);
    }
  }

  lemma AcceptGrows(s: System, jobId: string)
    requires Inv(s)
    ensures Grows(s.core, AcceptStep(s, jobId).core)
  {
    hide *;
    InvIs(s);
    AcceptNothing(s, jobId);
    if jobId in s.accepting {
      if s.accepting[jobId].rest == [] {
        PushGrows(s.core, s.accepting[jobId].ready);
      } else {
        AcceptNextGrows(s, jobId);
      }
    } else {
      GrowsItself(s.core);
    }
  }

  lemma GrowsItself(c: Core)
    ensures Grows(c, c)
  {
  }

  lemma AcceptNextGrows(s: System, jobId: string)
    requires Within(s.core, s.accepting, s.jobs, "", {}, None)
    requires jobId in s.accepting && s.accepting[jobId].rest != []
    ensures Grows(s.core, AcceptStep(s, jobId).core)
  {
    hide *;
    var c, a := s.core, s.accepting[jobId];
    var sub := a.rest[0];
    var id, h := TaskIdOf(jobId, sub.req.name), NewHandler(jobId, sub.req, sub.timeout.GetOr(0));
    Unfold(c, s.accepting, s.jobs, "", {}, None);
    StampedTasks(c.tasks, c.stamp, c.log);
    NextIsUnclaimed(c.tasks, c.stamp, jobId, s.accepting, s.jobs);
    AcceptStepIs(s, jobId);
    RemoveGrows(c, jobId);
    ValidateGrows(c, id, h, jobId, sub.req);
    GetOrIs(sub.timeout);
    var c' := ValidateRest(c, id, h, jobId, sub.req).0;
    RemoveGrows(c', jobId);
    GrowsFurther(c, c', RemoveJob(c', jobId));
  }

  lemma GetOrIs(timeout: Option<nat>)
    ensures timeout.Some? ==> timeout.GetOr(0) == timeout.value
  {
  }

  lemma RemoveGrows(c: Core, jobId: string)
    ensures Grows(c, RemoveJob(c, jobId))
  {
  }

  lemma ValidateGrows(c: Core, id: string, h: Handler, jobId: string, req: TaskRequest)
    requires id !in c.stamp
    ensures Grows(c, ValidateRest(c, id, h, jobId, req).0)
  {
    hide Find, Request, MissingNeed;
  }

  lemma DeliverGrows(c: Core, t: Ticket)
    ensures Grows(c, Deliver(c, t))
  {
  }

  lemma StepGrows(s: System, action: Action)
    requires Inv(s)
    ensures Grows(s.core, Step(s, action).core)
  {
    hide Inv, AcceptStep, Register, Deliver, Next, Update, Retry;
    match action
    case Submit(jobId, subs) =>
    case Accept(jobId) => AcceptGrows(s, jobId);
    case Join(node) =>
    case Receive(t) => DeliverGrows(s.core, t);
    case Dispatch => NextIs(s.core);
    case Interrupt =>
    case Report(task, order) => UpdateGrows(s.core, task, order);
    case RetryTask(key) => RetryGrows(s.core, key);
  }

  // ---------- Dependency safety ----------

  ghost function LogOf(run: seq<Action>): seq<Event> {
    AfterRun(run).core.log
  }

  /**
    A task enters the queue only after it was inserted, and only once each of its dependencies has
    gone through a Done action after that.
   */
  lemma QueuedAfterItsDependencies(run: seq<Action>, i: nat)
    requires IsRun(run) && i < |LogOf(run)| && LogOf(run)[i].Enqueued?
    ensures SafeBefore(LogOf(run), i, LogOf(run)[i].id)
  {
    RunKeeps(run);
  }

  /** Whatever was queued has nothing left to wait for and has a receiver, for as long as it lives. */
  lemma QueuedTasksAreReady(run: seq<Action>, id: string, cause: Cause)
    requires IsRun(run) && id in AfterRun(run).core.tasks && Enqueued(id, cause) in LogOf(run)
    ensures AfterRun(run).core.tasks[id].Ready()
  {
    RunKeeps(run);
    assert ReadyAt(AfterRun(run).core.tasks[id], LogOf(run), AfterRun(run).accepting, id);
  }

  ghost predicate DispatchedBefore(log: seq<Event>, to: int, id: string) {
    exists j | 0 <= j < to && j < |log| :: log[j].Dispatched? && log[j].id == id
  }

  /** Workers report DONE only for tasks that were dispatched to them. */
  ghost predicate HonestWorkers(log: seq<Event>) {
    forall q | 0 <= q < |log| && log[q].Completed? :: DispatchedBefore(log, q, log[q].id)
  }

  /** Before position `to`, the task was inserted with these needs and each of them was dispatched. */
  ghost predicate NeedsDispatchedBefore(log: seq<Event>, to: int, id: string) {
    exists p | 0 <= p < to && p < |log| ::
      log[p].Inserted? && log[p].id == id && forall d | d in log[p].deps :: DispatchedBefore(log, to, d)
  }

  /** With honest workers, tasks are dispatched in a topological order of the needs graph. */
  lemma DispatchOrderIsTopological(run: seq<Action>, i: nat)
    requires IsRun(run) && HonestWorkers(LogOf(run))
    requires i < |LogOf(run)| && LogOf(run)[i].Dispatched?
    ensures NeedsDispatchedBefore(LogOf(run), i, LogOf(run)[i].id)
  {
    RunKeeps(run);
    SafeDispatch(LogOf(run), i);
  }

  lemma SafeDispatch(log: seq<Event>, i: nat)
    requires Safe(log) && HonestWorkers(log) && i < |log| && log[i].Dispatched?
    ensures NeedsDispatchedBefore(log, i, log[i].id)
  {
  }

  // ---------- First in, first out ----------

  /**
    First in, first out: what was queued is, in order, what left the queue and then what is still in it.
    It is what was dispatched, and then what is still in it, exactly when no get_next_task was interrupted
    between its locks; every interrupted one loses an id.
   */
  lemma QueueIsFifo(run: seq<Action>)
    requires IsRun(run)
    ensures EnqueuedIds(LogOf(run)) == TakenIds(LogOf(run)) + AfterRun(run).core.queue
    ensures EnqueuedIds(LogOf(run)) == DispatchedIds(LogOf(run)) + AfterRun(run).core.queue
       <==> forall i | 0 <= i < |LogOf(run)| :: !LogOf(run)[i].Lost?
  {
    hide IsRun, AfterRun;
    RunKeeps(run);
    FifoIn(AfterRun(run));
    hide LogOf;
    LogOfIs(run);
    TakenUnlessLost(LogOf(run));
  }

  lemma FifoIn(s: System)
    requires Inv(s)
    ensures Fifo(s.core.queue, s.core.log)
  {
  }

  lemma LogOfIs(run: seq<Action>)
    ensures LogOf(run) == AfterRun(run).core.log
  {
  }

  function DispatchedIds(log: seq<Event>): seq<string> {
    if log == [] then []
    else
      var e := log[|log| - 1];
      DispatchedIds(log[..|log| - 1]) + if e.Dispatched? then [e.id] else []
  }

  lemma {:induction false} TakenUnlessLost(log: seq<Event>)
    ensures |DispatchedIds(log)| <= |TakenIds(log)|
    ensures |DispatchedIds(log)| == |TakenIds(log)| <==> forall i | 0 <= i < |log| :: !log[i].Lost?
    ensures |DispatchedIds(log)| == |TakenIds(log)| ==> DispatchedIds(log) == TakenIds(log)
    decreases |log|
  {
    if log != [] {
      var n := |log| - 1;
      TakenUnlessLost(log[..n]);
      assert forall i | 0 <= i < n :: log[..n][i] == log[i];
    }
  }

  // ---------- No ready task is placed twice ----------

  /**
    A live task waits for dependencies and has no place yet, or it has exactly one of: its first
    enqueue, a recruitment under way, a failed recruitment, a slot in its job's list of tasks to queue.
   */
  lemma ReadyTasksHaveExactlyOnePlace(run: seq<Action>, id: string)
    requires IsRun(run) && id in AfterRun(run).core.tasks
    ensures var s := AfterRun(run);
      var h := s.core.tasks[id];
      Made(s.core.log, id) + Asking(h) + multiset(s.core.log)[RecruitFailed(id)] + Pending(s.accepting, h.jobId, id)
      == if h.inDegrees == 0 then 1 else 0
  {
    RunKeeps(run);
    var s := AfterRun(run);
    assert PhaseAt(s.core.tasks[id], s.core.log, s.accepting, None, id);
  }

  function Occurrences(ids: seq<string>, id: string): nat {
    multiset(ids)[id]
  }

  lemma {:induction false} EnqueuesByCause(log: seq<Event>, id: string)
    ensures Occurrences(EnqueuedIds(log), id) == multiset(log)[Enqueued(id, Initial)] + multiset(log)[Enqueued(id, Retried)]
    decreases |log|
  {
    if log != [] {
      var n := |log| - 1;
      EnqueuesByCause(log[..n], id);
      assert log == log[..n] + [log[n]];
      CountStep(log[..n], log[n], Enqueued(id, Initial));
      CountStep(log[..n], log[n], Enqueued(id, Retried));
      if log[n].Enqueued? {
        CountStep(EnqueuedIds(log[..n]), log[n].id, id);
        assert EnqueuedIds(log) == EnqueuedIds(log[..n]) + [log[n].id];
        assert log[n].cause == Initial || log[n].cause == Retried;
      } else {
        assert EnqueuedIds(log) == EnqueuedIds(log[..n]);
      }
    }
  }

  lemma CountStep<T>(s: seq<T>, e: T, x: T)
    ensures multiset(s + [e])[x] == multiset(s)[x] + if e == x then 1 else 0
  {
  }

  /** A live task enters the queue at most once more than it is retried. */
  lemma AtMostOneEnqueueBesidesRetries(run: seq<Action>, id: string)
    requires IsRun(run) && id in AfterRun(run).core.tasks
    ensures Occurrences(EnqueuedIds(LogOf(run)), id) <= 1 + multiset(LogOf(run))[Enqueued(id, Retried)]
  {
    EnqueuesByCause(LogOf(run), id);
    ReadyTasksHaveExactlyOnePlace(run, id);
  }

  /**
    Every recruitment under way belongs to a live task, and its ticket still waits in the queue of
    its endpoint or has been sent a node already.
   */
  lemma RecruitmentsAreNotLost(run: seq<Action>, t: Ticket)
    requires IsRun(run) && t in AfterRun(run).core.waiters
    ensures var c := AfterRun(run).core;
      && c.waiters[t] in c.tasks
      && c.tasks[c.waiters[t]].nodeRequest == Some(t)
      && t in c.pool.channels
      && (t in Waiting(c.pool, c.pool.channels[t].endpoint) || c.pool.channels[t].node.Some?)
  {
    RunKeeps(run);
    var c := AfterRun(run).core;
    assert Requests(c.tasks, c.waiters, c.pool.channels.Keys);
    assert ChannelsOk(c.pool);
  }

  // ---------- In-degrees and flags ----------

  /**
    A task has nothing left to wait for exactly when each of its dependencies has completed after
    the task was inserted; its in-degree counts the others.
   */
  lemma ReadyIffDependenciesCompletedSinceInsertion(run: seq<Action>, id: string)
    requires IsRun(run) && id in AfterRun(run).core.tasks
    ensures var c := AfterRun(run).core;
      && id in c.stamp
      && c.tasks[id].inDegrees == |Open(c.tasks[id].dependencies)|
      && (forall d | d in c.tasks[id].dependencies ::
            c.tasks[id].dependencies[d] <==> CompletedIn(c.log, c.stamp[id], |c.log|, d))
      && (c.tasks[id].inDegrees == 0 <==>
            forall d | d in c.tasks[id].dependencies :: CompletedIn(c.log, c.stamp[id], |c.log|, d))
  {
    RunKeeps(run);
    TaskFlags(AfterRun(run).core, id, AfterRun(run).accepting, AfterRun(run).jobs);
  }

  /**
    A completion that came before a task was inserted does not count: until the dependency completes
    once more, the task is not queued and asks for no node.
   */
  lemma MissedCompletionsBlock(run: seq<Action>, id: string, d: string)
    requires IsRun(run) && id in AfterRun(run).core.tasks && d in AfterRun(run).core.tasks[id].dependencies
    requires var c := AfterRun(run).core;
      id in c.stamp && forall q | c.stamp[id] < q < |c.log| :: c.log[q] != Completed(d)
    ensures var c := AfterRun(run).core;
      c.tasks[id].inDegrees > 0 && NeverQueued(c.log, id) && c.tasks[id].nodeRequest.None?
  {
    var s := AfterRun(run);
    RunKeeps(run);
    InvIs(s);
    hide Inv, Within, AfterRun;
    Unfold(s.core, s.accepting, s.jobs, "", {}, None);
    TaskFlags(s.core, id, s.accepting, s.jobs);
    WaitingIsUnplaced(s.core.tasks, s.core.log, s.accepting, None, id);
  }

  lemma TaskFlags(c: Core, id: string, accepting: map<string, Accepting>, jobs: set<string>)
    requires Within(c, accepting, jobs, "", {}, None) && id in c.tasks
    ensures id in c.stamp && c.tasks[id].inDegrees == |Open(c.tasks[id].dependencies)|
    ensures forall d | d in c.tasks[id].dependencies ::
              c.tasks[id].dependencies[d] <==> CompletedIn(c.log, c.stamp[id], |c.log|, d)
    ensures c.tasks[id].inDegrees == 0 <==>
              forall d | d in c.tasks[id].dependencies :: CompletedIn(c.log, c.stamp[id], |c.log|, d)
  {
    forall d | d in c.tasks[id].dependencies
      ensures c.tasks[id].dependencies[d] <==> CompletedIn(c.log, c.stamp[id], |c.log|, d)
    {
      assert FlagAt(c.tasks[id], c.log, c.stamp[id], d);
    }
    OpenIsEmpty(c.tasks[id].dependencies);
  }

  lemma OpenIsEmpty(dependencies: map<string, bool>)
    ensures |Open(dependencies)| == 0 <==> forall d | d in dependencies :: dependencies[d]
  {
    if d :| d in dependencies && !dependencies[d] {
      assert d in Open(dependencies);
    } else {
      assert Open(dependencies) == {};
    }
  }

  /** Within a run a dependency flag never falls back, and the dependencies themselves are fixed. */
  lemma FlagsOnlyRise(run: seq<Action>, action: Action, id: string)
    requires IsRun(run) && Allowed(AfterRun(run), action)
    requires id in AfterRun(run).core.tasks && id in Step(AfterRun(run), action).core.tasks
    ensures var before, after := AfterRun(run).core.tasks[id].dependencies, Step(AfterRun(run), action).core.tasks[id].dependencies;
      && after.Keys == before.Keys
      && forall d | d in before :: before[d] ==> after[d]
  {
    var s, s' := AfterRun(run), Step(AfterRun(run), action);
    RunKeeps(run);
    StepKeeps(s, action);
    StepGrows(s, action);
    RisingFlags(s.core, s'.core, id, s.accepting, s.jobs, s'.accepting, s'.jobs);
  }

  lemma RisingFlags(c: Core, c': Core, id: string, accepting: map<string, Accepting>, jobs: set<string>, accepting': map<string, Accepting>, jobs': set<string>)
    requires Within(c, accepting, jobs, "", {}, None) && Within(c', accepting', jobs', "", {}, None)
    requires Grows(c, c') && id in c.tasks && id in c'.tasks
    ensures c'.tasks[id].dependencies.Keys == c.tasks[id].dependencies.Keys
    ensures forall d | d in c.tasks[id].dependencies :: c.tasks[id].dependencies[d] ==> c'.tasks[id].dependencies[d]
  {
    hide *;
    Unfold(c, accepting, jobs, "", {}, None);
    Unfold(c', accepting', jobs', "", {}, None);
    TaskFlags(c, id, accepting, jobs);
    TaskFlags(c', id, accepting', jobs');
    SameInsertion(c, c', id);
    forall d | d in c.tasks[id].dependencies && c.tasks[id].dependencies[d]
      ensures c'.tasks[id].dependencies[d]
    {
      CompletedStays(c.log, c'.log, c.stamp[id], d);
    }
  }

  lemma SameInsertion(c: Core, c': Core, id: string)
    requires Stamps(c.tasks, c.stamp, c.log) && Stamps(c'.tasks, c'.stamp, c'.log)
    requires Grows(c, c') && id in c.tasks && id in c'.tasks
    ensures c'.stamp[id] == c.stamp[id] && c.log <= c'.log
    ensures c'.tasks[id].dependencies.Keys == c.tasks[id].dependencies.Keys
  {
  }

  lemma CompletedStays(log: seq<Event>, log': seq<Event>, from: nat, d: string)
    requires log <= log' && CompletedIn(log, from, |log|, d)
    ensures CompletedIn(log', from, |log'|, d)
  {
  }

  /** The state in which the loop of an accepted Done starts. */
  function LoopStart(c: Core, key: string): Core
    requires key in c.tasks
  {
    c.(tasks := c.tasks[key := c.tasks[key].WithStatus(DONE)], log := c.log + [Completed(key)])
  }

  /** Wherever a Done loop stands, the in-degree it would decrement still counts the flag it would set. */
  lemma DecrementNeverUnderflows(run: seq<Action>, key: string, order: seq<string>, k: nat, id: string)
    requires IsRun(run) && key in AfterRun(run).core.tasks && IsOrder(order, AfterRun(run).core.tasks.Keys) && k <= |order|
    ensures var h := DoneSweep(LoopStart(AfterRun(run).core, key), key, order[..k]).tasks;
      id in h && key in h[id].dependencies && !h[id].dependencies[key] ==> h[id].inDegrees >= 1
  {
    hide *;
    RunKeeps(run);
    InvIs(AfterRun(run));
    OrderedIn(order, k, AfterRun(run).core.tasks.Keys);
    LoopKeepsDegrees(AfterRun(run).core, key, order[..k], AfterRun(run).accepting, AfterRun(run).jobs);
    var tasks := DoneSweep(LoopStart(AfterRun(run).core, key), key, order[..k]).tasks;
    if id in tasks && key in tasks[id].dependencies && !tasks[id].dependencies[key] {
      ClearedDegrees(tasks, id, key);
    }
  }

  lemma OrderedIn(order: seq<string>, k: nat, ids: set<string>)
    requires IsOrder(order, ids) && k <= |order|
    ensures forall i | 0 <= i < k :: order[..k][i] in ids
  {
  }

  lemma LoopKeepsDegrees(c: Core, key: string, order: seq<string>, accepting: map<string, Accepting>, jobs: set<string>)
    requires Within(c, accepting, jobs, "", {}, None) && key in c.tasks
    requires forall i | 0 <= i < |order| :: order[i] in c.tasks
    ensures Degrees(DoneSweep(LoopStart(c, key), key, order).tasks)
  {
    hide Within, DoneSweep, CompletedForAll;
    var tasks1 := c.tasks[key := c.tasks[key].WithStatus(DONE)];
    var c1 := c.(tasks := tasks1);
    var c2 := LoopStart(c, key);
    assert SameShapes(c.tasks, tasks1);
    ReshapeKeeps(c, tasks1, accepting, jobs, "", {}, None);
    CompletedKeeps(c1, accepting, jobs, key);
    Unfold(c1, accepting, jobs, "", {}, None);
    CompletionCountsForAll(tasks1, c.stamp, c.log, key);
    SweepKeeps(c2, order, accepting, jobs, key);
    Unfold(DoneSweep(c2, key, order), accepting, jobs, key, c2.tasks.Keys - Visited(order), None);
  }

  // ---------- A completion counted once ----------

  /** No task in the map waits for `key`. */
  ghost predicate NobodyWaitsFor(tasks: map<string, Handler>, key: string) {
    forall id | id in tasks && key in tasks[id].dependencies :: tasks[id].dependencies[key]
  }

  lemma {:induction false} SweepIsIdle(c: Core, key: string, order: seq<string>)
    requires NobodyWaitsFor(c.tasks, key)
    ensures DoneSweep(c, key, order) == c
    decreases |order|
  {
    if order != [] {
      SweepIsIdle(c, key, order[..|order| - 1]);
    }
  }

  /** Once nobody waits for a task, another Done for it queues nothing, recruits nothing and sets no flag. */
  lemma DoneForNobodyIsIdle(c: Core, key: string, order: seq<string>)
    requires NobodyWaitsFor(c.tasks, key)
    ensures var c' := Done(c, key, order).0;
      && c'.queue == c.queue && c'.waiters == c.waiters && c'.pool == c.pool
      && (c'.tasks == c.tasks || (key in c.tasks && c'.tasks == c.tasks[key := c.tasks[key].WithStatus(DONE)]))
  {
    if key in c.tasks {
      var c1 := Put(c, key, c.tasks[key].WithStatus(DONE));
      assert NobodyWaitsFor(c1.tasks, key) by {
        assert forall id | id in c1.tasks :: c1.tasks[id].dependencies == c.tasks[id].dependencies;
      }
      SweepIsIdle(c1.(log := c1.log + [Completed(key)]), key, order);
    }
  }

  /** After an accepted Done, nobody waits for that task any more, so repeating it is idle. */
  lemma NobodyWaitsAfterDone(c: Core, key: string, order: seq<string>, accepting: map<string, Accepting>, jobs: set<string>)
    requires Within(c, accepting, jobs, "", {}, None) && IsOrder(order, c.tasks.Keys)
    requires key in c.tasks && Done(c, key, order).1.None?
    ensures NobodyWaitsFor(Done(c, key, order).0.tasks, key)
  {
    hide Within, DoneSweep, CompletedForAll, IsOrder;
    var c' := Done(c, key, order).0;
    var tasks1 := c.tasks[key := c.tasks[key].WithStatus(DONE)];
    var c2 := c.(tasks := tasks1, log := c.log + [Completed(key)]);
    DoneIs(c, key, order);
    DoneKeeps(c, key, order, accepting, jobs);
    Unfold(c, accepting, jobs, "", {}, None);
    Unfold(c', accepting, jobs, "", {}, None);
    ReshapeKeeps(c, tasks1, accepting, jobs, "", {}, None);
    CompletedKeeps(c.(tasks := tasks1), accepting, jobs, key);
    Unfold(c.(tasks := tasks1), accepting, jobs, "", {}, None);
    CompletionCountsForAll(tasks1, c.stamp, c.log, key);
    SweepKeeps(c2, order, accepting, jobs, key);
    assert c' == DoneSweep(c2, key, order);
    forall id | id in c'.tasks && key in c'.tasks[id].dependencies
      ensures c'.tasks[id].dependencies[key]
    {
      CompletedForOne(c'.tasks, c'.stamp, c'.log, key, id);
      TaskFlags(c', id, accepting, jobs);
    }
  }

  // ---------- The needs graph ----------

  /** Dependencies exist, belong to the same job and were inserted earlier. */
  lemma NeedsAreEarlierTasksOfTheSameJob(run: seq<Action>, id: string, d: string)
    requires IsRun(run)
    requires id in AfterRun(run).core.tasks && d in AfterRun(run).core.tasks[id].dependencies
    ensures var c := AfterRun(run).core;
      && d in c.tasks && c.tasks[d].jobId == c.tasks[id].jobId
      && d in c.stamp && id in c.stamp && c.stamp[d] < c.stamp[id]
      && StampedAt(c.stamp, c.log, d) && StampedAt(c.stamp, c.log, id)
      && c.log[c.stamp[id]].deps == c.tasks[id].dependencies.Keys
  {
    RunKeeps(run);
    var c := AfterRun(run).core;
    assert GraphAt(c.tasks, c.stamp, id);
    assert StampedAt(c.stamp, c.log, d);
  }

  lemma {:induction false} PathsClimb(tasks: map<string, Handler>, stamp: map<string, nat>, path: seq<string>)
    requires Graph(tasks, stamp) && NeedsPath(tasks, path)
    ensures path[0] in stamp && path[|path| - 1] in stamp
    ensures stamp[path[0]] + |path| - 1 <= stamp[path[|path| - 1]]
    decreases |path|
  {
    var n := |path| - 1;
    assert GraphAt(tasks, stamp, path[n]);
    if n > 0 {
      assert forall i | 0 <= i < n :: path[..n][i] == path[i];
      PathsClimb(tasks, stamp, path[..n]);
      assert path[n - 1] in tasks[path[n]].dependencies;
    }
  }

  /** No task needs itself, directly or through others. */
  lemma NeedsGraphIsAcyclic(run: seq<Action>, path: seq<string>)
    requires IsRun(run) && NeedsPath(AfterRun(run).core.tasks, path) && |path| > 1
    ensures path[0] != path[|path| - 1]
  {
    RunKeeps(run);
    PathsClimb(AfterRun(run).core.tasks, AfterRun(run).core.stamp, path);
  }
}
