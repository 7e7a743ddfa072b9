/**
  What run_task may rely on: a task that was ever queued keeps its receiver, so the snapshot that is
  dispatched still names the right one when the domain manager reports on it later.
 */
module DispatchedTasks {
  import opened Wrappers
  import opened Messages
  import opened Nodes
  import opened Orders
  import opened Scheduler
  import opened SchedulerInvariant
  import opened SchedulerSteps
  import opened SchedulerRuns
  import opened SchedulerProperties
  import SchedulerAdmission

  ghost predicate EverQueued(log: seq<Event>, id: string) {
    exists cause :: Enqueued(id, cause) in log
  }

  /** The task at `id` was there before, if it still is, and has the same receiver. */
  ghost predicate SameReceiver(tasks: map<string, Handler>, tasks': map<string, Handler>, id: string) {
    id in tasks' ==> id in tasks && tasks'[id].task.receiver == tasks[id].task.receiver
  }

  /** A queued task waits for nothing: it has a receiver, no open flag and no request. */
  lemma QueuedWaitsForNothing(c: Core, accepting: map<string, Accepting>, jobs: set<string>, id: string)
    requires Within(c, accepting, jobs, "", {}, None) && EverQueued(c.log, id)
    ensures id in c.stamp
    ensures id in c.tasks ==>
      && c.tasks[id].Ready() && c.tasks[id].nodeRequest.None?
      && forall d | d in c.tasks[id].dependencies :: c.tasks[id].dependencies[d]
  {
    hide Within;
    Unfold(c, accepting, jobs, "", {}, None);
    var cause :| Enqueued(id, cause) in c.log;
    var i :| 0 <= i < |c.log| && c.log[i] == Enqueued(id, cause);
    assert c.log[i].id in c.stamp;
    if id in c.tasks {
      QueuedIsIdle(c.tasks, c.log, c.waiters, c.pool.channels.Keys, accepting, id);
    }
  }

  lemma QueuedIsIdle(tasks: map<string, Handler>, log: seq<Event>, waiters: map<Ticket, string>, channels: set<Ticket>,
                     accepting: map<string, Accepting>, id: string)
    requires ReadyOnes(tasks, log, accepting) && Degrees(tasks) && Requests(tasks, waiters, channels)
    requires EverQueued(log, id) && id in tasks
    ensures tasks[id].Ready() && tasks[id].nodeRequest.None?
    ensures forall d | d in tasks[id].dependencies :: tasks[id].dependencies[d]
  {
    assert ReadyAt(tasks[id], log, accepting, id);
    assert Open(tasks[id].dependencies) == {};
    forall d | d in tasks[id].dependencies
      ensures tasks[id].dependencies[d]
    {
      assert d !in Open(tasks[id].dependencies);
    }
  }

  // ---------- A Done loop does not touch it ----------

  lemma PlacesOnlyItself(c: Core, v: string, h: Handler)
    ensures var c' := PlaceDone(c, v, h); c'.tasks.Keys == c.tasks.Keys + {v} && forall id | id in c.tasks && id != v :: c'.tasks[id] == c.tasks[id]
  {
    hide PlaceDone, TaskIdOf;
    PlaceIs(c, v, h);
  }

  lemma VisitLeaves(c: Core, key: string, v: string, id: string)
    requires id in c.tasks && (key in c.tasks[id].dependencies ==> c.tasks[id].dependencies[key])
    ensures id in DoneVisit(c, key, v).tasks && DoneVisit(c, key, v).tasks[id] == c.tasks[id]
  {
    if v in c.tasks {
      VisitIs(c, key, v);
      PlacesOnlyItself(c, v, Cleared(c.tasks[v], key));
      hide PlaceDone, DoneVisit;
    }
  }

  lemma {:induction false} SweepLeaves(c: Core, key: string, order: seq<string>, id: string)
    requires id in c.tasks && (key in c.tasks[id].dependencies ==> c.tasks[id].dependencies[key])
    ensures id in DoneSweep(c, key, order).tasks && DoneSweep(c, key, order).tasks[id] == c.tasks[id]
    decreases |order|
  {
    hide DoneVisit;
    if order != [] {
      var n := |order| - 1;
      SweepLeaves(c, key, order[..n], id);
      VisitLeaves(DoneSweep(c, key, order[..n]), key, order[n], id);
    }
  }

  // ---------- Neither does any other step ----------

  lemma RetryKeepsReceivers(c: Core, key: string, id: string)
    ensures SameReceiver(c.tasks, Retry(c, key).0.tasks, id)
  {
    if key in c.tasks {
      RetryIs(c, key);
      hide Retry;
    }
  }

  lemma FailKeepsReceivers(c: Core, key: string, id: string)
    ensures SameReceiver(c.tasks, Fail(c, key).0.tasks, id)
  {
  }

  lemma DoneKeepsReceivers(c: Core, key: string, order: seq<string>, id: string)
    requires IsOrder(order, c.tasks.Keys) && id in c.tasks
    requires key in c.tasks[id].dependencies ==> c.tasks[id].dependencies[key]
    ensures SameReceiver(c.tasks, Done(c, key, order).0.tasks, id)
  {
    hide IsOrder, DoneSweep, Done;
    if key in c.tasks {
      DoneIs(c, key, order);
      var c1 := c.(tasks := c.tasks[key := c.tasks[key].WithStatus(DONE)]);
      SweepLeaves(c1.(log := c1.log + [Completed(key)]), key, order, id);
    } else {
      DoneOfNothing(c, key, order);
    }
  }

  lemma DoneOfNothing(c: Core, key: string, order: seq<string>)
    requires key !in c.tasks
    ensures Done(c, key, order).0 == c
  {
  }

  lemma UpdateKeepsReceivers(c: Core, task: Task, order: seq<string>, id: string)
    requires IsOrder(order, c.tasks.Keys) && id in c.tasks
    requires var key := TaskIdOf(task.jobId, task.name);
      && (key in c.tasks ==> task.receiver == c.tasks[key].task.receiver)
      && (key in c.tasks[id].dependencies ==> c.tasks[id].dependencies[key])
    ensures SameReceiver(c.tasks, Update(c, task, order).tasks, id)
  {
    hide IsOrder, Retry, Fail, Done, Update, TaskIdOf;
    var key := TaskIdOf(task.jobId, task.name);
    UpdateIs(c, task, order);
    if key in c.tasks {
      var c1 := c.(tasks := c.tasks[key := c.tasks[key].(task := task)]);
      assert c1.tasks.Keys == c.tasks.Keys;
      RetryKeepsReceivers(c1, key, id);
      FailKeepsReceivers(c1, key, id);
      DoneKeepsReceivers(c1, key, order, id);
    }
  }

  /** Nothing brings a task back whose id was used before. */
  lemma GoneStaysGone(c: Core, task: Task, order: seq<string>, id: string)
    requires IsOrder(order, c.tasks.Keys) && id !in c.tasks
    ensures id !in Update(c, task, order).tasks
  {
    hide IsOrder, Retry, Fail, Done, Update, TaskIdOf;
    var key := TaskIdOf(task.jobId, task.name);
    UpdateIs(c, task, order);
    if key in c.tasks {
      var c1 := c.(tasks := c.tasks[key := c.tasks[key].(task := task)]);
      assert c1.tasks.Keys == c.tasks.Keys;
      RetryKeepsReceivers(c1, key, id);
      FailKeepsReceivers(c1, key, id);
      DoneKeepsKeys(c1, key, order);
    }
  }

  lemma DoneKeepsKeys(c: Core, key: string, order: seq<string>)
    requires IsOrder(order, c.tasks.Keys) && key in c.tasks
    ensures Done(c, key, order).0.tasks.Keys == c.tasks.Keys
  {
    hide IsOrder, DoneSweep, Done;
    DoneIs(c, key, order);
    var c1 := c.(tasks := c.tasks[key := c.tasks[key].WithStatus(DONE)]);
    SweepKeepsKeys(c1.(log := c1.log + [Completed(key)]), key, order);
  }

  lemma {:induction false} SweepKeepsKeys(c: Core, key: string, order: seq<string>)
    ensures DoneSweep(c, key, order).tasks.Keys == c.tasks.Keys
    decreases |order|
  {
    hide DoneVisit;
    if order != [] {
      var n := |order| - 1;
      SweepKeepsKeys(c, key, order[..n]);
      VisitKeepsKeys(DoneSweep(c, key, order[..n]), key, order[n]);
    }
  }

  lemma DeliverKeepsReceivers(c: Core, t: Ticket, id: string)
    requires id in c.tasks ==> c.tasks[id].nodeRequest.None?
    requires t in c.waiters && c.waiters[t] in c.tasks ==> c.tasks[c.waiters[t]].nodeRequest.Some?
    ensures SameReceiver(c.tasks, Deliver(c, t).tasks, id)
  {
  }

  lemma AcceptKeepsReceivers(s: System, jobId: string, id: string)
    requires Within(s.core, s.accepting, s.jobs, "", {}, None) && id in s.core.stamp
    ensures SameReceiver(s.core.tasks, AcceptStep(s, jobId).core.tasks, id)
  {
    hide *;
    AcceptNothing(s, jobId);
    SameReceiverItself(s.core.tasks, id);
    if jobId in s.accepting {
      if s.accepting[jobId].rest == [] {
        SchedulerAdmission.PushedIds(s.core, s.accepting[jobId].ready);
      } else {
        AcceptNextKeepsReceivers(s, jobId, id);
      }
    }
  }

  lemma SameReceiverItself(tasks: map<string, Handler>, id: string)
    ensures SameReceiver(tasks, tasks, id)
  {
  }

  lemma SameReceiverRemoved(tasks: map<string, Handler>, jobId: string, id: string)
    ensures SameReceiver(tasks, Others(tasks, jobId), id)
  {
  }

  lemma AcceptNextKeepsReceivers(s: System, jobId: string, id: string)
    requires Within(s.core, s.accepting, s.jobs, "", {}, None) && id in s.core.stamp
    requires jobId in s.accepting && s.accepting[jobId].rest != []
    ensures SameReceiver(s.core.tasks, AcceptStep(s, jobId).core.tasks, id)
  {
    hide *;
    var c, sub := s.core, s.accepting[jobId].rest[0];
    var new_ := TaskIdOf(jobId, sub.req.name);
    Unfold(c, s.accepting, s.jobs, "", {}, None);
    StampedTasks(c.tasks, c.stamp, c.log);
    NextIsUnclaimed(c.tasks, c.stamp, jobId, s.accepting, s.jobs);
    AcceptStepIs(s, jobId);
    SchedulerAdmission.RemovedIs(c, jobId);
    SameReceiverRemoved(c.tasks, jobId, id);
    if sub.timeout.Some? {
      InsertsOnlyItself(c, new_, NewHandler(jobId, sub.req, sub.timeout.value), jobId, sub.req, id);
      NewHandlerIsUnplaced(jobId, sub.req, sub.timeout.value);
      SchedulerAdmission.ValidateTouches(c, new_, NewHandler(jobId, sub.req, sub.timeout.value), jobId, sub.req);
    }
  }

  lemma InsertsOnlyItself(c: Core, new_: string, h: Handler, jobId: string, req: TaskRequest, id: string)
    requires id != new_
    ensures SameReceiver(c.tasks, ValidateRest(c, new_, h, jobId, req).0.tasks, id)
  {
    hide Find, Request, MissingNeed;
  }

  lemma StepKeepsReceivers(s: System, action: Action, id: string)
    requires Inv(s) && Allowed(s, action) && EverQueued(s.core.log, id)
    ensures SameReceiver(s.core.tasks, Step(s, action).core.tasks, id)
  {
    InvIs(s);
    hide Within, AcceptStep, Register, Deliver, Next, Update, Retry, IsOrder, SameReceiver, EverQueued, TaskIdOf, Inv;
    var c := s.core;
    QueuedWaitsForNothing(c, s.accepting, s.jobs, id);
    SameReceiverItself(c.tasks, id);
    match action
    case Submit(jobId, subs) =>
    case Accept(jobId) => AcceptKeepsReceivers(s, jobId, id);
    case Join(node) =>
    case Receive(t) =>
      WaitersHaveRequests(c, s.accepting, s.jobs, t);
      DeliverKeepsReceivers(c, t, id);
    case Dispatch => NextIs(c);
    case Interrupt =>
    case Report(task, order) =>
      if id in c.tasks {
        UpdateKeepsReceivers(c, task, order, id);
      } else {
        GoneStaysGone(c, task, order, id);
        GoneHasNone(c.tasks, Update(c, task, order).tasks, id);
      }
    case RetryTask(key) => RetryKeepsReceivers(c, key, id);
  }

  lemma GoneHasNone(tasks: map<string, Handler>, tasks': map<string, Handler>, id: string)
    requires id !in tasks'
    ensures SameReceiver(tasks, tasks', id)
  {
  }

  lemma WaitersHaveRequests(c: Core, accepting: map<string, Accepting>, jobs: set<string>, t: Ticket)
    requires Within(c, accepting, jobs, "", {}, None)
    ensures t in c.waiters ==> c.waiters[t] in c.tasks && c.tasks[c.waiters[t]].nodeRequest.Some?
  {
  }

  lemma QueuedStaysQueued(s: System, action: Action, id: string)
    requires Inv(s) && EverQueued(s.core.log, id)
    ensures EverQueued(Step(s, action).core.log, id)
  {
    hide Inv, Step;
    StepGrows(s, action);
    var cause :| Enqueued(id, cause) in s.core.log;
    var i :| 0 <= i < |s.core.log| && s.core.log[i] == Enqueued(id, cause);
    assert Step(s, action).core.log[i] == Enqueued(id, cause);
  }

  /**
    From the moment a task has been queued, its receiver is the same in every later state in which it
    still exists. The reports that run_task makes for a dispatched snapshot are therefore allowed.
   */
  lemma {:induction false} ReceiverIsStable(run: seq<Action>, k: nat, id: string)
    requires IsRun(run) && k <= |run|
    requires EverQueued(AfterRun(run[..k]).core.log, id)
    ensures SameReceiver(AfterRun(run[..k]).core.tasks, AfterRun(run).core.tasks, id)
    ensures EverQueued(AfterRun(run).core.log, id) && IsRun(run[..k])
    decreases |run|
  {
    hide *;
    SameReceiverItself(AfterRun(run).core.tasks, id);
    if k == |run| {
      assert run[..k] == run;
    } else {
      var n := |run| - 1;
      LastStep(run);
      assert run[..n][..k] == run[..k];
      ReceiverIsStable(run[..n], k, id);
      RunKeeps(run[..n]);
      StepKeepsReceivers(AfterRun(run[..n]), run[n], id);
      QueuedStaysQueued(AfterRun(run[..n]), run[n], id);
      SameReceiverFurther(AfterRun(run[..k]).core.tasks, AfterRun(run[..n]).core.tasks, AfterRun(run).core.tasks, id);
    }
  }

  lemma LastStep(run: seq<Action>)
    requires IsRun(run) && run != []
    ensures var n := |run| - 1;
      IsRun(run[..n]) && Allowed(AfterRun(run[..n]), run[n]) && AfterRun(run) == Step(AfterRun(run[..n]), run[n])
  {
  }

  lemma SameReceiverFurther(tasks: map<string, Handler>, tasks': map<string, Handler>, tasks'': map<string, Handler>, id: string)
    requires SameReceiver(tasks, tasks', id) && SameReceiver(tasks', tasks'', id)
    ensures SameReceiver(tasks, tasks'', id)
  {
  }

  lemma QueuedIdsWereQueued(c: Core)
    requires Fifo(c.queue, c.log) && c.queue != []
    ensures EverQueued(c.log, c.queue[0])
  {
    var id := c.queue[0];
    var n := |TakenIds(c.log)|;
    assert EnqueuedIds(c.log)[n] == id;
    EnqueuedIdsAreLogged(c.log, id);
  }

  lemma SnapshotIs(c: Core, accepting: map<string, Accepting>, jobs: set<string>)
    requires Within(c, accepting, jobs, "", {}, None) && c.queue != [] && c.queue[0] in c.tasks
    ensures EverQueued(c.log, c.queue[0]) && Keyed(c.queue[0], c.tasks[c.queue[0]])
  {
    hide Within;
    Unfold(c, accepting, jobs, "", {}, None);
    QueuedIdsWereQueued(c);
  }

  /**
    A worker's snapshot never goes stale where it matters: whatever has happened since its dispatch,
    reporting it with a new status, output or token is an allowed step.
   */
  lemma DispatchedSnapshotMayReport(run: seq<Action>, k: nat, status: Status, output: Option<Any>, token: Option<string>, order: seq<string>)
    requires IsRun(run) && k < |run| && run[k] == Dispatch && Next(AfterRun(run[..k]).core).1.Some?
    requires IsOrder(order, AfterRun(run).core.tasks.Keys)
    ensures var snapshot := Next(AfterRun(run[..k]).core).1.value.task;
      && snapshot.receiver.Some?
      && Allowed(AfterRun(run), Report(snapshot.(status := status, output := output, accessToken := token), order))
  {
    hide AfterRun, IsRun, Inv, Within, EverQueued, TaskIdOf, IsOrder;
    var s := AfterRun(run[..k]);
    var id := s.core.queue[0];
    IsRunPrefix(run, k);
    RunKeeps(run[..k]);
    InvIs(s);
    SnapshotIs(s.core, s.accepting, s.jobs);
    QueuedWaitsForNothing(s.core, s.accepting, s.jobs, id);
    ReceiverIsStable(run, k, id);
  }

  lemma {:induction false} IsRunPrefix(run: seq<Action>, k: nat)
    requires IsRun(run) && k <= |run|
    ensures IsRun(run[..k])
    decreases |run|
  {
    hide Allowed;
    if k < |run| {
      IsRunPrefix(run[..|run| - 1], k);
      assert run[..|run| - 1][..k] == run[..k];
    } else {
      assert run[..k] == run;
    }
  }
}
