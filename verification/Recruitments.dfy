/**
  Runs in which no recruitment is aborted: then no task waits for a node while one that it could use is
  free. An abort is the refusal of a job one of whose tasks waits; nothing else in a run is one.
 */
module Recruitments {
  import opened Wrappers
  import opened Messages
  import opened Nodes
  import opened Orders
  import opened Scheduler
  import opened SchedulerInvariant
  import opened SchedulerSteps
  import opened SchedulerRuns
  import opened NodesProperties
  import Codec
  import SchedulerAdmission
  import DispatchedTasks

  /** A step of accept_job that refuses a job with a task that waits for its node. */
  ghost predicate Aborts(s: System, action: Action) {
    && action.Accept? && action.jobId in s.accepting && s.accepting[action.jobId].rest != []
    && action.jobId !in AcceptStep(s, action.jobId).accepting
    && RequestsOf(s.core.tasks, action.jobId) != {}
  }

  ghost predicate NothingAborted(run: seq<Action>) {
    forall k | 0 <= k < |run| :: !Aborts(AfterRun(run[..k]), run[k])
  }

  // ---------- Done ----------

  lemma PlaceKeepsCalm(c: Core, id: string, h: Handler)
    requires Calm(c.pool) && h.nodeRequest.None?
    ensures Calm(PlaceDone(c, id, h).pool)
  {
    hide Calm, Find, Request, TaskIdOf, Codec.ErrorOutput;
    RecruitingKeepsCalm(c.pool, h.capabilityFilters.endpoint);
  }

  lemma VisitKeepsCalm(c: Core, key: string, id: string, accepting: map<string, Accepting>, jobs: set<string>, todo: set<string>)
    requires Within(c, accepting, jobs, key, todo, None) && id in c.tasks
    requires CompletedForAll(c.tasks, c.stamp, c.log, key) && Calm(c.pool)
    ensures Calm(DoneVisit(c, key, id).pool)
  {
    hide *;
    VisitIs(c, key, id);
    if key in c.tasks[id].dependencies && !c.tasks[id].dependencies[key] {
      CompletedForOne(c.tasks, c.stamp, c.log, key, id);
      ClearKeeps(c, id, accepting, jobs, key, todo);
      ClearedRequest(c.tasks[id], key);
      PlaceKeepsCalm(c, id, Cleared(c.tasks[id], key));
    }
  }

  lemma ClearedRequest(h: Handler, key: string)
    ensures Cleared(h, key).nodeRequest == h.nodeRequest
  {
  }

  lemma {:induction false} SweepKeepsCalm(c: Core, order: seq<string>, accepting: map<string, Accepting>, jobs: set<string>, key: string)
    requires Within(c, accepting, jobs, key, c.tasks.Keys, None) && Calm(c.pool)
    requires CompletedForAll(c.tasks, c.stamp, c.log, key)
    requires forall i | 0 <= i < |order| :: order[i] in c.tasks
    ensures Calm(DoneSweep(c, key, order).pool)
    decreases |order|
  {
    hide Within, CompletedForAll, DoneVisit, Calm;
    if order != [] {
      var n := |order| - 1;
      SweepKeepsCalm(c, order[..n], accepting, jobs, key);
      SweepKeeps(c, order[..n], accepting, jobs, key);
      VisitKeepsCalm(DoneSweep(c, key, order[..n]), key, order[n], accepting, jobs, c.tasks.Keys - Visited(order[..n]));
    }
  }

  lemma DoneKeepsCalm(c: Core, key: string, order: seq<string>, accepting: map<string, Accepting>, jobs: set<string>)
    requires Within(c, accepting, jobs, "", {}, None) && IsOrder(order, c.tasks.Keys) && Calm(c.pool)
    ensures Calm(Done(c, key, order).0.pool)
  {
    hide Within, CompletedForAll, DoneSweep, Done, IsOrder, Calm;
    if key in c.tasks {
      DoneIs(c, key, order);
      if Done(c, key, order).0 != c {
        var tasks1 := c.tasks[key := c.tasks[key].WithStatus(DONE)];
        var c1 := c.(tasks := tasks1);
        var c2 := c1.(log := c1.log + [Completed(key)]);
        ReshapeKeeps(c, tasks1, accepting, jobs, "", {}, None);
        CompletedKeeps(c1, accepting, jobs, key);
        Unfold(c1, accepting, jobs, "", {}, None);
        CompletionCountsForAll(tasks1, c.stamp, c.log, key);
        SweepKeepsCalm(c2, order, accepting, jobs, key);
      }
    } else {
      DispatchedTasks.DoneOfNothing(c, key, order);
    }
  }

  lemma RetryKeepsPool(c: Core, key: string)
    ensures Retry(c, key).0.pool == c.pool
  {
  }

  lemma FailKeepsPool(c: Core, key: string)
    ensures Fail(c, key).0.pool == c.pool
  {
  }

  lemma ReportKeepsCalm(c: Core, task: Task, order: seq<string>, accepting: map<string, Accepting>, jobs: set<string>)
    requires Within(c, accepting, jobs, "", {}, None) && Calm(c.pool)
    requires IsOrder(order, c.tasks.Keys) && NoDash(task.jobId)
    requires TaskIdOf(task.jobId, task.name) in c.tasks ==> task.receiver == c.tasks[TaskIdOf(task.jobId, task.name)].task.receiver
    ensures Calm(Update(c, task, order).pool)
  {
    hide *;
    var key := TaskIdOf(task.jobId, task.name);
    UpdateIs(c, task, order);
    if key in c.tasks {
      var tasks1 := c.tasks[key := c.tasks[key].(task := task)];
      var c1 := c.(tasks := tasks1);
      Unfold(c, accepting, jobs, "", {}, None);
      ReportedShape(c.tasks, task);
      ReshapeKeeps(c, tasks1, accepting, jobs, "", {}, None);
      assert tasks1.Keys == c.tasks.Keys;
      RetryKeepsPool(c1, key);
      FailKeepsPool(c1, key);
      DoneKeepsCalm(c1, key, order, accepting, jobs);
    }
  }

  // ---------- accept_job ----------

  lemma {:induction false} PushKeepsPool(c: Core, ids: seq<string>)
    ensures Push(c, ids).pool == c.pool
    decreases |ids|
  {
    if ids != [] { PushKeepsPool(c, ids[..|ids| - 1]); }
  }

  lemma InsertKeepsCalm(c: Core, jobId: string, req: TaskRequest, timeout: nat)
    requires Calm(c.pool)
    ensures Calm(ValidateRest(c, TaskIdOf(jobId, req.name), NewHandler(jobId, req, timeout), jobId, req).0.pool)
  {
    hide Calm, Find, Request, MissingNeed, NeedIds, TaskIdOf;
    RecruitingKeepsCalm(c.pool, req.capabilityFilters.endpoint);
  }

  lemma RemovingNobodyKeepsPool(c: Core, jobId: string)
    requires RequestsOf(c.tasks, jobId) == {}
    ensures RemoveJob(c, jobId).pool == c.pool
  {
  }

  lemma AcceptKeepsCalm(s: System, jobId: string)
    requires Within(s.core, s.accepting, s.jobs, "", {}, None) && Calm(s.core.pool) && !Aborts(s, Accept(jobId))
    ensures Calm(AcceptStep(s, jobId).core.pool)
  {
    hide *;
    AcceptNothing(s, jobId);
    if jobId in s.accepting {
      if s.accepting[jobId].rest == [] {
        PushKeepsPool(s.core, s.accepting[jobId].ready);
      } else {
        var c, sub := s.core, s.accepting[jobId].rest[0];
        var id := TaskIdOf(jobId, sub.req.name);
        Unfold(c, s.accepting, s.jobs, "", {}, None);
        StampedTasks(c.tasks, c.stamp, c.log);
        NextIsUnclaimed(c.tasks, c.stamp, jobId, s.accepting, s.jobs);
        AcceptStepIs(s, jobId);
        AbortsIs(s, jobId);
        if sub.timeout.Some? {
          InsertKeepsCalm(c, jobId, sub.req, sub.timeout.value);
          NewHandlerIsUnplaced(jobId, sub.req, sub.timeout.value);
          SchedulerAdmission.ValidateTouches(c, id, NewHandler(jobId, sub.req, sub.timeout.value), jobId, sub.req);
        }
        if jobId !in AcceptStep(s, jobId).accepting {
          RemovingNobodyKeepsPool(c, jobId);
        }
      }
    }
  }

  lemma AbortsIs(s: System, jobId: string)
    requires jobId in s.accepting && s.accepting[jobId].rest != [] && !Aborts(s, Accept(jobId))
    ensures jobId !in AcceptStep(s, jobId).accepting ==> RequestsOf(s.core.tasks, jobId) == {}
  {
  }

  // ---------- Runs ----------

  lemma DeliverKeepsCalm(c: Core, t: Ticket)
    requires Calm(c.pool)
    ensures Calm(Deliver(c, t).pool)
  {
    hide Calm, Drop;
    if t in c.pool.channels && c.pool.channels[t].node.Some? { ReceivingKeepsCalm(c.pool, t); }
  }

  lemma StepKeepsCalm(s: System, action: Action)
    requires Inv(s) && Allowed(s, action) && Calm(s.core.pool) && !Aborts(s, action)
    ensures Calm(Step(s, action).core.pool)
  {
    InvIs(s);
    hide Within, AcceptStep, Register, Deliver, Next, Update, Retry, IsOrder, TaskIdOf, Inv, Calm, Aborts;
    var c := s.core;
    match action
    case Submit(jobId, subs) =>
    case Accept(jobId) => AcceptKeepsCalm(s, jobId);
    case Join(node) => JoiningKeepsCalm(c.pool, node);
    case Receive(t) => DeliverKeepsCalm(c, t);
    case Dispatch => NextIs(c);
    case Interrupt =>
    case Report(task, order) => ReportKeepsCalm(c, task, order, s.accepting, s.jobs);
    case RetryTask(key) => RetryKeepsPool(c, key);
  }

  lemma {:induction false} RunKeepsCalm(run: seq<Action>)
    requires IsRun(run) && NothingAborted(run)
    ensures Calm(AfterRun(run).core.pool)
    decreases |run|
  {
    hide Inv, Step, Allowed, Calm, Aborts;
    if run == [] {
      CalmAtFirst();
    } else {
      var n := |run| - 1;
      assert forall k | 0 <= k < n :: run[..n][..k] == run[..k] && run[..n][k] == run[k];
      assert !Aborts(AfterRun(run[..n]), run[n]);
      RunKeepsCalm(run[..n]);
      RunKeeps(run[..n]);
      StepKeepsCalm(AfterRun(run[..n]), run[n]);
    }
  }

  /**
    In every run without an abort, at every endpoint: no ticket is queued or no node is pooled. A
    task that waits for a node is then really without one.
   */
  lemma NoStarvationWithoutAborts(run: seq<Action>, e: string, id: string)
    requires IsRun(run) && NothingAborted(run)
    ensures var c := AfterRun(run).core;
      && (Waiting(c.pool, e) == [] || Pool(c.pool, e) == [])
      && (id in c.tasks && c.tasks[id].nodeRequest.Some? ==>
            var t := c.tasks[id].nodeRequest.value;
            && t in c.pool.channels
            && (c.pool.channels[t].node.None? ==> Pool(c.pool, c.pool.channels[t].endpoint) == []))
  {
    hide NothingAborted;
    RunKeeps(run);
    RunKeepsCalm(run);
    hide IsRun, AfterRun;
    var c := AfterRun(run).core;
    QueueOrPool(c.pool, e);
    if id in c.tasks && c.tasks[id].nodeRequest.Some? {
      WaitsInItsQueue(AfterRun(run), id);
      QueueOrPool(c.pool, c.pool.channels[c.tasks[id].nodeRequest.value].endpoint);
    }
  }

  lemma WaitsInItsQueue(s: System, id: string)
    requires Inv(s) && id in s.core.tasks && s.core.tasks[id].nodeRequest.Some?
    ensures var c, t := s.core, s.core.tasks[id].nodeRequest.value;
      && t in c.pool.channels
      && (c.pool.channels[t].node.None? ==> Waiting(c.pool, c.pool.channels[t].endpoint) != [])
  {
  }
}
