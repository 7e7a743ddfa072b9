/**
  The retry limit: no step counts a retry, so in every run the limit is out of reach and a failed task
  can be retried for ever.
 */
module RetryLimit {
  import opened Wrappers
  import opened Messages
  import opened Nodes
  import opened Orders
  import opened Scheduler
  import opened SchedulerInvariant
  import opened SchedulerSteps
  import opened SchedulerRuns
  import DispatchedTasks
  import SchedulerAdmission

  /** A retry queues the task exactly when its status allows it, the limit is not reached and it is ready. */
  lemma RetryQueuesExactlyTheReady(c: Core, key: string)
    ensures var (c', error) := Retry(c, key);
      var allowed := key in c.tasks && c.tasks[key].task.status in {RETRY, FAILED} && c.tasks[key].retries < MAX_RETRIES;
      && (error.None? <==> allowed)
      && c'.queue == (if allowed && c.tasks[key].Ready() then c.queue + [key] else c.queue)
      && (allowed ==> c'.tasks[key].task.status == if c.tasks[key].Ready() then PENDING else WAITING_FOR_RESOURCE)
      && c'.tasks.Keys == c.tasks.Keys
      && forall id | id in c.tasks && id != key :: c'.tasks[id] == c.tasks[id]
  {
    hide NoSuchTask, RetriesExceeded;
  }

  ghost predicate Uncounted(tasks: map<string, Handler>) {
    forall id | id in tasks :: tasks[id].retries == 0
  }

  lemma RetryCountsNothing(c: Core, key: string)
    requires Uncounted(c.tasks)
    ensures Uncounted(Retry(c, key).0.tasks)
  {
  }

  lemma FailCountsNothing(c: Core, key: string)
    requires Uncounted(c.tasks)
    ensures Uncounted(Fail(c, key).0.tasks)
  {
  }

  lemma VisitCountsNothing(c: Core, key: string, id: string)
    requires Uncounted(c.tasks)
    ensures Uncounted(DoneVisit(c, key, id).tasks)
  {
    if id in c.tasks {
      VisitIs(c, key, id);
      PlaceIs(c, id, Cleared(c.tasks[id], key));
      hide PlaceDone, DoneVisit, TaskIdOf;
    }
  }

  lemma {:induction false} SweepCountsNothing(c: Core, key: string, order: seq<string>)
    requires Uncounted(c.tasks)
    ensures Uncounted(DoneSweep(c, key, order).tasks)
    decreases |order|
  {
    hide DoneVisit, Uncounted;
    if order != [] {
      var n := |order| - 1;
      SweepCountsNothing(c, key, order[..n]);
      VisitCountsNothing(DoneSweep(c, key, order[..n]), key, order[n]);
    }
  }

  lemma DoneCountsNothing(c: Core, key: string, order: seq<string>)
    requires Uncounted(c.tasks) && IsOrder(order, c.tasks.Keys)
    ensures Uncounted(Done(c, key, order).0.tasks)
  {
    hide IsOrder, DoneSweep, Done;
    if key in c.tasks {
      DoneIs(c, key, order);
      var c1 := c.(tasks := c.tasks[key := c.tasks[key].WithStatus(DONE)]);
      SweepCountsNothing(c1.(log := c1.log + [Completed(key)]), key, order);
    } else {
      DispatchedTasks.DoneOfNothing(c, key, order);
    }
  }

  lemma UpdateCountsNothing(c: Core, task: Task, order: seq<string>)
    requires Uncounted(c.tasks) && IsOrder(order, c.tasks.Keys)
    ensures Uncounted(Update(c, task, order).tasks)
  {
    hide IsOrder, Retry, Fail, Done, Update, TaskIdOf;
    var key := TaskIdOf(task.jobId, task.name);
    UpdateIs(c, task, order);
    if key in c.tasks {
      var c1 := c.(tasks := c.tasks[key := c.tasks[key].(task := task)]);
      assert c1.tasks.Keys == c.tasks.Keys;
      RetryCountsNothing(c1, key);
      FailCountsNothing(c1, key);
      DoneCountsNothing(c1, key, order);
    }
  }

  lemma InsertCountsNothing(c: Core, id: string, jobId: string, req: TaskRequest, timeout: nat)
    requires Uncounted(c.tasks)
    ensures Uncounted(ValidateRest(c, id, NewHandler(jobId, req, timeout), jobId, req).0.tasks)
  {
    hide Find, Request, MissingNeed, NeedIds, TaskIdOf;
    assert WithNeeds(NewHandler(jobId, req, timeout), jobId, req.needs).retries == 0;
  }

  lemma RemoveCountsNothing(c: Core, jobId: string)
    requires Uncounted(c.tasks)
    ensures Uncounted(RemoveJob(c, jobId).tasks)
  {
  }

  lemma AcceptCountsNothing(s: System, jobId: string)
    requires Within(s.core, s.accepting, s.jobs, "", {}, None) && Uncounted(s.core.tasks)
    ensures Uncounted(AcceptStep(s, jobId).core.tasks)
  {
    hide *;
    AcceptNothing(s, jobId);
    if jobId in s.accepting {
      if s.accepting[jobId].rest == [] {
        SchedulerAdmission.PushedIds(s.core, s.accepting[jobId].ready);
      } else {
        var c, sub := s.core, s.accepting[jobId].rest[0];
        var id := TaskIdOf(jobId, sub.req.name);
        Unfold(c, s.accepting, s.jobs, "", {}, None);
        StampedTasks(c.tasks, c.stamp, c.log);
        NextIsUnclaimed(c.tasks, c.stamp, jobId, s.accepting, s.jobs);
        AcceptStepIs(s, jobId);
        RemoveCountsNothing(c, jobId);
        if sub.timeout.Some? {
          InsertCountsNothing(c, id, jobId, sub.req, sub.timeout.value);
          RemoveCountsNothing(ValidateRest(c, id, NewHandler(jobId, sub.req, sub.timeout.value), jobId, sub.req).0, jobId);
        }
      }
    }
  }

  lemma StepCountsNothing(s: System, action: Action)
    requires Inv(s) && Allowed(s, action) && Uncounted(s.core.tasks)
    ensures Uncounted(Step(s, action).core.tasks)
  {
    InvIs(s);
    hide Within, AcceptStep, Register, Next, Update, Retry, IsOrder, TaskIdOf, Inv, Drop;
    match action
    case Submit(jobId, subs) =>
    case Accept(jobId) => AcceptCountsNothing(s, jobId);
    case Join(node) =>
    case Receive(t) =>
    case Dispatch => NextIs(s.core);
    case Interrupt =>
    case Report(task, order) => UpdateCountsNothing(s.core, task, order);
    case RetryTask(key) => RetryCountsNothing(s.core, key);
  }

  lemma {:induction false} NoRetryIsCounted(run: seq<Action>)
    requires IsRun(run)
    ensures Uncounted(AfterRun(run).core.tasks)
    decreases |run|
  {
    hide Inv, Step, Allowed, Uncounted;
    if run == [] {
      NothingToCount();
    } else {
      var n := |run| - 1;
      NoRetryIsCounted(run[..n]);
      RunKeeps(run[..n]);
      StepCountsNothing(AfterRun(run[..n]), run[n]);
    }
  }

  lemma NothingToCount()
    ensures Uncounted(EmptySystem().core.tasks)
  {
  }

  /** In no run is any retry refused for the limit: the only refusals are for the status or a missing task. */
  lemma RetryLimitIsNeverReached(run: seq<Action>, key: string)
    requires IsRun(run)
    ensures var c := AfterRun(run).core;
      Retry(c, key).1.None? <==> key in c.tasks && c.tasks[key].task.status in {RETRY, FAILED}
  {
    NoRetryIsCounted(run);
    RetryQueuesExactlyTheReady(AfterRun(run).core, key);
    hide Retry, AfterRun;
  }
}
