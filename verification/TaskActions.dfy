/**
  The actions on one task, field by field: what a report, a retry and a request for a known task do, read
  off the status alone.
 */
module TaskActions {
  import opened Wrappers
  import opened Messages
  import opened Nodes
  import opened Orders
  import opened Scheduler
  import opened SchedulerInvariant
  import opened SchedulerSteps
  import opened SchedulerRuns
  import Codec
  import Utf8

  /** Nothing but the task map is different. */
  ghost predicate OnlyTasks(c: Core, c': Core) {
    c' == c.(tasks := c'.tasks)
  }

  /** Status and output may change, and nothing else of the task. */
  ghost predicate OnlyStatus(h: Handler, h': Handler, status: Status) {
    h' == h.(task := h.task.(status := status))
  }

  /** The output of a task past the retry limit. */
  ghost predicate SaysLimit(output: Option<Any>) {
    output.Some? && output.value.typeUrl == "Error" && Utf8.Decode(output.value.value) == Some("Task failed after 3 retries")
  }

  lemma LimitOutput()
    ensures SaysLimit(Some(RetriesExceeded()))
  {
    Utf8.RoundTrip("Task failed after 3 retries");
    hide Utf8.Decode, Utf8.Encode;
  }

  // ---------- Retry ----------

  /** A Retry: refused for any status but RETRY and FAILED, failed for good after three, else waiting or queued. */
  lemma RetryTable(c: Core, key: string)
    ensures var (c', error) := Retry(c, key);
      if key !in c.tasks then c' == c && error == Some(TaskNotFound("Task " + key + " not found"))
      else
        var h := c.tasks[key];
        if h.task.status != RETRY && h.task.status != FAILED then c' == c && error == Some(TaskAlreadyExists)
        else if h.retries >= 3 then
          && error == Some(RetryLimitReached) && OnlyTasks(c, c') && key in c'.tasks && c'.tasks == c.tasks[key := c'.tasks[key]]
          && OnlyStatus(h.(task := h.task.(output := c'.tasks[key].task.output)), c'.tasks[key], FAILED)
          && SaysLimit(c'.tasks[key].task.output)
        else
          && error == None && key in c'.tasks && c'.tasks == c.tasks[key := c'.tasks[key]]
          && if h.inDegrees == 0 && h.task.receiver.Some? then
               && OnlyStatus(h, c'.tasks[key], PENDING)
               && c' == c.(tasks := c'.tasks, queue := c.queue + [key], log := c.log + [Enqueued(key, Retried)])
             else
               OnlyTasks(c, c') && OnlyStatus(h, c'.tasks[key], WAITING_FOR_RESOURCE)
  {
    LimitOutput();
    hide SaysLimit, RetriesExceeded;
  }

  // ---------- A request for a task that exists ----------

  /** validate_task for a known task, by its status; only a RETRY or FAILED one is looked at further. */
  lemma KnownTaskTable(c: Core, jobId: string, req: TaskRequest, timeout: Option<nat>)
    requires TaskIdOf(jobId, req.name) in c.tasks
    ensures var h := c.tasks[TaskIdOf(jobId, req.name)];
      var (c', r) := Validate(c, jobId, req, timeout);
      && (timeout.None? ==> c' == c && r == Err(OtherError))
      && (timeout.Some? ==>
            && (h.task.status == WAITING_FOR_RESOURCE ==> c' == c && r == Ok(h.inDegrees == 0 && h.task.receiver.Some?))
            && (h.task.status == DONE ==> c' == c && r == Ok(true))
            && (h.task.status in {PENDING, STARTED, PROCESSING} ==> c' == c && r == Err(TaskAlreadyExists))
            && (h.task.status in {RETRY, FAILED} && h.retries >= 3 ==> OnlyTasks(c, c') && r == Err(RetryLimitReached)))
  {
    hide ValidateRest, RetriesExceeded, NoSuchTask, TaskIdOf;
  }

  lemma SameMissing(tasks: map<string, Handler>, tasks': map<string, Handler>, jobId: string, needs: seq<string>)
    requires tasks'.Keys == tasks.Keys
    ensures MissingNeed(tasks', jobId, needs) == MissingNeed(tasks, jobId, needs)
  {
  }

  /** A known task that may be retried, requested with needs: it waits for all of them again, though the retry may have queued it. */
  lemma KnownTaskWaitsAgain(c: Core, jobId: string, req: TaskRequest, timeout: nat)
    requires TaskIdOf(jobId, req.name) in c.tasks && req.needs != []
    requires var h := c.tasks[TaskIdOf(jobId, req.name)]; h.task.status in {RETRY, FAILED} && h.retries < 3
    ensures var id := TaskIdOf(jobId, req.name);
      var (c', r) := Validate(c, jobId, req, Some(timeout));
      if NeedIds(jobId, req.needs) <= c.tasks.Keys then
        && r == Ok(false) && id in c'.tasks && c'.tasks == c.tasks[id := c'.tasks[id]]
        && c'.tasks[id].dependencies.Keys == NeedIds(jobId, req.needs)
        && (forall d | d in c'.tasks[id].dependencies :: !c'.tasks[id].dependencies[d])
        && c'.tasks[id].inDegrees == |NeedIds(jobId, req.needs)| > 0
      else
        r.Err? && r.error.TaskNotFound?
  {
    var id := TaskIdOf(jobId, req.name);
    var c1 := Retry(c, id).0;
    RetryTable(c, id);
    NoMissingNeed(c.tasks, jobId, req.needs);
    hide Retry, OnlyStatus, SaysLimit, OnlyTasks, NeedIds, TaskIdOf, Find, Request;
    assert c1.tasks.Keys == c.tasks.Keys;
    SameMissing(c.tasks, c1.tasks, jobId, req.needs);
    FirstNeed(jobId, req.needs);
  }

  lemma FirstNeed(jobId: string, needs: seq<string>)
    requires needs != []
    ensures |NeedIds(jobId, needs)| > 0
  {
    assert TaskIdOf(jobId, needs[0]) in NeedIds(jobId, needs);
  }

  // ---------- A report ----------

  /** The task map once a report is stored. */
  function StoredIn(tasks: map<string, Handler>, key: string, task: Task): map<string, Handler>
    requires key in tasks
  {
    tasks[key := tasks[key].(task := task)]
  }

  /**
    update_task, by the status reported: one of an unknown task is dropped; PENDING, STARTED, PROCESSING
    and WAITING_FOR_RESOURCE are stored and nothing else happens.
   */
  lemma ReportIsStored(c: Core, task: Task, order: seq<string>)
    ensures var key := TaskIdOf(task.jobId, task.name);
      && (key !in c.tasks ==> Update(c, task, order) == c)
      && (key in c.tasks && task.status in {PENDING, STARTED, PROCESSING, WAITING_FOR_RESOURCE} ==>
            Update(c, task, order) == c.(tasks := StoredIn(c.tasks, key, task)))
  {
    hide TaskIdOf, Retry, Fail, Done;
  }

  /** A RETRY report queues the task if it waits for nothing and has a receiver, and it waits otherwise. */
  lemma ReportedRetry(c: Core, task: Task, order: seq<string>)
    requires task.status == RETRY && TaskIdOf(task.jobId, task.name) in c.tasks && c.tasks[TaskIdOf(task.jobId, task.name)].retries < 3
    ensures var key := TaskIdOf(task.jobId, task.name);
      var c', ready := Update(c, task, order), c.tasks[key].inDegrees == 0 && task.receiver.Some?;
      && key in c'.tasks
      && c'.tasks == StoredIn(c.tasks, key, task.(status := if ready then PENDING else WAITING_FOR_RESOURCE))
      && c'.queue == (if ready then c.queue + [key] else c.queue)
      && c' == c.(tasks := c'.tasks, queue := c'.queue, log := c'.log)
  {
    hide TaskIdOf, Fail, Done, Retry, Update, SaysLimit;
    var key := TaskIdOf(task.jobId, task.name);
    UpdateIs(c, task, order);
    RetryTable(c.(tasks := StoredIn(c.tasks, key, task)), key);
  }

  /**
    A FAILED report fails the task and, with the recursion as it is meant, whatever needs it directly or
    through others, and leaves every other task, the queue and the pool alone.
   */
  lemma ReportedFailureSpreads(c: Core, task: Task, order: seq<string>)
    requires task.status == FAILED && TaskIdOf(task.jobId, task.name) in c.tasks
    ensures var key := TaskIdOf(task.jobId, task.name);
      var c', stored := Update(c, task, order), StoredIn(c.tasks, key, task);
      && OnlyTasks(c, c') && c'.tasks.Keys == c.tasks.Keys
      && forall id | id in c.tasks ::
           if Reaches(c.tasks, key, id) then OnlyStatus(stored[id], c'.tasks[id], FAILED) else c'.tasks[id] == stored[id]
  {
    hide TaskIdOf, Retry, Done, Update, Reaches;
    var key := TaskIdOf(task.jobId, task.name);
    UpdateIs(c, task, order);
    forall id | id in c.tasks
      ensures Reaches(StoredIn(c.tasks, key, task), key, id) <==> Reaches(c.tasks, key, id)
    {
      SamePaths(c.tasks, key, task, id);
    }
  }

  lemma SamePaths(tasks: map<string, Handler>, key: string, task: Task, id: string)
    requires key in tasks
    ensures Reaches(StoredIn(tasks, key, task), key, id) <==> Reaches(tasks, key, id)
  {
  }

  /** Done is accepted for PROCESSING, STARTED and DONE; the task is DONE then, and its completion is noted once. */
  lemma DoneTable(c: Core, key: string, order: seq<string>)
    ensures var (c', error) := Done(c, key, order);
      if key !in c.tasks then c' == c && error == Some(TaskNotFound("Task " + key + " not found"))
      else if c.tasks[key].task.status in {PROCESSING, STARTED, DONE} then
        error == None && c' == DoneSweep(c.(tasks := c.tasks[key := c.tasks[key].(task := c.tasks[key].task.(status := DONE))],
                                            log := c.log + [Completed(key)]), key, order)
      else c' == c && error == Some(TaskAlreadyExists)
  {
    hide DoneSweep;
  }
}
