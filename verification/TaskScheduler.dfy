/**
  core/examples/domain-manager/src/tasks_management.rs: the scheduler as the object whose task map
  and run queue are updated in place. Every method is proved to do what its function in `Scheduler`
  says, so what is proved of runs over those functions holds of these methods.
 */
module TaskScheduler {
  import opened Wrappers
  import opened Messages
  import opened Nodes
  import opened Orders
  import opened Scheduler
  import opened SchedulerInvariant
  import opened WorkerNodes
  import opened FailedTasks
  import SchedulerSteps
  import SchedulerRuns
  import SchedulerProperties
  import SchedulerAdmission
  import Codec

  /** What recruit_node leaves behind: the state, the handler it changed, and its error. */
  function Outcome(r: Recruitment): (Core, Handler, Option<SchedulerError>) {
    match r
    case Found(c, h) => (c, h, None)
    case Asked(c, h) => (c, h, None)
    case Rejected(c, h, error) => (c, h, Some(error))
  }

  class TasksManagement {
    var tasks: map<string, Handler>
    var taskQueue: seq<string>
    // The spawned continuations that wait for a node, by the receiver they wait on.
    var waiters: map<Ticket, string>
    ghost var stamp: map<string, nat>
    ghost var log: seq<Event>

    ghost function View(nodeMgmt: NodesManagement): Core
      reads this, nodeMgmt, nodeMgmt.loadBalancer
    {
      Core(tasks, taskQueue, waiters, nodeMgmt.View(), stamp, log)
    }

    constructor ()
      ensures tasks == map[] && taskQueue == [] && waiters == map[] && stamp == map[] && log == []
    {
      tasks, taskQueue, waiters, stamp, log := map[], [], map[], map[], [];
    }

    // ---------- recruit_node ----------

    method AbortRequest(request: Option<Ticket>, nodeMgmt: NodesManagement)
      requires Valid(nodeMgmt.View())
      modifies this`waiters, nodeMgmt`channels
      ensures View(nodeMgmt) == Abort(old(View(nodeMgmt)), request)
      ensures Valid(nodeMgmt.View())
    {
      match request {
        case None =>
        case Some(t) =>
          waiters := waiters - {t};
          nodeMgmt.DropReceiver(t);
      }
    }

    /** TaskHandler::failed. */
    method HandlerFailed(h: Handler, message: string, nodeMgmt: NodesManagement) returns (h': Handler)
      requires Valid(nodeMgmt.View())
      modifies this`waiters, nodeMgmt`channels
      ensures View(nodeMgmt) == Abort(old(View(nodeMgmt)), h.nodeRequest)
      ensures h' == h.Failed(message)
      ensures h'.task.status == FAILED && h'.nodeRequest.None? && Codec.SaysError(h'.task.output, message)
      ensures h' == h.(task := h.task.(status := h'.task.status, output := h'.task.output), nodeRequest := h'.nodeRequest)
      ensures Valid(nodeMgmt.View())
    {
      Codec.ErrorOutputSays(message);
      hide Codec.ErrorOutput, Codec.SaysError, Valid;
      h' := h.(task := h.task.(status := FAILED, output := Some(Codec.ErrorOutput(message))));
      AbortRequest(h'.nodeRequest, nodeMgmt);
      h' := h'.(nodeRequest := None);
    }

    method RecruitNode(h: Handler, nodeMgmt: NodesManagement) returns (h': Handler, error: Option<SchedulerError>)
      requires Valid(nodeMgmt.View())
      modifies this`waiters, nodeMgmt, nodeMgmt.loadBalancer
      ensures (View(nodeMgmt), h', error) == Outcome(Recruit(old(View(nodeMgmt)), h))
      ensures Valid(nodeMgmt.View())
    {
      hide Valid, Find, Request, Codec.ErrorOutput;
      FindNoneIs(nodeMgmt.View(), h.capabilityFilters.endpoint);
      var node := nodeMgmt.FindNode(h.capabilityFilters.endpoint);
      match node {
        case Some(n) =>
          return h.(task := h.task.(receiver := Some(n.id))), None;
        case None =>
          if h.resourceRecruitment.recruitmentPolicy == FAIL {
            var message := "No nodes found for task: " + h.task.name;
            h' := HandlerFailed(h, message, nodeMgmt);
            return h', Some(NodeNotFound(message));
          }
          var id := TaskIdOf(h.jobId, h.task.name);
          var rx := nodeMgmt.RequestNode(h.capabilityFilters.endpoint);
          waiters := waiters[rx := id];
          return h.(task := h.task.(receiver := None), nodeRequest := Some(rx)), None;
      }
    }

    // ---------- task_state_machine ----------

    method RetryAction(key: string, nodeMgmt: NodesManagement) returns (error: Option<SchedulerError>)
      modifies this`tasks, this`taskQueue, this`log
      ensures (View(nodeMgmt), error) == Retry(old(View(nodeMgmt)), key)
    {
      hide NoSuchTask, RetriesExceeded;
      if key !in tasks {
        return Some(NoSuchTask(key));
      }
      var h := tasks[key];
      var ready := h.inDegrees == 0;
      if h.task.status != RETRY && h.task.status != FAILED {
        return Some(TaskAlreadyExists);
      }
      if h.retries >= MAX_RETRIES {
        tasks := tasks[key := h.(task := h.task.(status := FAILED, output := Some(RetriesExceeded())))];
        return Some(RetryLimitReached);
      }
      if ready && h.task.receiver.None? {
        tasks := tasks[key := h.WithStatus(WAITING_FOR_RESOURCE)];
        return None;
      }
      if ready && h.task.receiver.Some? {
        tasks := tasks[key := h.WithStatus(PENDING)];
        taskQueue := taskQueue + [key];
        log := log + [Enqueued(key, Retried)];
        return None;
      }
      tasks := tasks[key := h.WithStatus(WAITING_FOR_RESOURCE)];
      return None;
    }

    method AddAction(key: string, nodeMgmt: NodesManagement) returns (error: Option<SchedulerError>)
      modifies this`tasks, this`taskQueue, this`log
      ensures (View(nodeMgmt), error) == Add(old(View(nodeMgmt)), key)
    {
      hide Retry;
      if key !in tasks {
        return Some(NoSuchTask(key));
      }
      var status := tasks[key].task.status;
      if status == STARTED || status == PROCESSING || status == PENDING {
        return Some(TaskAlreadyExists);
      }
      if status == WAITING_FOR_RESOURCE || status == DONE {
        return None;
      }
      error := RetryAction(key, nodeMgmt);
    }

    /** The body of the Done loop for the handler at `id`. */
    method DoneHandler(key: string, id: string, nodeMgmt: NodesManagement)
      requires Valid(nodeMgmt.View()) && id in tasks
      modifies this, nodeMgmt, nodeMgmt.loadBalancer
      ensures View(nodeMgmt) == DoneVisit(old(View(nodeMgmt)), key, id)
      ensures Valid(nodeMgmt.View())
    {
      hide Recruit, Valid, Codec.ErrorOutput, TaskIdOf;
      var h := tasks[id];
      if key in h.dependencies && !h.dependencies[key] {
        h := h.(dependencies := h.dependencies[key := true]);
        h := h.(inDegrees := h.inDegrees - 1);
        if h.inDegrees == 0 {
          RecruitFrame(View(nodeMgmt), h);
          var error;
          h, error := RecruitNode(h, nodeMgmt);
          if error.Some? {
            h := HandlerFailed(h, "Node not found: " + error.value.message, nodeMgmt);
            tasks := tasks[id := h];
            log := log + [RecruitFailed(id)];
            return;
          }
          tasks := tasks[id := h];
          if h.Ready() {
            taskQueue := taskQueue + [TaskIdOf(h.jobId, h.task.name)];
            log := log + [Enqueued(TaskIdOf(h.jobId, h.task.name), Initial)];
          }
        } else {
          tasks := tasks[id := h];
        }
      }
    }

    method DoneAction(key: string, order: seq<string>, nodeMgmt: NodesManagement) returns (error: Option<SchedulerError>)
      requires Valid(nodeMgmt.View()) && IsOrder(order, tasks.Keys)
      modifies this, nodeMgmt, nodeMgmt.loadBalancer
      ensures (View(nodeMgmt), error) == Done(old(View(nodeMgmt)), key, order)
      ensures Valid(nodeMgmt.View())
    {
      hide DoneVisit, Valid;
      if key !in tasks {
        return Some(NoSuchTask(key));
      }
      var h := tasks[key];
      if h.task.status != PROCESSING && h.task.status != STARTED && h.task.status != DONE {
        return Some(TaskAlreadyExists);
      }
      tasks := tasks[key := h.(task := h.task.(status := DONE))];
      log := log + [Completed(key)];
      ghost var start := View(nodeMgmt);
      var k := 0;
      while k < |order|
        invariant 0 <= k <= |order|
        invariant View(nodeMgmt) == DoneSweep(start, key, order[..k])
        invariant tasks.Keys == start.tasks.Keys && Valid(nodeMgmt.View())
      {
        assert order[..k + 1][..k] == order[..k] && order[k] in order;
        SchedulerRuns.VisitKeepsKeys(View(nodeMgmt), key, order[k]);
        DoneHandler(key, order[k], nodeMgmt);
        k := k + 1;
      }
      assert order[..k] == order;
      return None;
    }

    /**
      The recursion as it is meant: over the map that is already locked, whatever the order in which
      the map is iterated. It ends because every dependent was inserted later.
     */
    method FailAction(key: string, order: seq<string>) returns (error: Option<SchedulerError>)
      requires DependentsKeyed(tasks, key) && Graph(tasks, stamp) && IsOrder(order, tasks.Keys)
      modifies this`tasks
      ensures tasks == if key in old(tasks) then MarkFailed(old(tasks), key) else old(tasks)
      ensures error == if key in old(tasks) then None else Some(NoSuchTask(key))
      decreases Later(tasks, stamp, key)
    {
      hide *;
      if key !in tasks {
        return Some(NoSuchTask(key));
      }
      MarkedAtStart(tasks, key, order);
      tasks := tasks[key := tasks[key].WithStatus(FAILED)];
      ghost var ids := {key};
      var k := 0;
      while k < |order|
        invariant 0 <= k <= |order|
        invariant tasks == Mark(old(tasks), ids) && tasks.Keys == old(tasks).Keys
        invariant MarkedSoFar(old(tasks), key, order, k, ids)
      {
        MarkedGraph(old(tasks), stamp, ids);
        SameGraphAt(old(tasks), tasks, order, k);
        MarkedOneMore(old(tasks), key, order, k, ids);
        var handler := tasks[order[k]];
        if key in handler.dependencies {
          var v := TaskIdOf(handler.jobId, handler.task.name);
          KeyedFurther(old(tasks), key, order[k]);
          MarkNames(old(tasks), ids, order[k]);
          MarkedKeyed(old(tasks), ids, v);
          LaterShrinks(old(tasks), stamp, key, v);
          SameLater(old(tasks), tasks, stamp, v);
          MarkMore(old(tasks), ids, v);
          var _ := FailAction(v, order);
          ids := ids + Dependents(old(tasks), v);
          MarkKeys(old(tasks), ids);
        }
        k := k + 1;
      }
      MarkedAtEnd(old(tasks), key, order, ids);
      MarkFailedIs(old(tasks), key);
      return None;
    }

    // ---------- validate_task and remove_job ----------

    /** The loop over the needs: the dependency map, or the first need that names no task. */
    method DependenciesOf(jobId: string, needs: seq<string>) returns (r: Result<map<string, bool>, string>)
      ensures match MissingNeed(tasks, jobId, needs)
        case Some(needId) => r == Err(needId)
        case None => r == Ok(map d | d in NeedIds(jobId, needs) :: false)
    {
      hide TaskIdOf;
      var dependencies: map<string, bool> := map[];
      var k := 0;
      while k < |needs|
        invariant 0 <= k <= |needs|
        invariant MissingNeed(tasks, jobId, needs) == MissingNeed(tasks, jobId, needs[k..])
        invariant dependencies == map d | d in NeedIds(jobId, needs[..k]) :: false
      {
        var needId := TaskIdOf(jobId, needs[k]);
        assert needs[k..][0] == needs[k] && needs[k..][1..] == needs[k + 1..];
        if needId !in tasks {
          return Err(needId);
        }
        NeedIdsStep(jobId, needs, k);
        dependencies := dependencies[needId := false];
        k := k + 1;
      }
      assert needs[..k] == needs;
      return Ok(dependencies);
    }

    /** From the dependencies on, for a handler that is new or was taken from the map. */
    method ValidateNeeds(id: string, handler: Handler, jobId: string, req: TaskRequest, nodeMgmt: NodesManagement)
      returns (r: Result<bool, SchedulerError>)
      requires Valid(nodeMgmt.View())
      modifies this, nodeMgmt, nodeMgmt.loadBalancer
      ensures (View(nodeMgmt), r) == ValidateRest(old(View(nodeMgmt)), id, handler, jobId, req)
      ensures Valid(nodeMgmt.View())
    {
      hide Recruit, Valid, NeedIds;
      var h := handler;
      if req.needs != [] {
        var dependencies := DependenciesOf(jobId, req.needs);
        if dependencies.Err? {
          return Err(TaskNotFound("Invalid dependency: " + dependencies.error));
        }
        h := h.(inDegrees := |dependencies.value|);
        h := h.(dependencies := dependencies.value);
        KeysOfNeeds(jobId, req.needs);
      }
      assert h == WithNeeds(handler, jobId, req.needs);
      if h.inDegrees == 0 {
        var error;
        h, error := RecruitNode(h, nodeMgmt);
        if error.Some? {
          return Err(error.value);
        }
      }
      var ready := h.Ready();
      tasks := tasks[id := h];
      stamp := stamp[id := |log|];
      log := log + [Inserted(id, h.dependencies.Keys)];
      return Ok(ready);
    }

    method ValidateTask(jobId: string, req: TaskRequest, timeout: Option<nat>, nodeMgmt: NodesManagement)
      returns (r: Result<bool, SchedulerError>)
      requires Valid(nodeMgmt.View())
      modifies this, nodeMgmt, nodeMgmt.loadBalancer
      ensures (View(nodeMgmt), r) == Validate(old(View(nodeMgmt)), jobId, req, timeout)
      ensures Valid(nodeMgmt.View())
    {
      hide ValidateRest, Add, NewHandler, Valid, TaskIdOf;
      if timeout.None? {
        return Err(OtherError);
      }
      var handler := NewHandler(jobId, req, timeout.value);
      var id := TaskIdOf(jobId, req.name);
      if id in tasks {
        var th := tasks[id];
        if th.task.status == WAITING_FOR_RESOURCE {
          return Ok(th.Ready());
        }
        if th.task.status == DONE {
          return Ok(true);
        }
        AddKeeps(View(nodeMgmt), id);
        var error := AddAction(id, nodeMgmt);
        if error.Some? {
          return Err(error.value);
        }
        handler := tasks[id];
      }
      r := ValidateNeeds(id, handler, jobId, req, nodeMgmt);
    }

    /** The body of the first loop of remove_job. */
    method CancelTask(jobId: string, id: string, nodeMgmt: NodesManagement) returns (removed: bool)
      requires Valid(nodeMgmt.View()) && id in tasks
      modifies this`tasks, this`waiters, nodeMgmt`channels
      ensures removed == (old(tasks)[id].jobId == jobId)
      ensures View(nodeMgmt) == if removed then Abort(old(View(nodeMgmt)), old(tasks)[id].nodeRequest).(tasks := tasks) else old(View(nodeMgmt))
      ensures tasks == if removed then old(tasks)[id := old(tasks)[id].Failed("Job cancelled")] else old(tasks)
      ensures Valid(nodeMgmt.View())
    {
      hide Valid, Codec.ErrorOutput;
      removed := tasks[id].jobId == jobId;
      if removed {
        var h := HandlerFailed(tasks[id], "Job cancelled", nodeMgmt);
        tasks := tasks[id := h];
      }
    }

    /** The first loop of remove_job: fail the job's tasks and collect their ids. */
    method CancelTasks(jobId: string, order: seq<string>, nodeMgmt: NodesManagement) returns (toRemove: seq<string>)
      requires Valid(nodeMgmt.View()) && IsOrder(order, tasks.Keys)
      modifies this`tasks, this`waiters, nodeMgmt`channels
      ensures CancelledSoFar(old(View(nodeMgmt)), View(nodeMgmt), jobId, old(tasks).Keys, toRemove)
      ensures Valid(nodeMgmt.View())
    {
      hide *;
      ghost var before := View(nodeMgmt);
      ViewIs(this, nodeMgmt);
      NothingCancelled(before, jobId);
      toRemove := [];
      ghost var done: set<string> := {};
      VisitedAtStart(order);
      var k := 0;
      while k < |order|
        invariant 0 <= k <= |order|
        invariant CancelledSoFar(before, View(nodeMgmt), jobId, done, toRemove) && Valid(nodeMgmt.View())
        invariant done == SchedulerRuns.Visited(order[..k])
      {
        ViewIs(this, nodeMgmt);
        VisitedStep(order, k, before.tasks.Keys);
        CancelledKeys(before, View(nodeMgmt), jobId, done, toRemove);
        ghost var c := View(nodeMgmt);
        var removed := CancelTask(jobId, order[k], nodeMgmt);
        ViewIs(this, nodeMgmt);
        CancelledStep(before, c, View(nodeMgmt), jobId, done, toRemove, order[k],
                      c.tasks[order[k]].Failed("Job cancelled"));
        if removed {
          toRemove := toRemove + [order[k]];
        }
        done := done + {order[k]};
        k := k + 1;
      }
      assert order[..k] == order;
      VisitedAtEnd(order, before.tasks.Keys);
    }

    method RemoveJob(jobId: string, order: seq<string>, nodeMgmt: NodesManagement)
      requires Valid(nodeMgmt.View()) && IsOrder(order, tasks.Keys)
      modifies this`tasks, this`waiters, nodeMgmt`channels
      ensures View(nodeMgmt) == Scheduler.RemoveJob(old(View(nodeMgmt)), jobId)
      ensures Valid(nodeMgmt.View())
    {
      hide Valid, IsOrder, CancelledSoFar, Scheduler.RemoveJob;
      ghost var before := View(nodeMgmt);
      var toRemove := CancelTasks(jobId, order, nodeMgmt);
      ghost var cancelled := View(nodeMgmt);
      var j := 0;
      while j < |toRemove|
        invariant 0 <= j <= |toRemove|
        invariant View(nodeMgmt) == cancelled.(tasks := cancelled.tasks - (set i | 0 <= i < j :: toRemove[i]))
        invariant Valid(nodeMgmt.View())
      {
        tasks := tasks - {toRemove[j]};
        j := j + 1;
      }
      CancelledAll(before, cancelled, jobId, toRemove);
    }

    // ---------- The queue ----------

    method PushTasks(ids: seq<string>, nodeMgmt: NodesManagement)
      modifies this`taskQueue, this`log
      ensures View(nodeMgmt) == Push(old(View(nodeMgmt)), ids)
    {
      PushIs(View(nodeMgmt), ids);
      log := Push(View(nodeMgmt), ids).log;
      taskQueue := taskQueue + ids;
    }

    method GetTask(id: string) returns (r: Option<Handler>)
      ensures r == if id in tasks then Some(tasks[id]) else None
    {
      if id in tasks {
        return Some(tasks[id]);
      }
      return None;
    }

    /** `interrupted` says whether the caller drops the call while it waits for the second lock. */
    method GetNextTask(interrupted: bool, nodeMgmt: NodesManagement) returns (r: Option<Handler>)
      modifies this`taskQueue, this`log
      ensures View(nodeMgmt) == if interrupted then Interrupted(old(View(nodeMgmt))) else Next(old(View(nodeMgmt))).0
      ensures r == if interrupted then None else Next(old(View(nodeMgmt))).1
    {
      if taskQueue == [] {
        return None;
      }
      var id := taskQueue[0];
      taskQueue := taskQueue[1..];
      if interrupted {
        log := log + [Lost(id)];
        return None;
      }
      log := log + [Dispatched(id, id in tasks)];
      r := GetTask(id);
    }

    // ---------- Updates ----------

    method UpdateTask(task: Task, order: seq<string>, nodeMgmt: NodesManagement)
      requires Valid(nodeMgmt.View()) && IsOrder(order, tasks.Keys)
      requires task.status == FAILED ==> WellKeyed(tasks) && Graph(tasks, stamp)
      modifies this, nodeMgmt, nodeMgmt.loadBalancer
      ensures View(nodeMgmt) == Update(old(View(nodeMgmt)), task, order)
      ensures Valid(nodeMgmt.View())
    {
      hide *;
      ghost var before := View(nodeMgmt);
      ViewIs(this, nodeMgmt);
      var key := TaskIdOf(task.jobId, task.name);
      SchedulerRuns.UpdateIs(before, task, order);
      if key in tasks {
        var status := task.status;
        if status == FAILED { StoredReport(tasks, stamp, task); }
        tasks := tasks[key := tasks[key].(task := task)];
        assert tasks.Keys == before.tasks.Keys;
        ViewIs(this, nodeMgmt);
        match status {
          case RETRY =>
            var _ := RetryAction(key, nodeMgmt);
          case FAILED =>
            FailIs(View(nodeMgmt), key);
            var _ := FailAction(key, order);
          case DONE =>
            var _ := DoneAction(key, order, nodeMgmt);
          case _ =>
        }
        ViewIs(this, nodeMgmt);
      }
    }

    method RetryTask(key: string, nodeMgmt: NodesManagement)
      modifies this`tasks, this`taskQueue, this`log
      ensures View(nodeMgmt) == Retry(old(View(nodeMgmt)), key).0
    {
      hide Retry;
      var _ := RetryAction(key, nodeMgmt);
    }

    /** The spawned continuation of recruit_node, woken with a node. */
    method ReceiveNode(rx: Ticket, nodeMgmt: NodesManagement)
      requires Valid(nodeMgmt.View())
      requires rx in waiters ==> waiters[rx] in tasks
      modifies this`tasks, this`taskQueue, this`waiters, this`log, nodeMgmt`channels
      ensures View(nodeMgmt) == Deliver(old(View(nodeMgmt)), rx)
      ensures Valid(nodeMgmt.View())
    {
      hide Valid;
      if rx in waiters && rx in nodeMgmt.channels && nodeMgmt.channels[rx].node.Some? {
        var nodeId := nodeMgmt.channels[rx].node;
        var id := waiters[rx];
        waiters := waiters - {rx};
        nodeMgmt.DropReceiver(rx);
        var h := tasks[id];
        h := h.(task := h.task.(receiver := nodeId));
        h := h.(nodeRequest := None);
        tasks := tasks[id := h];
        taskQueue := taskQueue + [id];
        log := log + [Enqueued(id, Initial)];
      }
    }
  }

  // ---------- Facts about the functions that the methods need ----------

  /** A search that finds no node leaves the pool as it is. */
  lemma FindNoneIs(ns: NodesState, endpoint: string)
    ensures Find(ns, endpoint).1.None? ==> Find(ns, endpoint).0 == ns
  {
  }

  /** Recruiting for a handler fails with a message, or without one makes it ready or opens a request. */
  lemma RecruitFrame(c: Core, h: Handler)
    requires h.inDegrees == 0
    ensures match Recruit(c, h)
      case Found(c1, h1) => h1.Ready() && h1.jobId == h.jobId && h1.task.name == h.task.name
      case Asked(c1, h1) => !h1.Ready()
      case Rejected(c1, h1, error) => h1.nodeRequest.None? && error.NodeNotFound?
  {
  }

  lemma SameGraphAt(tasks: map<string, Handler>, tasks': map<string, Handler>, order: seq<string>, k: nat)
    requires SameGraph(tasks, tasks') && IsOrder(order, tasks.Keys) && k < |order|
    ensures order[k] in tasks && order[k] in tasks' && tasks'[order[k]].dependencies == tasks[order[k]].dependencies
    ensures IsOrder(order, tasks'.Keys)
  {
  }

  lemma SameLater(tasks: map<string, Handler>, tasks': map<string, Handler>, stamp: map<string, nat>, key: string)
    requires tasks'.Keys == tasks.Keys
    ensures Later(tasks', stamp, key) == Later(tasks, stamp, key)
  {
  }

  lemma MarkNames(tasks: map<string, Handler>, ids: set<string>, id: string)
    requires id in tasks
    ensures var h := Mark(tasks, ids)[id]; h.jobId == tasks[id].jobId && h.task.name == tasks[id].task.name
  {
  }

  lemma MarkKeys(tasks: map<string, Handler>, ids: set<string>)
    ensures Mark(tasks, ids).Keys == tasks.Keys
  {
  }

  lemma NeedIdsStep(jobId: string, needs: seq<string>, k: nat)
    requires k < |needs|
    ensures NeedIds(jobId, needs[..k + 1]) == NeedIds(jobId, needs[..k]) + {TaskIdOf(jobId, needs[k])}
  {
  }

  lemma KeysOfNeeds(jobId: string, needs: seq<string>)
    ensures |map d | d in NeedIds(jobId, needs) :: false| == |NeedIds(jobId, needs)|
  {
    hide NeedIds;
    var m := map d | d in NeedIds(jobId, needs) :: false;
    assert m.Keys == NeedIds(jobId, needs);
  }

  /** A successful Add leaves the task in the map. */
  lemma AddKeeps(c: Core, key: string)
    requires key in c.tasks
    ensures key in Add(c, key).0.tasks
  {
    hide RetriedHandler;
  }

  // ---------- remove_job ----------

  function RequestsAmong(tasks: map<string, Handler>, jobId: string, ids: set<string>): set<Ticket> {
    set id | id in ids && id in tasks && tasks[id].jobId == jobId && tasks[id].nodeRequest.Some? :: tasks[id].nodeRequest.value
  }

  /** The job's tasks among `ids` are listed for removal and their requests aborted; no other task changed. */
  ghost predicate CancelledSoFar(c: Core, c': Core, jobId: string, ids: set<string>, toRemove: seq<string>) {
    var dead := RequestsAmong(c.tasks, jobId, ids);
    && c' == c.(tasks := c'.tasks, waiters := c.waiters - dead, pool := c.pool.(channels := c.pool.channels - dead))
    && c'.tasks.Keys == c.tasks.Keys
    && (forall id | id in c.tasks && !(id in ids && c.tasks[id].jobId == jobId) :: c'.tasks[id] == c.tasks[id])
    && (forall id :: id in toRemove <==> id in ids && id in c.tasks && c.tasks[id].jobId == jobId)
  }

  lemma NothingCancelled(c: Core, jobId: string)
    ensures CancelledSoFar(c, c, jobId, {}, [])
  {
  }

  lemma CancelledKeys(c: Core, c': Core, jobId: string, ids: set<string>, toRemove: seq<string>)
    requires CancelledSoFar(c, c', jobId, ids, toRemove)
    ensures c'.tasks.Keys == c.tasks.Keys
  {
  }

  lemma CancelledStep(c: Core, c1: Core, c2: Core, jobId: string, ids: set<string>, toRemove: seq<string>, id: string,
                      h': Handler)
    requires CancelledSoFar(c, c1, jobId, ids, toRemove) && id in c1.tasks && id !in ids
    requires var h := c1.tasks[id];
      c2 == if h.jobId == jobId then Abort(c1, h.nodeRequest).(tasks := c1.tasks[id := h']) else c1
    ensures CancelledSoFar(c, c2, jobId, ids + {id}, if c1.tasks[id].jobId == jobId then toRemove + [id] else toRemove)
  {
    hide RequestsAmong;
    var h := c1.tasks[id];
    RequestsAmongStep(c.tasks, jobId, ids, id);
    if h.jobId == jobId {
      AbortMore(c, c1, RequestsAmong(c.tasks, jobId, ids), h.nodeRequest);
    }
  }

  lemma RequestsAmongStep(tasks: map<string, Handler>, jobId: string, ids: set<string>, id: string)
    requires id in tasks
    ensures RequestsAmong(tasks, jobId, ids + {id}) == RequestsAmong(tasks, jobId, ids)
      + if tasks[id].jobId == jobId && tasks[id].nodeRequest.Some? then {tasks[id].nodeRequest.value} else {}
  {
  }

  lemma AbortMore(c: Core, c1: Core, dead: set<Ticket>, request: Option<Ticket>)
    requires c1 == c.(tasks := c1.tasks, waiters := c.waiters - dead, pool := c.pool.(channels := c.pool.channels - dead))
    ensures var all := dead + if request.Some? then {request.value} else {};
      Abort(c1, request) == c.(tasks := c1.tasks, waiters := c.waiters - all, pool := c.pool.(channels := c.pool.channels - all))
  {
  }

  lemma CancelledAll(c: Core, c': Core, jobId: string, toRemove: seq<string>)
    requires CancelledSoFar(c, c', jobId, c.tasks.Keys, toRemove)
    ensures c'.(tasks := c'.tasks - (set i | 0 <= i < |toRemove| :: toRemove[i])) == Scheduler.RemoveJob(c, jobId)
  {
    assert RequestsAmong(c.tasks, jobId, c.tasks.Keys) == RequestsOf(c.tasks, jobId);
    var removed := set i | 0 <= i < |toRemove| :: toRemove[i];
    assert forall id :: id in removed <==> id in toRemove;
    assert c'.tasks - removed == Scheduler.RemoveJob(c, jobId).tasks;
  }

  lemma VisitedAtStart(order: seq<string>)
    ensures SchedulerRuns.Visited(order[..0]) == {}
  {
  }

  lemma VisitedStep(order: seq<string>, k: nat, ids: set<string>)
    requires IsOrder(order, ids) && k < |order|
    ensures order[k] in ids && order[k] !in SchedulerRuns.Visited(order[..k])
    ensures SchedulerRuns.Visited(order[..k + 1]) == SchedulerRuns.Visited(order[..k]) + {order[k]}
  {
  }

  lemma VisitedAtEnd(order: seq<string>, ids: set<string>)
    requires IsOrder(order, ids)
    ensures SchedulerRuns.Visited(order) == ids
  {
  }

  // ---------- Queue and updates ----------

  lemma {:induction false} PushIs(c: Core, ids: seq<string>)
    ensures Push(c, ids) == c.(queue := c.queue + ids, log := Push(c, ids).log)
    decreases |ids|
  {
    if ids == [] {
      assert c.queue + ids == c.queue;
    } else {
      var n := |ids| - 1;
      PushIs(c, ids[..n]);
      assert c.queue + ids[..n] + [ids[n]] == c.queue + ids;
    }
  }

  lemma ViewIs(tm: TasksManagement, nodeMgmt: NodesManagement)
    ensures tm.View(nodeMgmt) == Core(tm.tasks, tm.taskQueue, tm.waiters, nodeMgmt.View(), tm.stamp, tm.log)
  {
  }

  lemma FailIs(c: Core, key: string)
    ensures Fail(c, key).0 == if key in c.tasks then c.(tasks := MarkFailed(c.tasks, key)) else c
  {
  }

  /**
    Whatever a report says, storing it leaves the dependents of the reported task under their own keys,
    for no task depends on itself.
   */
  lemma StoredReport(tasks: map<string, Handler>, stamp: map<string, nat>, task: Task)
    requires WellKeyed(tasks) && Graph(tasks, stamp)
    requires TaskIdOf(task.jobId, task.name) in tasks
    ensures var key := TaskIdOf(task.jobId, task.name);
      var tasks' := tasks[key := tasks[key].(task := task)];
      DependentsKeyed(tasks', key) && Graph(tasks', stamp)
  {
    hide TaskIdOf;
    var key := TaskIdOf(task.jobId, task.name);
    var tasks' := tasks[key := tasks[key].(task := task)];
    StoredGraph(tasks, stamp, key, task);
    hide Graph;
    forall u, v | u in Dependents(tasks', key) && v in tasks' && u in tasks'[v].dependencies
      ensures IsKeyed(tasks', v)
    {
      NotItsOwnDependent(tasks', stamp, key, u, v);
      assert Keyed(v, tasks[v]);
    }
  }

  lemma StoredGraph(tasks: map<string, Handler>, stamp: map<string, nat>, key: string, task: Task)
    requires Graph(tasks, stamp) && key in tasks
    ensures Graph(tasks[key := tasks[key].(task := task)], stamp)
  {
    var tasks' := tasks[key := tasks[key].(task := task)];
    forall id | id in tasks'
      ensures GraphAt(tasks', stamp, id)
    {
      assert GraphAt(tasks, stamp, id);
    }
  }

  lemma NotItsOwnDependent(tasks: map<string, Handler>, stamp: map<string, nat>, key: string, u: string, v: string)
    requires Graph(tasks, stamp) && u in Dependents(tasks, key) && v in tasks && u in tasks[v].dependencies
    ensures v != key
  {
    var path :| NeedsPath(tasks, path) && path[0] == key && path[|path| - 1] == u;
    var longer := path + [v];
    assert forall i | 0 <= i < |path| :: longer[i] == path[i];
    assert NeedsPath(tasks, longer);
    SchedulerProperties.PathsClimb(tasks, stamp, longer);
  }
}
