/** Every allowed step of the domain manager keeps the invariant, so it holds after every run. */
module SchedulerRuns {
  import opened Wrappers
  import opened Messages
  import opened Nodes
  import opened Orders
  import Codec
  import opened Scheduler
  import opened SchedulerInvariant
  import opened SchedulerSteps

  // ---------- Retry ----------

  lemma RetriedShape(h: Handler)
    ensures SameShape(h, RetriedHandler(h))
    ensures RetriedHandler(h).Ready() == h.Ready()
  {
  }

  lemma OneShape(tasks: map<string, Handler>, key: string, h': Handler)
    requires key in tasks && SameShape(tasks[key], h')
    ensures SameShapes(tasks, tasks[key := h'])
  {
  }

  lemma RetryIs(c: Core, key: string)
    requires key in c.tasks
    ensures var h := c.tasks[key];
      var tasks' := c.tasks[key := RetriedHandler(h)];
      var c' := Retry(c, key).0;
      || c' == c
      || c' == c.(tasks := tasks')
      || (h.Ready() && c' == c.(tasks := tasks', queue := c.queue + [key], log := c.log + [Enqueued(key, Retried)]))
  {
  }

  lemma RetryKeeps(c: Core, key: string, accepting: map<string, Accepting>, jobs: set<string>)
    requires Within(c, accepting, jobs, "", {}, None)
    ensures Within(Retry(c, key).0, accepting, jobs, "", {}, None)
  {
    if key in c.tasks {
      hide *;
      var h := c.tasks[key];
      RetryIs(c, key);
      RetriedShape(h);
      OneShape(c.tasks, key, RetriedHandler(h));
      var c', c1 := Retry(c, key).0, c.(tasks := c.tasks[key := RetriedHandler(h)]);
      ReshapeKeeps(c, c1.tasks, accepting, jobs, "", {}, None);
      if c' != c && c' != c1 {
        EnqueueKeeps(c1, key, Retried, accepting, jobs, "", {});
      }
    } else {
      assert Retry(c, key).0 == c;
    }
  }

  // ---------- Fail ----------

  lemma MarkFailedShapes(tasks: map<string, Handler>, key: string)
    ensures SameShapes(tasks, MarkFailed(tasks, key))
  {
  }

  lemma FailKeeps(c: Core, key: string, accepting: map<string, Accepting>, jobs: set<string>)
    requires Within(c, accepting, jobs, "", {}, None)
    ensures Within(Fail(c, key).0, accepting, jobs, "", {}, None)
  {
    if key in c.tasks {
      hide Within, MarkFailed;
      MarkFailedShapes(c.tasks, key);
      ReshapeKeeps(c, MarkFailed(c.tasks, key), accepting, jobs, "", {}, None);
    }
  }

  // ---------- Done ----------

  /** `key` has completed after every task in the map was inserted. */
  ghost predicate CompletedForAll(tasks: map<string, Handler>, stamp: map<string, nat>, log: seq<Event>, key: string) {
    forall id | id in tasks :: id in stamp && CompletedIn(log, stamp[id], |log|, key)
  }

  lemma CompletionCountsForAll(tasks: map<string, Handler>, stamp: map<string, nat>, log: seq<Event>, key: string)
    requires Stamps(tasks, stamp, log)
    ensures CompletedForAll(tasks, stamp, log + [Completed(key)], key)
  {
    forall id | id in tasks
      ensures id in stamp && CompletedIn(log + [Completed(key)], stamp[id], |log| + 1, key)
    {
      assert StampedAt(stamp, log, id);
      CompletedInLonger(log, Completed(key), stamp[id], key);
    }
  }

  lemma CompletedForOne(tasks: map<string, Handler>, stamp: map<string, nat>, log: seq<Event>, key: string, id: string)
    requires CompletedForAll(tasks, stamp, log, key) && id in tasks
    ensures id in stamp && CompletedIn(log, stamp[id], |log|, key)
  {
  }

  lemma CompletedForAllStays(tasks: map<string, Handler>, tasks': map<string, Handler>, stamp: map<string, nat>, log: seq<Event>, more: seq<Event>, key: string)
    requires CompletedForAll(tasks, stamp, log, key) && tasks'.Keys == tasks.Keys && |more| <= 1
    ensures CompletedForAll(tasks', stamp, log + more, key)
  {
    if more == [] {
      assert log + more == log;
    } else {
      assert more == [more[0]];
      forall id | id in tasks'
        ensures id in stamp && CompletedIn(log + more, stamp[id], |log + more|, key)
      {
        CompletedInLonger(log, more[0], stamp[id], key);
      }
    }
  }

  /** Recruiting changes the pool and the recruitments, and of the handler its task and its request. */
  lemma RecruitIs(c: Core, h: Handler)
    ensures var (c1, h1) := (Recruit(c, h).core, Recruit(c, h).handler);
      && c1 == c.(pool := c1.pool, waiters := c1.waiters)
      && h1 == h.(task := h1.task, nodeRequest := h1.nodeRequest)
      && h1.task.name == h.task.name
      && (Recruit(c, h).Rejected? ==> h.resourceRecruitment.recruitmentPolicy == FAIL)
  {
  }

  /** Placing a task changes nothing but that task, and adds at most one event. */
  lemma PlaceIs(c: Core, v: string, h: Handler)
    ensures var c' := PlaceDone(c, v, h);
      && v in c'.tasks && c'.tasks == c.tasks[v := c'.tasks[v]] && c'.stamp == c.stamp
      && c'.tasks[v].(task := h.task, nodeRequest := h.nodeRequest) == h
      && (c'.log == c.log
          || c'.log == c.log + [Enqueued(TaskIdOf(h.jobId, h.task.name), Initial)]
          || (c'.log == c.log + [RecruitFailed(v)] && h.resourceRecruitment.recruitmentPolicy == FAIL))
  {
    hide Recruit, TaskIdOf, Codec.ErrorOutput;
    RecruitIs(c, h);
  }

  /** What placing a task may change: its own entry, and one event. */
  lemma PlaceDoneFrame(c: Core, id: string, h: Handler)
    requires id in c.tasks
    ensures var c' := PlaceDone(c, id, h);
      && c'.tasks.Keys == c.tasks.Keys && c'.stamp == c.stamp
      && exists more :: |more| <= 1 && c'.log == c.log + more
  {
    hide PlaceDone, TaskIdOf;
    PlaceIs(c, id, h);
    assert c.log == c.log + [];
  }

  lemma PlaceFoundIs(c: Core, id: string, h: Handler)
    requires id in c.tasks && h.inDegrees == 0 && Keyed(id, h)
    requires Recruit(c, h).Found?
    ensures var (pool', node) := Find(c.pool, h.capabilityFilters.endpoint);
      && node.Some?
      && var cc := c.(tasks := c.tasks[id := h]);
         var h1 := h.(task := h.task.(receiver := Some(node.value.id)));
         var c2 := cc.(tasks := cc.tasks[id := h1], pool := pool');
         && h1.Ready()
         && PlaceDone(c, id, h) == c2.(queue := c2.queue + [id], log := c2.log + [Enqueued(id, Initial)])
  {
  }

  lemma PlaceFoundKeeps(c: Core, id: string, h: Handler, accepting: map<string, Accepting>, jobs: set<string>, key: string, todo: set<string>)
    requires id in c.tasks && id !in todo && h.inDegrees == 0 && Keyed(id, h) && Valid(c.pool)
    requires Within(c.(tasks := c.tasks[id := h]), accepting, jobs, key, todo, Some(id))
    requires Recruit(c, h).Found?
    ensures Within(PlaceDone(c, id, h), accepting, jobs, key, todo, None)
  {
    hide *;
    PlaceFoundIs(c, id, h);
    var (pool', node) := Find(c.pool, h.capabilityFilters.endpoint);
    FindKeeps(c.pool, h.capabilityFilters.endpoint);
    var cc := c.(tasks := c.tasks[id := h]);
    var h1 := h.(task := h.task.(receiver := Some(node.value.id)));
    FoundKeeps(cc, id, node.value.id, pool', accepting, jobs, key, todo);
    EnqueueKeeps(cc.(tasks := cc.tasks[id := h1], pool := pool'), id, Initial, accepting, jobs, key, todo);
  }

  lemma PlaceAskedIs(c: Core, id: string, h: Handler)
    requires id in c.tasks && h.inDegrees == 0 && Keyed(id, h)
    requires Recruit(c, h).Asked?
    ensures var (pool', t) := Request(c.pool, h.capabilityFilters.endpoint);
      var cc := c.(tasks := c.tasks[id := h]);
      var h1 := h.(task := h.task.(receiver := None), nodeRequest := Some(t));
      PlaceDone(c, id, h) == cc.(tasks := cc.tasks[id := h1], pool := pool', waiters := cc.waiters[t := id])
  {
  }

  lemma PlaceAskedKeeps(c: Core, id: string, h: Handler, accepting: map<string, Accepting>, jobs: set<string>, key: string, todo: set<string>)
    requires id in c.tasks && h.inDegrees == 0 && Keyed(id, h) && NeverQueued(c.log, id)
    requires Within(c.(tasks := c.tasks[id := h]), accepting, jobs, key, todo, Some(id))
    requires Recruit(c, h).Asked?
    ensures Within(PlaceDone(c, id, h), accepting, jobs, key, todo, None)
  {
    hide *;
    PlaceAskedIs(c, id, h);
    AskedKeeps(c.(tasks := c.tasks[id := h]), id, h.capabilityFilters.endpoint, accepting, jobs, key, todo);
  }

  lemma PlaceRejectedIs(c: Core, id: string, h: Handler)
    requires id in c.tasks && h.nodeRequest.None?
    requires Recruit(c, h).Rejected?
    ensures var cc := c.(tasks := c.tasks[id := h]);
      var tasks' := PlaceDone(c, id, h).tasks;
      && SameShapes(cc.tasks, tasks')
      && PlaceDone(c, id, h) == cc.(tasks := tasks', log := cc.log + [RecruitFailed(id)])
      && id in tasks' && tasks'[id].inDegrees == h.inDegrees
  {
  }

  lemma PlaceRejectedKeeps(c: Core, id: string, h: Handler, accepting: map<string, Accepting>, jobs: set<string>, key: string, todo: set<string>)
    requires id in c.tasks && h.inDegrees == 0 && h.nodeRequest.None?
    requires Within(c.(tasks := c.tasks[id := h]), accepting, jobs, key, todo, Some(id))
    requires Recruit(c, h).Rejected?
    ensures Within(PlaceDone(c, id, h), accepting, jobs, key, todo, None)
  {
    hide *;
    PlaceRejectedIs(c, id, h);
    var cc := c.(tasks := c.tasks[id := h]);
    var tasks' := PlaceDone(c, id, h).tasks;
    ReshapeKeeps(cc, tasks', accepting, jobs, key, todo, Some(id));
    RecruitFailedKeeps(cc.(tasks := tasks'), id, accepting, jobs, key, todo);
  }

  /** What the invariant says about the one task a visit looks at. */
  lemma WithinAt(c: Core, id: string, accepting: map<string, Accepting>, jobs: set<string>, key: string, todo: set<string>, hole: Option<string>)
    requires Within(c, accepting, jobs, key, todo, hole) && id in c.tasks
    ensures Keyed(id, c.tasks[id]) && Valid(c.pool) && id in c.stamp
  {
  }

  lemma ClearedKeyed(id: string, h: Handler, key: string)
    requires Keyed(id, h)
    ensures Keyed(id, Cleared(h, key)) && Cleared(h, key).nodeRequest == h.nodeRequest
  {
  }

  lemma VisitIs(c: Core, key: string, id: string)
    requires id in c.tasks
    ensures var due := key in c.tasks[id].dependencies && !c.tasks[id].dependencies[key];
      var h := Cleared(c.tasks[id], key);
      DoneVisit(c, key, id) == if !due then c else if h.inDegrees == 0 then PlaceDone(c, id, h) else c.(tasks := c.tasks[id := h])
  {
  }

  lemma VisitKeepsKeys(c: Core, key: string, id: string)
    ensures DoneVisit(c, key, id).tasks.Keys == c.tasks.Keys
  {
    if id in c.tasks {
      VisitIs(c, key, id);
      PlaceDoneFrame(c, id, Cleared(c.tasks[id], key));
      hide PlaceDone;
    }
  }

  lemma VisitKeeps(c: Core, id: string, accepting: map<string, Accepting>, jobs: set<string>, key: string, todo: set<string>)
    requires Within(c, accepting, jobs, key, todo, None) && id in c.tasks
    requires CompletedForAll(c.tasks, c.stamp, c.log, key)
    ensures Within(DoneVisit(c, key, id), accepting, jobs, key, todo - {id}, None)
    ensures DoneVisit(c, key, id).tasks.Keys == c.tasks.Keys
    ensures CompletedForAll(DoneVisit(c, key, id).tasks, DoneVisit(c, key, id).stamp, DoneVisit(c, key, id).log, key)
  {
    hide *;
    CompletedForOne(c.tasks, c.stamp, c.log, key, id);
    VisitIs(c, key, id);
    WithinAt(c, id, accepting, jobs, key, todo, None);
    if key in c.tasks[id].dependencies && !c.tasks[id].dependencies[key] {
      var h := Cleared(c.tasks[id], key);
      ClearedKeyed(id, c.tasks[id], key);
      ClearKeeps(c, id, accepting, jobs, key, todo);
      if h.inDegrees == 0 {
        PlaceKeeps(c, id, h, accepting, jobs, key, todo - {id});
      } else {
        assert c.log + [] == c.log;
        CompletedForAllStays(c.tasks, c.tasks[id := h], c.stamp, c.log, [], key);
      }
    } else {
      NothingDueKeeps(c, id, accepting, jobs, key, todo);
    }
  }

  lemma PlaceKeeps(c: Core, id: string, h: Handler, accepting: map<string, Accepting>, jobs: set<string>, key: string, todo: set<string>)
    requires id in c.tasks && id !in todo && h.inDegrees == 0 && Keyed(id, h) && Valid(c.pool)
    requires h.nodeRequest.None? && NeverQueued(c.log, id)
    requires Within(c.(tasks := c.tasks[id := h]), accepting, jobs, key, todo, Some(id))
    requires CompletedForAll(c.tasks, c.stamp, c.log, key)
    ensures Within(PlaceDone(c, id, h), accepting, jobs, key, todo, None)
    ensures PlaceDone(c, id, h).tasks.Keys == c.tasks.Keys
    ensures CompletedForAll(PlaceDone(c, id, h).tasks, PlaceDone(c, id, h).stamp, PlaceDone(c, id, h).log, key)
  {
    hide Within, CompletedForAll, PlaceDone, Recruit, Valid, NeverQueued;
    PlaceDoneFrame(c, id, h);
    var c' := PlaceDone(c, id, h);
    var more :| |more| <= 1 && c'.log == c.log + more;
    CompletedForAllStays(c.tasks, c'.tasks, c.stamp, c.log, more, key);
    match Recruit(c, h)
    case Found(_, _) => PlaceFoundKeeps(c, id, h, accepting, jobs, key, todo);
    case Asked(_, _) => PlaceAskedKeeps(c, id, h, accepting, jobs, key, todo);
    case Rejected(_, _, _) => PlaceRejectedKeeps(c, id, h, accepting, jobs, key, todo);
  }

  function Visited(order: seq<string>): set<string> {
    set i | 0 <= i < |order| :: order[i]
  }

  lemma {:induction false} SweepKeeps(c: Core, order: seq<string>, accepting: map<string, Accepting>, jobs: set<string>, key: string)
    requires Within(c, accepting, jobs, key, c.tasks.Keys, None)
    requires CompletedForAll(c.tasks, c.stamp, c.log, key)
    requires forall i | 0 <= i < |order| :: order[i] in c.tasks
    ensures Within(DoneSweep(c, key, order), accepting, jobs, key, c.tasks.Keys - Visited(order), None)
    ensures DoneSweep(c, key, order).tasks.Keys == c.tasks.Keys
    ensures CompletedForAll(DoneSweep(c, key, order).tasks, DoneSweep(c, key, order).stamp, DoneSweep(c, key, order).log, key)
    decreases |order|
  {
    hide Within, CompletedForAll, DoneVisit;
    if order == [] {
      assert c.tasks.Keys - Visited(order) == c.tasks.Keys;
    } else {
      var n := |order| - 1;
      SweepKeeps(c, order[..n], accepting, jobs, key);
      VisitKeeps(DoneSweep(c, key, order[..n]), order[n], accepting, jobs, key, c.tasks.Keys - Visited(order[..n]));
      assert order == order[..n] + [order[n]];
      assert c.tasks.Keys - Visited(order[..n]) - {order[n]} == c.tasks.Keys - Visited(order);
    }
  }

  lemma NothingDueAnymore(c: Core, accepting: map<string, Accepting>, jobs: set<string>, key: string)
    requires Within(c, accepting, jobs, key, {}, None)
    ensures Within(c, accepting, jobs, "", {}, None)
  {
  }

  lemma DoneIs(c: Core, key: string, order: seq<string>)
    requires key in c.tasks && IsOrder(order, c.tasks.Keys)
    ensures var tasks1 := c.tasks[key := c.tasks[key].WithStatus(DONE)];
      var c1 := c.(tasks := tasks1);
      && SameShapes(c.tasks, tasks1)
      && Visited(order) == tasks1.Keys
      && (Done(c, key, order).0 == c || Done(c, key, order).0 == DoneSweep(c1.(log := c1.log + [Completed(key)]), key, order))
  {
  }

  lemma DoneKeeps(c: Core, key: string, order: seq<string>, accepting: map<string, Accepting>, jobs: set<string>)
    requires Within(c, accepting, jobs, "", {}, None) && IsOrder(order, c.tasks.Keys)
    ensures Within(Done(c, key, order).0, accepting, jobs, "", {}, None)
  {
    if key in c.tasks {
      hide Within, CompletedForAll, DoneSweep, Done, IsOrder;
      DoneIs(c, key, order);
      var c' := Done(c, key, order).0;
      if c' != c {
        var tasks1 := c.tasks[key := c.tasks[key].WithStatus(DONE)];
        var c1 := c.(tasks := tasks1);
        var c2 := c1.(log := c1.log + [Completed(key)]);
        ReshapeKeeps(c, tasks1, accepting, jobs, "", {}, None);
        CompletedKeeps(c1, accepting, jobs, key);
        Unfold(c1, accepting, jobs, "", {}, None);
        CompletionCountsForAll(tasks1, c.stamp, c.log, key);
        SweepKeeps(c2, order, accepting, jobs, key);
        assert c2.tasks.Keys - Visited(order) == {};
        NothingDueAnymore(c', accepting, jobs, key);
      }
    }
  }

  // ---------- update_task ----------

  lemma ReportedShape(tasks: map<string, Handler>, task: Task)
    requires WellKeyed(tasks) && NoDash(task.jobId)
    requires TaskIdOf(task.jobId, task.name) in tasks
    requires task.receiver == tasks[TaskIdOf(task.jobId, task.name)].task.receiver
    ensures var key := TaskIdOf(task.jobId, task.name);
      SameShapes(tasks, tasks[key := tasks[key].(task := task)])
  {
    var key := TaskIdOf(task.jobId, task.name);
    assert Keyed(key, tasks[key]);
    TaskIdIsInjective(task.jobId, task.name, tasks[key].jobId, tasks[key].task.name);
  }

  lemma UpdateIs(c: Core, task: Task, order: seq<string>)
    ensures var key := TaskIdOf(task.jobId, task.name);
      Update(c, task, order) ==
        if key !in c.tasks then c
        else
          var c1 := c.(tasks := c.tasks[key := c.tasks[key].(task := task)]);
          match task.status
          case RETRY => Retry(c1, key).0
          case FAILED => Fail(c1, key).0
          case DONE => Done(c1, key, order).0
          case _ => c1
  {
  }

  lemma ReportKeeps(c: Core, task: Task, order: seq<string>, accepting: map<string, Accepting>, jobs: set<string>)
    requires Within(c, accepting, jobs, "", {}, None)
    requires IsOrder(order, c.tasks.Keys) && NoDash(task.jobId)
    requires TaskIdOf(task.jobId, task.name) in c.tasks ==> task.receiver == c.tasks[TaskIdOf(task.jobId, task.name)].task.receiver
    ensures Within(Update(c, task, order), accepting, jobs, "", {}, None)
  {
    hide *;
    var key := TaskIdOf(task.jobId, task.name);
    UpdateIs(c, task, order);
    if key in c.tasks {
      var tasks1 := c.tasks[key := c.tasks[key].(task := task)];
      var c1 := c.(tasks := tasks1);
      Unfold(c, accepting, jobs, "", {}, None);
      ReportedShape(c.tasks, task);
      ReshapeKeeps(c, tasks1, accepting, jobs, "", {}, None);
      assert tasks1.Keys == c.tasks.Keys;
      match task.status
      case RETRY => RetryKeeps(c1, key, accepting, jobs);
      case FAILED => FailKeeps(c1, key, accepting, jobs);
      case DONE => DoneKeeps(c1, key, order, accepting, jobs);
      case _ =>
    }
  }

  // ---------- A recruitment receives its node ----------

  lemma DeliverKeeps(c: Core, t: Ticket, accepting: map<string, Accepting>, jobs: set<string>)
    requires Within(c, accepting, jobs, "", {}, None)
    ensures Within(Deliver(c, t), accepting, jobs, "", {}, None)
  {
    if t in c.waiters && t in c.pool.channels && c.pool.channels[t].node.Some? {
      var id, nodeId := c.waiters[t], c.pool.channels[t].node.value;
      assert Requests(c.tasks, c.waiters, c.pool.channels.Keys);
      var h := c.tasks[id].(task := c.tasks[id].task.(receiver := Some(nodeId)), nodeRequest := None);
      var c1 := c.(tasks := c.tasks[id := h], waiters := c.waiters - {t}, pool := Drop(c.pool, t));
      assert Deliver(c, t) == c1.(queue := c1.queue + [id], log := c1.log + [Enqueued(id, Initial)]);
      hide Within, Drop, Deliver;
      WokenKeeps(c, id, nodeId, t, accepting, jobs);
      EnqueueKeeps(c1, id, Initial, accepting, jobs, "", {});
    }
  }

  // ---------- accept_job ----------

  lemma {:induction false} PushKeeps(c: Core, jobId: string, ids: seq<string>, accepting: map<string, Accepting>, jobs: set<string>)
    requires Within(c, accepting, jobs, "", {}, None)
    requires jobId in accepting && accepting[jobId].ready == ids
    ensures Within(Push(c, ids), accepting - {jobId}, jobs, "", {}, None)
    decreases |ids|
  {
    hide *;
    if ids == [] {
      PushNothing(c);
      AcceptedKeeps(c, jobId, accepting, jobs);
    } else {
      var id, a := ids[0], accepting[jobId].(ready := ids[1..]);
      PushFront(c, ids);
      UnpendKeeps(c, jobId, accepting, jobs);
      EnqueueKeeps(c, id, Initial, accepting[jobId := a], jobs, "", {});
      PushKeeps(c.(queue := c.queue + [id], log := c.log + [Enqueued(id, Initial)]), jobId, ids[1..], accepting[jobId := a], jobs);
      assert accepting[jobId := a] - {jobId} == accepting - {jobId};
    }
  }

  lemma PushNothing(c: Core)
    ensures Push(c, []) == c
  {
  }

  lemma {:induction false} PushFront(c: Core, ids: seq<string>)
    requires ids != []
    ensures Push(c, ids) == Push(c.(queue := c.queue + [ids[0]], log := c.log + [Enqueued(ids[0], Initial)]), ids[1..])
    decreases |ids|
  {
    var n := |ids| - 1;
    var c1 := c.(queue := c.queue + [ids[0]], log := c.log + [Enqueued(ids[0], Initial)]);
    if n == 0 {
      assert ids[..n] == [] && ids[1..] == [];
    } else {
      PushFront(c, ids[..n]);
      assert ids[..n][1..] == ids[1..][..n - 1];
    }
  }

  lemma {:induction false} NoMissingNeed(tasks: map<string, Handler>, jobId: string, needs: seq<string>)
    ensures MissingNeed(tasks, jobId, needs).None? <==> NeedIds(jobId, needs) <= tasks.Keys
    decreases |needs|
  {
    if needs != [] {
      NoMissingNeed(tasks, jobId, needs[1..]);
      assert needs == [needs[0]] + needs[1..];
      assert NeedIds(jobId, needs) == {TaskIdOf(jobId, needs[0])} + NeedIds(jobId, needs[1..]) by {
        assert forall i | 0 <= i < |needs| - 1 :: needs[1..][i] == needs[i + 1];
        assert forall i | 1 <= i < |needs| :: needs[i] == needs[1..][i - 1];
      }
    }
  }

  lemma NeedsOfOneJob(tasks: map<string, Handler>, jobId: string, needs: seq<string>, d: string)
    requires WellKeyed(tasks) && NoDash(jobId) && d in NeedIds(jobId, needs) && d in tasks
    ensures tasks[d].jobId == jobId
  {
    var i :| 0 <= i < |needs| && d == TaskIdOf(jobId, needs[i]);
    assert Keyed(d, tasks[d]);
    TaskIdIsInjective(jobId, needs[i], tasks[d].jobId, tasks[d].task.name);
  }

  lemma NewHandlerIsInsertable(tasks: map<string, Handler>, stamp: map<string, nat>, jobId: string, req: TaskRequest, timeout: nat)
    requires WellKeyed(tasks) && NoDash(jobId) && TaskIdOf(jobId, req.name) !in stamp
    requires NeedIds(jobId, req.needs) <= tasks.Keys
    ensures Insertable(tasks, stamp, TaskIdOf(jobId, req.name), WithNeeds(NewHandler(jobId, req, timeout), jobId, req.needs))
    ensures WithNeeds(NewHandler(jobId, req, timeout), jobId, req.needs).jobId == jobId
  {
    var h := WithNeeds(NewHandler(jobId, req, timeout), jobId, req.needs);
    assert h.dependencies.Keys == NeedIds(jobId, req.needs);
    forall d | d in h.dependencies
      ensures tasks[d].jobId == jobId
    {
      NeedsOfOneJob(tasks, jobId, req.needs, d);
    }
  }

  /** The three ways a new task with no missing need can be inserted, and the one in which it is refused. */
  lemma InsertionIs(c: Core, id: string, h: Handler, jobId: string, req: TaskRequest)
    requires MissingNeed(c.tasks, jobId, req.needs).None?
    requires h.nodeRequest.None?
    requires WithNeeds(h, jobId, req.needs).nodeRequest.None? && Keyed(id, WithNeeds(h, jobId, req.needs))
    ensures var h1 := WithNeeds(h, jobId, req.needs);
      var c1 := c.(tasks := c.tasks[id := h1], stamp := c.stamp[id := |c.log|], log := c.log + [Inserted(id, h1.dependencies.Keys)]);
      var (c', r) := ValidateRest(c, id, h, jobId, req);
      var endpoint := h1.capabilityFilters.endpoint;
      if h1.inDegrees != 0 then
        c' == c1 && r == Ok(false)
      else if Find(c.pool, endpoint).1.Some? then
        var h2 := h1.(task := h1.task.(receiver := Some(Find(c.pool, endpoint).1.value.id)));
        c' == c1.(tasks := c1.tasks[id := h2], pool := Find(c.pool, endpoint).0) && r == Ok(true) && h2.Ready()
      else if h1.resourceRecruitment.recruitmentPolicy == FAIL then
        c' == c && r.Err?
      else
        var (asked, t) := Request(c.pool, endpoint);
        var h2 := h1.(task := h1.task.(receiver := None), nodeRequest := Some(t));
        c' == c1.(tasks := c1.tasks[id := h2], pool := asked, waiters := c1.waiters[t := id]) && r == Ok(false)
  {
    hide Find, Request;
    var h1 := WithNeeds(h, jobId, req.needs);
    var endpoint := h1.capabilityFilters.endpoint;
    if Find(c.pool, endpoint).1.Some? {
      assert c.tasks[id := h1][id := h1.(task := h1.task.(receiver := Some(Find(c.pool, endpoint).1.value.id)))]
          == c.tasks[id := h1.(task := h1.task.(receiver := Some(Find(c.pool, endpoint).1.value.id)))];
    } else {
      var h2 := h1.(task := h1.task.(receiver := None), nodeRequest := Some(Request(c.pool, endpoint).1));
      assert c.tasks[id := h1][id := h2] == c.tasks[id := h2];
    }
  }

  /**
    A validated new task is inserted with its needs. It then waits for them, or has asked for a
    node, or is ready, in which case it is the hole that accept_job's list fills.
   */
  lemma NewTaskKeeps(c: Core, jobId: string, req: TaskRequest, timeout: nat, accepting: map<string, Accepting>, jobs: set<string>)
    requires Within(c, accepting, jobs, "", {}, None)
    requires jobId in jobs && NoDash(jobId) && TaskIdOf(jobId, req.name) !in c.stamp && Unclaimed(accepting, TaskIdOf(jobId, req.name))
    ensures var id := TaskIdOf(jobId, req.name);
      var (c', r) := ValidateRest(c, id, NewHandler(jobId, req, timeout), jobId, req);
      if r.Err? then c' == c
      else
        && Within(c', accepting, jobs, "", {}, if r.value then Some(id) else None)
        && id in c'.tasks && c'.tasks[id].jobId == jobId
        && (r.value ==> c'.tasks[id].Ready())
  {
    hide *;
    var id, h := TaskIdOf(jobId, req.name), NewHandler(jobId, req, timeout);
    Unfold(c, accepting, jobs, "", {}, None);
    NoMissingNeed(c.tasks, jobId, req.needs);
    if MissingNeed(c.tasks, jobId, req.needs).Some? {
      MissingIsRefused(c, id, h, jobId, req);
    } else {
      var h1 := WithNeeds(h, jobId, req.needs);
      NewHandlerIsInsertable(c.tasks, c.stamp, jobId, req, timeout);
      InsertableIs(c.tasks, c.stamp, id, h1);
      NewHandlerIsUnplaced(jobId, req, timeout);
      InsertionIs(c, id, h, jobId, req);
      InsertKeeps(c, id, h1, accepting, jobs);
      var c1 := c.(tasks := c.tasks[id := h1], stamp := c.stamp[id := |c.log|], log := c.log + [Inserted(id, h1.dependencies.Keys)]);
      var endpoint := h1.capabilityFilters.endpoint;
      if h1.inDegrees == 0 {
        if Find(c.pool, endpoint).1.Some? {
          FindKeeps(c.pool, endpoint);
          FoundKeeps(c1, id, Find(c.pool, endpoint).1.value.id, Find(c.pool, endpoint).0, accepting, jobs, "", {});
        } else {
          AskedKeeps(c1, id, endpoint, accepting, jobs, "", {});
        }
      }
    }
  }

  lemma MissingIsRefused(c: Core, id: string, h: Handler, jobId: string, req: TaskRequest)
    requires MissingNeed(c.tasks, jobId, req.needs).Some?
    ensures ValidateRest(c, id, h, jobId, req).0 == c && ValidateRest(c, id, h, jobId, req).1.Err?
  {
  }

  lemma InsertableIs(tasks: map<string, Handler>, stamp: map<string, nat>, id: string, h: Handler)
    requires Insertable(tasks, stamp, id, h)
    ensures Keyed(id, h) && h.nodeRequest.None?
  {
  }

  lemma NewHandlerIsUnplaced(jobId: string, req: TaskRequest, timeout: nat)
    ensures NewHandler(jobId, req, timeout).nodeRequest.None?
  {
  }

  lemma TaskIdsDiffer(job1: string, name1: string, job2: string, name2: string)
    requires NoDash(job1) && NoDash(job2) && (job1 != job2 || name1 != name2)
    ensures TaskIdOf(job1, name1) != TaskIdOf(job2, name2)
  {
    if TaskIdOf(job1, name1) == TaskIdOf(job2, name2) {
      TaskIdIsInjective(job1, name1, job2, name2);
    }
  }

  /** The id that accept_job validates next is claimed by nobody once its request is off the list. */
  lemma NextIsUnclaimed(tasks: map<string, Handler>, stamp: map<string, nat>, jobId: string, accepting: map<string, Accepting>, jobs: set<string>)
    requires jobId in accepting && accepting[jobId].rest != [] && Admission(tasks, stamp, accepting, jobs)
    ensures var id := TaskIdOf(jobId, accepting[jobId].rest[0].req.name);
      && NoDash(jobId) && jobId in jobs && id !in stamp
      && Unclaimed(accepting[jobId := accepting[jobId].(rest := accepting[jobId].rest[1..])], id)
  {
    var rest := accepting[jobId].rest;
    var accepting' := accepting[jobId := accepting[jobId].(rest := rest[1..])];
    var id := TaskIdOf(jobId, rest[0].req.name);
    assert AcceptingAt(tasks, stamp, jobs, jobId, accepting[jobId]);
    forall j, i | j in accepting' && 0 <= i < |accepting'[j].rest|
      ensures TaskIdOf(j, accepting'[j].rest[i].req.name) != id
    {
      assert AcceptingAt(tasks, stamp, jobs, j, accepting[j]);
      if j == jobId { assert accepting'[j].rest[i] == rest[i + 1]; }
      TaskIdsDiffer(j, accepting'[j].rest[i].req.name, jobId, rest[0].req.name);
    }
  }

  /** What accept_job's next step does when the task id is new. */
  lemma AcceptStepIs(s: System, jobId: string)
    requires jobId in s.accepting && s.accepting[jobId].rest != []
    requires TaskIdOf(jobId, s.accepting[jobId].rest[0].req.name) !in s.core.tasks
    ensures var a := s.accepting[jobId];
      var sub := a.rest[0];
      var id := TaskIdOf(jobId, sub.req.name);
      AcceptStep(s, jobId) ==
        if sub.timeout.None? then s.(core := RemoveJob(s.core, jobId), accepting := s.accepting - {jobId})
        else
          var (c, r) := ValidateRest(s.core, id, NewHandler(jobId, sub.req, sub.timeout.value), jobId, sub.req);
          if r.Err? then s.(core := RemoveJob(c, jobId), accepting := s.accepting - {jobId})
          else s.(core := c, accepting := s.accepting[jobId := Accepting(a.rest[1..], if r.value then a.ready + [id] else a.ready)])
  {
  }

  lemma AcceptKeeps(s: System, jobId: string)
    requires Inv(s)
    ensures Inv(AcceptStep(s, jobId))
  {
    hide *;
    InvIs(s);
    InvIs(AcceptStep(s, jobId));
    if jobId !in s.accepting {
      AcceptNothing(s, jobId);
    } else if s.accepting[jobId].rest == [] {
      AcceptNothing(s, jobId);
      PushKeeps(s.core, jobId, s.accepting[jobId].ready, s.accepting, s.jobs);
    } else {
      AcceptNextKeeps(s, jobId);
    }
  }

  lemma InvIs(s: System)
    ensures Inv(s) <==> Within(s.core, s.accepting, s.jobs, "", {}, None)
  {
  }

  lemma AcceptNothing(s: System, jobId: string)
    ensures jobId !in s.accepting ==> AcceptStep(s, jobId) == s
    ensures jobId in s.accepting && s.accepting[jobId].rest == [] ==>
              AcceptStep(s, jobId) == s.(core := Push(s.core, s.accepting[jobId].ready), accepting := s.accepting - {jobId})
  {
  }

  lemma AcceptNextKeeps(s: System, jobId: string)
    requires Within(s.core, s.accepting, s.jobs, "", {}, None)
    requires jobId in s.accepting && s.accepting[jobId].rest != []
    ensures var s' := AcceptStep(s, jobId);
      Within(s'.core, s'.accepting, s'.jobs, "", {}, None)
  {
    hide *;
    var c, a := s.core, s.accepting[jobId];
    var sub := a.rest[0];
    var id := TaskIdOf(jobId, sub.req.name);
    Unfold(c, s.accepting, s.jobs, "", {}, None);
    StampedTasks(c.tasks, c.stamp, c.log);
    NextIsUnclaimed(c.tasks, c.stamp, jobId, s.accepting, s.jobs);
    AcceptStepIs(s, jobId);
    RemoveKeeps(c, jobId, s.accepting, s.jobs);
    if sub.timeout.Some? {
      var accepting1 := s.accepting[jobId := a.(rest := a.rest[1..])];
      NextRequestKeeps(c, jobId, s.accepting, s.jobs);
      NewTaskKeeps(c, jobId, sub.req, sub.timeout.value, accepting1, s.jobs);
      var (c', r) := ValidateRest(c, id, NewHandler(jobId, sub.req, sub.timeout.value), jobId, sub.req);
      if r.Ok? && r.value {
        PendKeeps(c', id, accepting1, s.jobs);
        assert accepting1[jobId := Accepting(a.rest[1..], a.ready + [id])] == s.accepting[jobId := Accepting(a.rest[1..], a.ready + [id])];
      }
    }
  }

  // ---------- Runs ----------

  lemma StepKeeps(s: System, action: Action)
    requires Inv(s) && Allowed(s, action)
    ensures Inv(Step(s, action))
  {
    hide Within, AcceptStep, Register, Deliver, Next, Update, Retry, IsOrder;
    var c := s.core;
    match action
    case Submit(jobId, subs) => SubmitKeeps(c, jobId, subs, s.accepting, s.jobs);
    case Accept(jobId) => AcceptKeeps(s, jobId);
    case Join(node) =>
      Unfold(c, s.accepting, s.jobs, "", {}, None);
      RegisterKeeps(c.pool, node);
      PoolKeeps(c, Register(c.pool, node), s.accepting, s.jobs);
    case Receive(t) => DeliverKeeps(c, t, s.accepting, s.jobs);
    case Dispatch =>
      NextIs(c);
      if c.queue != [] { TakeKeeps(c, Dispatched(c.queue[0], c.queue[0] in c.tasks), s.accepting, s.jobs); }
    case Interrupt =>
      if c.queue != [] { TakeKeeps(c, Lost(c.queue[0]), s.accepting, s.jobs); }
    case Report(task, order) => ReportKeeps(c, task, order, s.accepting, s.jobs);
    case RetryTask(key) => RetryKeeps(c, key, s.accepting, s.jobs);
  }

  lemma NextIs(c: Core)
    ensures Next(c).0 ==
      if c.queue == [] then c
      else c.(queue := c.queue[1..], log := c.log + [Dispatched(c.queue[0], c.queue[0] in c.tasks)])
  {
  }

  /** The invariant holds after every run. */
  lemma {:induction false} RunKeeps(run: seq<Action>)
    requires IsRun(run)
    ensures Inv(AfterRun(run))
    decreases |run|
  {
    hide Inv, Step, Allowed;
    if run == [] {
      InvInitially();
    } else {
      RunKeeps(run[..|run| - 1]);
      StepKeeps(AfterRun(run[..|run| - 1]), run[|run| - 1]);
    }
  }
}
