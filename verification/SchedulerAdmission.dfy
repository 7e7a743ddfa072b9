/** accept_job as a whole: when it accepts a job, and that it is all or nothing. */
module SchedulerAdmission {
  import opened Wrappers
  import opened Messages
  import opened Nodes
  import opened Orders
  import opened Scheduler
  import opened SchedulerInvariant
  import opened SchedulerSteps
  import opened SchedulerRuns
  import NodesProperties

  /** The loop of accept_job: the ids to queue at the end, or None once a task was refused. */
  function AcceptAll(c: Core, jobId: string, subs: seq<Submission>, ready: seq<string>): (r: (Core, Option<seq<string>>))
    decreases |subs|
  {
    if subs == [] then (c, Some(ready))
    else
      var (c1, result) := Validate(c, jobId, subs[0].req, subs[0].timeout);
      match result
      case Err(_) => (RemoveJob(c1, jobId), None)
      case Ok(isReady) =>
        AcceptAll(c1, jobId, subs[1..], if isReady then ready + [TaskIdOf(jobId, subs[0].req.name)] else ready)
  }

  /** accept_job without other steps in between; the flag says whether the job was accepted. */
  function AcceptJob(c: Core, jobId: string, subs: seq<Submission>): (r: (Core, bool)) {
    match AcceptAll(c, jobId, subs, [])
    case (c1, None) => (c1, false)
    case (c1, Some(ready)) => (Push(c1, ready), true)
  }

  function Ids(jobId: string, subs: seq<Submission>): set<string> {
    set i | 0 <= i < |subs| :: TaskIdOf(jobId, subs[i].req.name)
  }

  /** A request that validate_task takes when the tasks `ids` of its job are already there. */
  ghost predicate Acceptable(pool: NodesState, jobId: string, sub: Submission, ids: set<string>) {
    && sub.timeout.Some?
    && NeedIds(jobId, sub.req.needs) <= ids
    && (sub.req.needs == [] && sub.req.resourceRecruitment.recruitmentPolicy == FAIL ==>
          Pool(pool, sub.req.capabilityFilters.endpoint) != [])
  }

  /** Every request parses, needs only earlier tasks of the job, and finds a node if it may not wait for one. */
  ghost predicate AllAcceptable(pool: NodesState, jobId: string, subs: seq<Submission>) {
    forall i | 0 <= i < |subs| :: Acceptable(pool, jobId, subs[i], Ids(jobId, subs[..i]))
  }

  /** The state in the middle of accept_job: the job's own tasks so far, on top of an untouched rest. */
  ghost predicate Partial(c0: Core, c: Core, jobId: string, done: set<string>, ready: seq<string>) {
    && Valid(c.pool)
    && (forall e :: Pool(c.pool, e) == Pool(c0.pool, e))
    && c.queue == c0.queue
    && c.tasks.Keys == c0.tasks.Keys + done
    && Others(c.tasks, jobId) == c0.tasks
    && QueuesReady(c.tasks, done, ready)
  }

  /** The list names exactly the ready ones among the tasks `done`, each once. */
  ghost predicate QueuesReady(tasks: map<string, Handler>, done: set<string>, ready: seq<string>) {
    && NoDuplicates(ready)
    && (forall id | id in ready :: id in done)
    && (forall id | id in done && id in tasks :: id in ready <==> tasks[id].Ready())
  }

  /** Nothing of this job is in the map yet. */
  ghost predicate FreshJob(c: Core, jobId: string) {
    && NoDash(jobId)
    && (forall id | id in c.tasks :: c.tasks[id].jobId != jobId)
    && (forall name :: TaskIdOf(jobId, name) !in c.tasks)
  }

  lemma SameJobIds(jobId: string, name1: string, name2: string)
    requires TaskIdOf(jobId, name1) == TaskIdOf(jobId, name2)
    ensures name1 == name2
  {
    assert name1 == TaskIdOf(jobId, name1)[|jobId| + 1..];
    assert name2 == TaskIdOf(jobId, name2)[|jobId| + 1..];
  }

  lemma NeedCount(h: Handler, jobId: string, needs: seq<string>)
    requires h.inDegrees == 0
    ensures WithNeeds(h, jobId, needs).inDegrees == 0 <==> needs == []
  {
    if needs != [] {
      assert TaskIdOf(jobId, needs[0]) in NeedIds(jobId, needs);
    }
  }

  lemma NeedIdsAreNames(jobId: string, needs: seq<string>, tasks: set<string>, done: set<string>)
    requires forall name :: TaskIdOf(jobId, name) in tasks ==> TaskIdOf(jobId, name) in done
    requires done <= tasks
    ensures NeedIds(jobId, needs) <= tasks <==> NeedIds(jobId, needs) <= done
  {
  }

  /** Validating one request of a fresh job: taken exactly when acceptable, and then added to the job's tasks. */
  lemma ValidateOne(c0: Core, c: Core, jobId: string, sub: Submission, done: set<string>, ready: seq<string>)
    requires FreshJob(c0, jobId) && Partial(c0, c, jobId, done, ready)
    requires TaskIdOf(jobId, sub.req.name) !in done
    ensures var id := TaskIdOf(jobId, sub.req.name);
      var (c', r) := Validate(c, jobId, sub.req, sub.timeout);
      && (r.Ok? <==> Acceptable(c0.pool, jobId, sub, done))
      && (r.Err? ==> c' == c)
      && (r.Ok? ==> Partial(c0, c', jobId, done + {id}, if r.value then ready + [id] else ready))
  {
    var id := TaskIdOf(jobId, sub.req.name);
    assert id !in c0.tasks && id !in c.tasks;
    if sub.timeout.Some? {
      ValidateNew(c0, c, jobId, sub, done, ready);
    }
  }

  lemma ValidateNew(c0: Core, c: Core, jobId: string, sub: Submission, done: set<string>, ready: seq<string>)
    requires FreshJob(c0, jobId) && Partial(c0, c, jobId, done, ready) && sub.timeout.Some?
    requires TaskIdOf(jobId, sub.req.name) !in c.tasks
    ensures var id := TaskIdOf(jobId, sub.req.name);
      var (c', r) := ValidateRest(c, id, NewHandler(jobId, sub.req, sub.timeout.value), jobId, sub.req);
      && (r.Ok? <==> Acceptable(c0.pool, jobId, sub, done))
      && (r.Err? ==> c' == c)
      && (r.Ok? ==> Partial(c0, c', jobId, done + {id}, if r.value then ready + [id] else ready))
  {
    hide *;
    var id, h := TaskIdOf(jobId, sub.req.name), NewHandler(jobId, sub.req, sub.timeout.value);
    NeedsInScope(c0, c, jobId, sub, done, ready);
    AcceptableIs(c0.pool, jobId, sub, done);
    NewHandlerFacts(jobId, sub.req, sub.timeout.value);
    if MissingNeed(c.tasks, jobId, sub.req.needs).Some? {
      MissingIsRefused(c, id, h, jobId, sub.req);
    } else {
      InsertionIs(c, id, h, jobId, sub.req);
      InsertPartial(c0, c, jobId, done, ready, id, WithNeeds(h, jobId, sub.req.needs));
    }
  }

  lemma AcceptableIs(pool: NodesState, jobId: string, sub: Submission, ids: set<string>)
    ensures Acceptable(pool, jobId, sub, ids) <==>
      && sub.timeout.Some?
      && NeedIds(jobId, sub.req.needs) <= ids
      && (sub.req.needs == [] && sub.req.resourceRecruitment.recruitmentPolicy == FAIL ==>
            Pool(pool, sub.req.capabilityFilters.endpoint) != [])
  {
  }

  lemma NeedsInScope(c0: Core, c: Core, jobId: string, sub: Submission, done: set<string>, ready: seq<string>)
    requires FreshJob(c0, jobId) && Partial(c0, c, jobId, done, ready)
    ensures MissingNeed(c.tasks, jobId, sub.req.needs).None? <==> NeedIds(jobId, sub.req.needs) <= done
    ensures NoDash(jobId)
  {
    hide Valid, Pool;
    NeedIdsAreNames(jobId, sub.req.needs, c.tasks.Keys, done);
    NoMissingNeed(c.tasks, jobId, sub.req.needs);
  }

  /** All three ways of inserting leave the rest of the map and the pools alone. */
  lemma InsertPartial(c0: Core, c: Core, jobId: string, done: set<string>, ready: seq<string>, id: string, h1: Handler)
    requires Partial(c0, c, jobId, done, ready) && id !in c.tasks && h1.jobId == jobId
    ensures var endpoint := h1.capabilityFilters.endpoint;
      var c1 := c.(tasks := c.tasks[id := h1], stamp := c.stamp[id := |c.log|], log := c.log + [Inserted(id, h1.dependencies.Keys)]);
      var (found, node) := Find(c.pool, endpoint);
      var (asked, t) := Request(c.pool, endpoint);
      && (node.Some? <==> Pool(c0.pool, endpoint) != [])
      && (h1.inDegrees != 0 ==> Partial(c0, c1, jobId, done + {id}, ready))
      && (node.Some? && h1.inDegrees == 0 ==>
            var h2 := h1.(task := h1.task.(receiver := Some(node.value.id)));
            Partial(c0, c1.(tasks := c1.tasks[id := h2], pool := found), jobId, done + {id}, ready + [id]))
      && (var h2 := h1.(task := h1.task.(receiver := None), nodeRequest := Some(t));
          Partial(c0, c1.(tasks := c1.tasks[id := h2], pool := asked, waiters := c1.waiters[t := id]), jobId, done + {id}, ready))
  {
    hide *;
    var endpoint := h1.capabilityFilters.endpoint;
    PoolAfterFind(c0, c, jobId, done, ready, endpoint);
    var c1 := c.(tasks := c.tasks[id := h1], stamp := c.stamp[id := |c.log|], log := c.log + [Inserted(id, h1.dependencies.Keys)]);
    var (found, node) := Find(c.pool, endpoint);
    var (asked, t) := Request(c.pool, endpoint);
    PartialValid(c0, c, jobId, done, ready);
    ReadyIs(h1);
    PartialInsert(c0, c, c1, jobId, done, ready, id, h1);
    if node.Some? {
      var h2 := h1.(task := h1.task.(receiver := Some(node.value.id)));
      assert c1.tasks[id := h2] == c.tasks[id := h2];
      ReadyIs(h2);
      PartialInsert(c0, c, c1.(tasks := c1.tasks[id := h2], pool := found), jobId, done, ready, id, h2);
    }
    var h2 := h1.(task := h1.task.(receiver := None), nodeRequest := Some(t));
    assert c1.tasks[id := h2] == c.tasks[id := h2];
    ReadyIs(h2);
    PartialInsert(c0, c, c1.(tasks := c1.tasks[id := h2], pool := asked, waiters := c1.waiters[t := id]), jobId, done, ready, id, h2);
  }

  lemma ReadyIs(h: Handler)
    ensures h.Ready() <==> h.inDegrees == 0 && h.task.receiver.Some?
  {
  }

  lemma PartialValid(c0: Core, c: Core, jobId: string, done: set<string>, ready: seq<string>)
    requires Partial(c0, c, jobId, done, ready)
    ensures Valid(c.pool) && forall e :: Pool(c.pool, e) == Pool(c0.pool, e)
  {
  }

  lemma NewHandlerFacts(jobId: string, req: TaskRequest, timeout: nat)
    requires NoDash(jobId)
    ensures var h := NewHandler(jobId, req, timeout);
      var h1 := WithNeeds(h, jobId, req.needs);
      && (h1.inDegrees == 0 <==> req.needs == [])
      && h.nodeRequest.None? && h1.nodeRequest.None? && h1.jobId == jobId
      && Keyed(TaskIdOf(jobId, req.name), h1)
      && h1.capabilityFilters == req.capabilityFilters
      && h1.resourceRecruitment == req.resourceRecruitment
  {
    NeedCount(NewHandler(jobId, req, timeout), jobId, req.needs);
  }

  lemma PoolAfterFind(c0: Core, c: Core, jobId: string, done: set<string>, ready: seq<string>, endpoint: string)
    requires Partial(c0, c, jobId, done, ready)
    ensures Find(c.pool, endpoint).1.Some? <==> Pool(c0.pool, endpoint) != []
    ensures Valid(Find(c.pool, endpoint).0) && Valid(Request(c.pool, endpoint).0)
    ensures forall e :: Pool(Find(c.pool, endpoint).0, e) == Pool(c0.pool, e) && Pool(Request(c.pool, endpoint).0, e) == Pool(c0.pool, e)
  {
    NodesProperties.FindIsTotal(c.pool, endpoint);
    FindKeeps(c.pool, endpoint);
    RequestKeeps(c.pool, endpoint);
    hide Find, Valid;
    forall e
      ensures Pool(Find(c.pool, endpoint).0, e) == Pool(c0.pool, e)
    {
      assert Pool(c.pool, e) == Pool(c0.pool, e);
    }
  }

  /** Adding one task of the job, whatever becomes of the pool and the waiting recruitments. */
  lemma PartialInsert(c0: Core, c: Core, c': Core, jobId: string, done: set<string>, ready: seq<string>, id: string, h: Handler)
    requires Partial(c0, c, jobId, done, ready) && id !in c.tasks && h.jobId == jobId
    requires c'.tasks == c.tasks[id := h] && c'.queue == c.queue
    requires Valid(c'.pool) && forall e :: Pool(c'.pool, e) == Pool(c0.pool, e)
    ensures Partial(c0, c', jobId, done + {id}, if h.Ready() then ready + [id] else ready)
  {
    hide Valid, Pool;
    assert Others(c'.tasks, jobId) == Others(c.tasks, jobId);
    QueuesOneMore(c.tasks, done, ready, id, h);
  }

  lemma QueuesOneMore(tasks: map<string, Handler>, done: set<string>, ready: seq<string>, id: string, h: Handler)
    requires QueuesReady(tasks, done, ready) && id !in done
    ensures QueuesReady(tasks[id := h], done + {id}, if h.Ready() then ready + [id] else ready)
  {
  }

  // ---------- The whole loop ----------

  lemma IdsStep(jobId: string, subs: seq<Submission>, k: nat)
    requires k < |subs|
    ensures Ids(jobId, subs[..k + 1]) == Ids(jobId, subs[..k]) + {TaskIdOf(jobId, subs[k].req.name)}
  {
  }

  lemma NewName(jobId: string, subs: seq<Submission>, k: nat)
    requires DistinctNames(subs) && k < |subs|
    ensures TaskIdOf(jobId, subs[k].req.name) !in Ids(jobId, subs[..k])
  {
    forall i | 0 <= i < k
      ensures TaskIdOf(jobId, subs[i].req.name) != TaskIdOf(jobId, subs[k].req.name)
    {
      if TaskIdOf(jobId, subs[i].req.name) == TaskIdOf(jobId, subs[k].req.name) {
        SameJobIds(jobId, subs[i].req.name, subs[k].req.name);
      }
    }
  }

  lemma RemovedPartial(c0: Core, c: Core, jobId: string, done: set<string>, ready: seq<string>)
    requires Partial(c0, c, jobId, done, ready)
    ensures RemoveJob(c, jobId).tasks == c0.tasks && RemoveJob(c, jobId).queue == c0.queue
  {
  }

  /** From the k-th request on: everything is taken, or the map is as it was before the job came. */
  lemma {:induction false} AcceptRest(c0: Core, c: Core, jobId: string, subs: seq<Submission>, k: nat, ready: seq<string>)
    requires FreshJob(c0, jobId) && DistinctNames(subs) && k <= |subs|
    requires Partial(c0, c, jobId, Ids(jobId, subs[..k]), ready)
    ensures var (c', r) := AcceptAll(c, jobId, subs[k..], ready);
      && (r.Some? <==> forall i | k <= i < |subs| :: Acceptable(c0.pool, jobId, subs[i], Ids(jobId, subs[..i])))
      && (r.None? ==> c'.tasks == c0.tasks && c'.queue == c0.queue)
      && (r.Some? ==> Partial(c0, c', jobId, Ids(jobId, subs), r.value))
    decreases |subs| - k
  {
    hide Partial, Acceptable, FreshJob, Validate, RemoveJob, Ids;
    if k == |subs| {
      assert subs[..k] == subs;
    } else {
      var sub, id := subs[k], TaskIdOf(jobId, subs[k].req.name);
      assert subs[k..][0] == sub && subs[k..][1..] == subs[k + 1..];
      NewName(jobId, subs, k);
      IdsStep(jobId, subs, k);
      ValidateOne(c0, c, jobId, sub, Ids(jobId, subs[..k]), ready);
      var (c1, r1) := Validate(c, jobId, sub.req, sub.timeout);
      if r1.Err? {
        RemovedPartial(c0, c1, jobId, Ids(jobId, subs[..k]), ready);
      } else {
        AcceptRest(c0, c1, jobId, subs, k + 1, if r1.value then ready + [id] else ready);
      }
    }
  }

  lemma {:induction false} PushedIds(c: Core, ids: seq<string>)
    ensures Push(c, ids).tasks == c.tasks && Push(c, ids).queue == c.queue + ids
    decreases |ids|
  {
    if ids == [] {
      assert c.queue + [] == c.queue;
    } else {
      var n := |ids| - 1;
      PushedIds(c, ids[..n]);
      assert c.queue + ids[..n] + [ids[n]] == c.queue + ids;
    }
  }

  /**
    accept_job takes a fresh job exactly when every request is acceptable. It then adds exactly the
    job's tasks and queues exactly the ready ones, each once; otherwise map and queue are what they were.
   */
  lemma AcceptJobIsAllOrNothing(c: Core, jobId: string, subs: seq<Submission>)
    requires FreshJob(c, jobId) && DistinctNames(subs) && Valid(c.pool)
    ensures var (c', accepted) := AcceptJob(c, jobId, subs);
      && (accepted <==> AllAcceptable(c.pool, jobId, subs))
      && (!accepted ==> c'.tasks == c.tasks && c'.queue == c.queue)
      && (accepted ==>
            && c'.tasks.Keys == c.tasks.Keys + Ids(jobId, subs)
            && Others(c'.tasks, jobId) == c.tasks
            && exists ready :: c'.queue == c.queue + ready && QueuesReady(c'.tasks, Ids(jobId, subs), ready) && InRequestOrder(ready, jobId, subs))
  {
    PartialAtStart(c, jobId);
    ListedInRequestOrder(c, jobId, subs, []);
    hide Acceptable, FreshJob, AcceptAll, Valid, Pool, InRequestOrder;
    assert subs[..0] == [] && subs[0..] == subs && Ids(jobId, subs[..0]) == {};
    AcceptRest(c, c, jobId, subs, 0, []);
    var (c1, r) := AcceptAll(c, jobId, subs, []);
    if r.Some? {
      PushedIds(c1, r.value);
      assert [] + r.value == r.value;
    }
  }

  /** The ids are those of some of the requests, in the order of the requests. */
  ghost predicate InRequestOrder(ids: seq<string>, jobId: string, subs: seq<Submission>)
    decreases |subs|
  {
    ids == [] ||
    (subs != [] &&
     ((ids[0] == TaskIdOf(jobId, subs[0].req.name) && InRequestOrder(ids[1..], jobId, subs[1..])) || InRequestOrder(ids, jobId, subs[1..])))
  }

  lemma {:induction false} ListedInRequestOrder(c: Core, jobId: string, subs: seq<Submission>, ready: seq<string>)
    ensures var r := AcceptAll(c, jobId, subs, ready).1;
      r.Some? ==> ready <= r.value && InRequestOrder(r.value[|ready|..], jobId, subs)
    decreases |subs|
  {
    hide Validate, RemoveJob, TaskIdOf;
    if subs != [] {
      var (c1, result) := Validate(c, jobId, subs[0].req, subs[0].timeout);
      if result.Ok? {
        var id := TaskIdOf(jobId, subs[0].req.name);
        var ready1 := if result.value then ready + [id] else ready;
        ListedInRequestOrder(c1, jobId, subs[1..], ready1);
        var r := AcceptAll(c1, jobId, subs[1..], ready1).1;
        if r.Some? && result.value {
          assert r.value[|ready|..][0] == ready1[|ready|] == id;
          assert r.value[|ready|..][1..] == r.value[|ready1|..];
        }
      }
    }
  }

  lemma PartialAtStart(c: Core, jobId: string)
    requires FreshJob(c, jobId) && Valid(c.pool)
    ensures Partial(c, c, jobId, {}, [])
  {
  }

  // ---------- With other steps in between ----------

  /** In a run, one step of accept_job touches no task of another job, and a refusal leaves none of its own. */
  lemma AcceptTouchesOnlyItsJob(run: seq<Action>, jobId: string)
    requires IsRun(run) && jobId in AfterRun(run).accepting
    ensures var s, s' := AfterRun(run), AcceptStep(AfterRun(run), jobId);
      && (forall id | id in s.core.tasks && s.core.tasks[id].jobId != jobId ::
            id in s'.core.tasks && s'.core.tasks[id] == s.core.tasks[id])
      && (jobId !in s'.accepting && s.accepting[jobId].rest != [] ==>
            s'.core.tasks == Others(s.core.tasks, jobId) && s'.core.queue == s.core.queue)
  {
    RunKeeps(run);
    var s := AfterRun(run);
    hide *;
    InvIs(s);
    AcceptNothing(s, jobId);
    if s.accepting[jobId].rest == [] {
      PushedIds(s.core, s.accepting[jobId].ready);
    } else {
      AcceptNextTouches(s, jobId);
    }
  }

  lemma AcceptNextTouches(s: System, jobId: string)
    requires Within(s.core, s.accepting, s.jobs, "", {}, None)
    requires jobId in s.accepting && s.accepting[jobId].rest != []
    ensures var s' := AcceptStep(s, jobId);
      && (forall id | id in s.core.tasks && s.core.tasks[id].jobId != jobId ::
            id in s'.core.tasks && s'.core.tasks[id] == s.core.tasks[id])
      && (jobId !in s'.accepting ==>
            s'.core.tasks == Others(s.core.tasks, jobId) && s'.core.queue == s.core.queue)
  {
    hide *;
    var c, a := s.core, s.accepting[jobId];
    var sub := a.rest[0];
    var id := TaskIdOf(jobId, sub.req.name);
    Unfold(c, s.accepting, s.jobs, "", {}, None);
    StampedTasks(c.tasks, c.stamp, c.log);
    NextIsUnclaimed(c.tasks, c.stamp, jobId, s.accepting, s.jobs);
    AcceptStepIs(s, jobId);
    RemovedIs(c, jobId);
    if sub.timeout.Some? {
      NewHandlerIsUnplaced(jobId, sub.req, sub.timeout.value);
      ValidateTouches(c, id, NewHandler(jobId, sub.req, sub.timeout.value), jobId, sub.req);
    }
  }

  lemma RemovedIs(c: Core, jobId: string)
    ensures RemoveJob(c, jobId).tasks == Others(c.tasks, jobId) && RemoveJob(c, jobId).queue == c.queue
    ensures forall id | id in c.tasks && c.tasks[id].jobId != jobId :: id in Others(c.tasks, jobId) && Others(c.tasks, jobId)[id] == c.tasks[id]
  {
  }

  lemma ValidateTouches(c: Core, id: string, h: Handler, jobId: string, req: TaskRequest)
    requires id !in c.tasks && h.nodeRequest.None?
    ensures var (c', r) := ValidateRest(c, id, h, jobId, req);
      && (r.Err? ==> c' == c)
      && (forall i | i in c.tasks :: i in c'.tasks && c'.tasks[i] == c.tasks[i])
  {
  }
}
