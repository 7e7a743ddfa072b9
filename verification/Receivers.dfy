/**
  Who gets a task: whatever is queued goes to a node that joined and offered the task's endpoint,
  whether it was found in a pool, received later, or recruited when the last need was done.
 */
module Receivers {
  import opened Wrappers
  import opened Messages
  import opened Nodes
  import opened Orders
  import opened Scheduler
  import opened SchedulerInvariant
  import opened SchedulerSteps
  import opened SchedulerRuns
  import Codec

  type Pair = (string, string)

  // ---------- What the nodes of a run have offered ----------

  function OffersOf(node: Node): set<Pair> {
    set e | e in node.capabilities :: (node.id, e)
  }

  function Offered(run: seq<Action>): set<Pair>
    decreases |run|
  {
    if run == [] then {}
    else
      var n := |run| - 1;
      Offered(run[..n]) + if run[n].Join? then OffersOf(run[n].node) else {}
  }

  lemma {:induction false} OfferedByJoining(run: seq<Action>, nodeId: string, e: string)
    requires (nodeId, e) in Offered(run)
    ensures exists i :: 0 <= i < |run| && run[i].Join? && run[i].node.id == nodeId && e in run[i].node.capabilities
    decreases |run|
  {
    var n := |run| - 1;
    if (nodeId, e) in Offered(run[..n]) {
      OfferedByJoining(run[..n], nodeId, e);
      var i :| 0 <= i < n && run[..n][i].Join? && run[..n][i].node.id == nodeId && e in run[..n][i].node.capabilities;
      assert run[i].Join?;
    } else {
      assert run[n].Join?;
    }
  }

  // ---------- The invariant ----------

  /** Pools and served channels hold nodes that offered their endpoint. */
  ghost predicate PoolOffers(pool: NodesState, offers: set<Pair>) {
    && (forall id | id in pool.nodes :: pool.nodes[id].id == id)
    && (forall e, i | e in pool.balancer.capabilities && 0 <= i < |pool.balancer.capabilities[e]| ::
          (pool.balancer.capabilities[e][i], e) in offers)
    && (forall t | t in pool.channels && pool.channels[t].node.Some? :: (pool.channels[t].node.value, pool.channels[t].endpoint) in offers)
  }

  /** Whoever waits for a node has asked for its own endpoint. */
  ghost predicate Asks(tasks: map<string, Handler>, waiters: map<Ticket, string>, channels: map<Ticket, Channel>) {
    forall t | t in waiters && t in channels && waiters[t] in tasks ::
      channels[t].endpoint == tasks[waiters[t]].capabilityFilters.endpoint
  }

  /** Queued once, other than by a retry, or about to be. */
  ghost predicate Placed(log: seq<Event>, accepting: map<string, Accepting>, jobId: string, id: string) {
    Enqueued(id, Initial) in log || Pending(accepting, jobId, id) > 0
  }

  ghost predicate GoesToOffer(h: Handler, offers: set<Pair>) {
    h.task.receiver.Some? ==> (h.task.receiver.value, h.capabilityFilters.endpoint) in offers
  }

  ghost predicate GoToOffers(tasks: map<string, Handler>, log: seq<Event>, accepting: map<string, Accepting>, offers: set<Pair>) {
    forall id | id in tasks && Placed(log, accepting, tasks[id].jobId, id) :: GoesToOffer(tasks[id], offers)
  }

  ghost predicate Receives(c: Core, accepting: map<string, Accepting>, offers: set<Pair>) {
    && WellKeyed(c.tasks)
    && PoolOffers(c.pool, offers)
    && Asks(c.tasks, c.waiters, c.pool.channels)
    && GoToOffers(c.tasks, c.log, accepting, offers)
  }

  // ---------- The pool ----------

  lemma FindOffers(pool: NodesState, endpoint: string, offers: set<Pair>)
    requires PoolOffers(pool, offers)
    ensures var (pool', node) := Find(pool, endpoint);
      PoolOffers(pool', offers) && pool'.channels == pool.channels && (node.Some? ==> (node.value.id, endpoint) in offers)
  {
    if endpoint in pool.balancer.capabilities && endpoint in pool.balancer.nodeIndices && pool.balancer.capabilities[endpoint] != [] {
      var slots := pool.balancer.capabilities[endpoint];
      assert (slots[pool.balancer.nodeIndices[endpoint] % |slots|], endpoint) in offers;
    }
  }

  lemma RequestOffers(pool: NodesState, endpoint: string, offers: set<Pair>)
    requires PoolOffers(pool, offers)
    ensures var (pool', t) := Request(pool, endpoint);
      PoolOffers(pool', offers) && pool'.channels == pool.channels[t := Channel(endpoint, None)]
  {
  }

  lemma DropOffers(pool: NodesState, gone: set<Ticket>, offers: set<Pair>)
    requires PoolOffers(pool, offers)
    ensures PoolOffers(pool.(channels := pool.channels - gone), offers)
  {
  }

  lemma OfferOffers(pool: NodesState, nodeId: string, exists_: bool, capability: string, offers: set<Pair>)
    requires Valid(pool) && PoolOffers(pool, offers) && (nodeId, capability) in offers
    ensures var pool' := Offer(pool, nodeId, exists_, capability);
      PoolOffers(pool', offers) && SameEndpoints(pool.channels, pool'.channels)
  {
    if capability in pool.requests && pool.requests[capability] != [] {
      assert pool.requests[capability][0] in pool.requests[capability];
    }
  }

  ghost predicate SameEndpoints(channels: map<Ticket, Channel>, channels': map<Ticket, Channel>) {
    channels'.Keys == channels.Keys && forall t | t in channels :: channels'[t].endpoint == channels[t].endpoint
  }

  lemma {:induction false} OfferAllOffers(pool: NodesState, nodeId: string, exists_: bool, capabilities: seq<string>, offers: set<Pair>)
    requires Valid(pool) && PoolOffers(pool, offers) && nodeId in pool.nodes
    requires forall e | e in capabilities :: (nodeId, e) in offers
    ensures var pool' := OfferAll(pool, nodeId, exists_, capabilities);
      PoolOffers(pool', offers) && SameEndpoints(pool.channels, pool'.channels)
    decreases |capabilities|
  {
    hide Valid, PoolOffers, Offer;
    if capabilities != [] {
      var n := |capabilities| - 1;
      OfferAllKeeps(pool, nodeId, exists_, capabilities[..n]);
      OfferAllOffers(pool, nodeId, exists_, capabilities[..n], offers);
      OfferOffers(OfferAll(pool, nodeId, exists_, capabilities[..n]), nodeId, exists_, capabilities[n], offers);
    }
  }

  lemma RegisterOffers(pool: NodesState, node: Node, offers: set<Pair>)
    requires Valid(pool) && PoolOffers(pool, offers)
    ensures PoolOffers(Register(pool, node), offers + OffersOf(node)) && SameEndpoints(pool.channels, Register(pool, node).channels)
  {
    KnownKeeps(pool, node);
    var known := pool.(nodes := pool.nodes[node.id := node]);
    assert PoolOffers(known, offers + OffersOf(node));
    OfferAllOffers(known, node.id, node.id in pool.nodes, node.capabilities, offers + OffersOf(node));
    hide Valid, PoolOffers, OfferAll;
  }

  // ---------- One task changes ----------

  /** What may happen to one task: its receiver stays, goes, or is one that offers the endpoint. */
  ghost predicate MayBecome(id: string, h: Handler, h': Handler, offers: set<Pair>) {
    && Keyed(id, h')
    && h'.capabilityFilters == h.capabilityFilters
    && h'.jobId == h.jobId
    && (h'.task.receiver == h.task.receiver || GoesToOffer(h', offers))
  }

  /** The channels that are waited for are old ones, or ask for `endpoint` on behalf of `id`. */
  ghost predicate AsksMore(c: Core, c': Core, id: string, endpoint: string) {
    forall t | t in c'.waiters && t in c'.pool.channels ::
      || (t in c.waiters && t in c.pool.channels && c'.waiters[t] == c.waiters[t] && c'.pool.channels[t].endpoint == c.pool.channels[t].endpoint)
      || (c'.waiters[t] == id && c'.pool.channels[t].endpoint == endpoint)
  }

  /** No other task is queued, and this one only when its receiver offers the endpoint. */
  ghost predicate QueuesMore(log: seq<Event>, log': seq<Event>, id: string, goes: bool) {
    forall v | Enqueued(v, Initial) in log' && Enqueued(v, Initial) !in log :: v == id && goes
  }

  lemma OneTaskChanges(c: Core, c': Core, id: string, h': Handler, accepting: map<string, Accepting>, offers: set<Pair>)
    requires Receives(c, accepting, offers) && id in c.tasks
    requires c'.tasks == c.tasks[id := h'] && MayBecome(id, c.tasks[id], h', offers)
    requires PoolOffers(c'.pool, offers) && AsksMore(c, c', id, h'.capabilityFilters.endpoint)
    requires QueuesMore(c.log, c'.log, id, GoesToOffer(h', offers))
    ensures Receives(c', accepting, offers)
  {
    hide Keyed, PoolOffers, Pending;
    forall v | v in c'.tasks && Placed(c'.log, accepting, c'.tasks[v].jobId, v)
      ensures GoesToOffer(c'.tasks[v], offers)
    {
      if v != id || !GoesToOffer(h', offers) { assert Placed(c.log, accepting, c.tasks[v].jobId, v); }
    }
  }

  lemma PlaceReceives(c: Core, id: string, h: Handler, accepting: map<string, Accepting>, offers: set<Pair>)
    requires Receives(c, accepting, offers) && id in c.tasks && h.inDegrees == 0
    requires MayBecome(id, c.tasks[id], h, offers) && h.task.receiver == c.tasks[id].task.receiver
    ensures Receives(PlaceDone(c, id, h), accepting, offers)
  {
    hide Receives, MayBecome, Recruit, PlaceDone;
    match Recruit(c, h)
    case Found(_, _) => PlaceFoundReceives(c, id, h, accepting, offers);
    case Asked(_, _) => PlaceAskedReceives(c, id, h, accepting, offers);
    case Rejected(_, _, _) => PlaceRejectedReceives(c, id, h, accepting, offers);
  }

  lemma PlaceFoundReceives(c: Core, id: string, h: Handler, accepting: map<string, Accepting>, offers: set<Pair>)
    requires Receives(c, accepting, offers) && id in c.tasks && h.inDegrees == 0 && Recruit(c, h).Found?
    requires MayBecome(id, c.tasks[id], h, offers)
    ensures Receives(PlaceDone(c, id, h), accepting, offers)
  {
    var endpoint := h.capabilityFilters.endpoint;
    PlaceFoundIs(c, id, h);
    FindOffers(c.pool, endpoint, offers);
    var h1 := h.(task := h.task.(receiver := Some(Find(c.pool, endpoint).1.value.id)));
    assert c.tasks[id := h][id := h1] == c.tasks[id := h1];
    hide Receives, Find, Recruit, PlaceDone, PoolOffers, TaskIdOf;
    OneTaskChanges(c, PlaceDone(c, id, h), id, h1, accepting, offers);
  }

  lemma PlaceAskedReceives(c: Core, id: string, h: Handler, accepting: map<string, Accepting>, offers: set<Pair>)
    requires Receives(c, accepting, offers) && id in c.tasks && h.inDegrees == 0 && Recruit(c, h).Asked?
    requires MayBecome(id, c.tasks[id], h, offers)
    ensures Receives(PlaceDone(c, id, h), accepting, offers)
  {
    var endpoint := h.capabilityFilters.endpoint;
    PlaceAskedIs(c, id, h);
    RequestOffers(c.pool, endpoint, offers);
    var h1 := h.(task := h.task.(receiver := None), nodeRequest := Some(Request(c.pool, endpoint).1));
    assert c.tasks[id := h][id := h1] == c.tasks[id := h1];
    hide Receives, Request, Recruit, PlaceDone, PoolOffers, TaskIdOf;
    OneTaskChanges(c, PlaceDone(c, id, h), id, h1, accepting, offers);
  }

  lemma PlaceRejectedReceives(c: Core, id: string, h: Handler, accepting: map<string, Accepting>, offers: set<Pair>)
    requires Receives(c, accepting, offers) && id in c.tasks && Recruit(c, h).Rejected?
    requires MayBecome(id, c.tasks[id], h, offers) && h.task.receiver == c.tasks[id].task.receiver
    ensures Receives(PlaceDone(c, id, h), accepting, offers)
  {
    RejectedIs(c, id, h);
    DropOffers(c.pool, RequestOf(h), offers);
    hide Receives, Recruit, PlaceDone, PoolOffers, TaskIdOf;
    OneTaskChanges(c, PlaceDone(c, id, h), id, PlaceDone(c, id, h).tasks[id], accepting, offers);
  }

  function RequestOf(h: Handler): set<Ticket> {
    if h.nodeRequest.Some? then {h.nodeRequest.value} else {}
  }

  lemma RejectedIs(c: Core, id: string, h: Handler)
    requires Recruit(c, h).Rejected?
    ensures var c' := PlaceDone(c, id, h);
      && id in c'.tasks && c'.tasks == c.tasks[id := c'.tasks[id]]
      && c'.tasks[id] == h.(task := h.task.(status := FAILED, output := c'.tasks[id].task.output), nodeRequest := None)
      && c'.waiters == c.waiters - RequestOf(h)
      && c'.pool == c.pool.(channels := c.pool.channels - RequestOf(h))
      && c'.log == c.log + [RecruitFailed(id)]
  {
    hide Find, Request, Codec.ErrorOutput, TaskIdOf;
    assert c.waiters - {} == c.waiters && c.pool.channels - {} == c.pool.channels;
  }

  // ---------- The Done loop and the other actions on tasks ----------

  lemma VisitReceives(c: Core, key: string, id: string, accepting: map<string, Accepting>, offers: set<Pair>)
    requires Receives(c, accepting, offers)
    ensures Receives(DoneVisit(c, key, id), accepting, offers)
  {
    if id in c.tasks {
      VisitIs(c, key, id);
      var h := Cleared(c.tasks[id], key);
      if key in c.tasks[id].dependencies && !c.tasks[id].dependencies[key] {
        ClearedIs(c.tasks[id], key);
        assert Keyed(id, c.tasks[id]);
        assert MayBecome(id, c.tasks[id], h, offers);
        hide Receives, PlaceDone, Cleared, DoneVisit, Keyed, MayBecome;
        if h.inDegrees == 0 {
          PlaceReceives(c, id, h, accepting, offers);
        } else {
          OneChangesInPlace(c, id, h, accepting, offers);
        }
      }
    }
  }

  lemma OneChangesInPlace(c: Core, id: string, h: Handler, accepting: map<string, Accepting>, offers: set<Pair>)
    requires Receives(c, accepting, offers) && id in c.tasks
    requires MayBecome(id, c.tasks[id], h, offers)
    ensures Receives(c.(tasks := c.tasks[id := h]), accepting, offers)
  {
    assert PoolOffers(c.pool, offers);
    hide Receives, PoolOffers, MayBecome;
    OneTaskChanges(c, c.(tasks := c.tasks[id := h]), id, h, accepting, offers);
  }

  lemma {:induction false} SweepReceives(c: Core, key: string, order: seq<string>, accepting: map<string, Accepting>, offers: set<Pair>)
    requires Receives(c, accepting, offers)
    ensures Receives(DoneSweep(c, key, order), accepting, offers)
    decreases |order|
  {
    hide Receives, DoneVisit;
    if order != [] {
      var n := |order| - 1;
      SweepReceives(c, key, order[..n], accepting, offers);
      VisitReceives(DoneSweep(c, key, order[..n]), key, order[n], accepting, offers);
    }
  }

  /** An event that queues nothing, or a task that has been placed before, makes no difference. */
  lemma OneMoreEvent(c: Core, queue: seq<string>, e: Event, accepting: map<string, Accepting>, offers: set<Pair>)
    requires Receives(c, accepting, offers) && (e.Enqueued? ==> e.cause == Retried)
    ensures Receives(c.(queue := queue, log := c.log + [e]), accepting, offers)
  {
    hide PoolOffers, Pending, Keyed, GoesToOffer;
    forall id | id in c.tasks && Placed(c.log + [e], accepting, c.tasks[id].jobId, id)
      ensures GoesToOffer(c.tasks[id], offers)
    {
      assert Placed(c.log, accepting, c.tasks[id].jobId, id);
    }
  }

  /** Statuses and outputs may change at will. */
  lemma StatusChanges(c: Core, tasks': map<string, Handler>, accepting: map<string, Accepting>, offers: set<Pair>)
    requires Receives(c, accepting, offers) && tasks'.Keys == c.tasks.Keys
    requires forall id | id in c.tasks :: SameShape(c.tasks[id], tasks'[id]) && tasks'[id].capabilityFilters == c.tasks[id].capabilityFilters
    ensures Receives(c.(tasks := tasks'), accepting, offers)
  {
    hide PoolOffers, Pending;
    forall id | id in tasks' && Placed(c.log, accepting, tasks'[id].jobId, id)
      ensures GoesToOffer(tasks'[id], offers)
    {
      assert SameShape(c.tasks[id], tasks'[id]) && Placed(c.log, accepting, c.tasks[id].jobId, id);
    }
    forall id | id in tasks'
      ensures Keyed(id, tasks'[id])
    {
      assert SameShape(c.tasks[id], tasks'[id]) && Keyed(id, c.tasks[id]);
    }
  }

  lemma RetryReceives(c: Core, key: string, accepting: map<string, Accepting>, offers: set<Pair>)
    requires Receives(c, accepting, offers)
    ensures Receives(Retry(c, key).0, accepting, offers)
  {
    if key in c.tasks {
      RetryIs(c, key);
      RetriedShape(c.tasks[key]);
      var tasks' := c.tasks[key := RetriedHandler(c.tasks[key])];
      assert RetriedHandler(c.tasks[key]).capabilityFilters == c.tasks[key].capabilityFilters;
      hide Receives, Retry, RetriedHandler;
      StatusChanges(c, tasks', accepting, offers);
      OneMoreEvent(c.(tasks := tasks'), c.queue + [key], Enqueued(key, Retried), accepting, offers);
    }
  }

  lemma FailReceives(c: Core, key: string, accepting: map<string, Accepting>, offers: set<Pair>)
    requires Receives(c, accepting, offers)
    ensures Receives(Fail(c, key).0, accepting, offers)
  {
    hide Receives, Reaches;
    if key in c.tasks { StatusChanges(c, MarkFailed(c.tasks, key), accepting, offers); }
  }

  lemma DoneReceives(c: Core, key: string, order: seq<string>, accepting: map<string, Accepting>, offers: set<Pair>)
    requires Receives(c, accepting, offers)
    ensures Receives(Done(c, key, order).0, accepting, offers)
  {
    hide Receives, DoneSweep;
    if key in c.tasks {
      var tasks1 := c.tasks[key := c.tasks[key].WithStatus(DONE)];
      StatusChanges(c, tasks1, accepting, offers);
      var c1 := c.(tasks := tasks1);
      OneMoreEvent(c1, c1.queue, Completed(key), accepting, offers);
      SweepReceives(c1.(log := c1.log + [Completed(key)]), key, order, accepting, offers);
    }
  }

  lemma UpdateReceives(c: Core, task: Task, order: seq<string>, accepting: map<string, Accepting>, offers: set<Pair>)
    requires Receives(c, accepting, offers) && NoDash(task.jobId)
    requires TaskIdOf(task.jobId, task.name) in c.tasks ==> task.receiver == c.tasks[TaskIdOf(task.jobId, task.name)].task.receiver
    ensures Receives(Update(c, task, order), accepting, offers)
  {
    var key := TaskIdOf(task.jobId, task.name);
    UpdateIs(c, task, order);
    if key in c.tasks {
      ReportedShape(c.tasks, task);
      hide Receives, Retry, Fail, Done, Update, TaskIdOf;
      var tasks1 := c.tasks[key := c.tasks[key].(task := task)];
      StatusChanges(c, tasks1, accepting, offers);
      var c1 := c.(tasks := tasks1);
      match task.status
      case RETRY => RetryReceives(c1, key, accepting, offers);
      case FAILED => FailReceives(c1, key, accepting, offers);
      case DONE => DoneReceives(c1, key, order, accepting, offers);
      case _ =>
    }
  }

  lemma DeliverReceives(c: Core, t: Ticket, accepting: map<string, Accepting>, offers: set<Pair>)
    requires Receives(c, accepting, offers)
    ensures Receives(Deliver(c, t), accepting, offers)
  {
    if t in c.waiters && t in c.pool.channels && c.pool.channels[t].node.Some? {
      var id := c.waiters[t];
      DropOffers(c.pool, {t}, offers);
      if id in c.tasks {
        var h := c.tasks[id].(task := c.tasks[id].task.(receiver := c.pool.channels[t].node), nodeRequest := None);
        assert Keyed(id, c.tasks[id]);
        assert GoesToOffer(h, offers);
        assert MayBecome(id, c.tasks[id], h, offers);
        hide Receives, PoolOffers, Keyed, GoesToOffer, MayBecome;
        OneTaskChanges(c, Deliver(c, t), id, h, accepting, offers);
      }
    }
  }

  // ---------- accept_job ----------

  lemma {:induction false} PushReceives(c: Core, jobId: string, ids: seq<string>, accepting: map<string, Accepting>, offers: set<Pair>)
    requires Receives(c, accepting, offers)
    requires forall id | id in ids && id in c.tasks :: Placed(c.log, accepting, c.tasks[id].jobId, id)
    ensures Receives(Push(c, ids), accepting, offers) && Push(c, ids).tasks == c.tasks
    decreases |ids|
  {
    hide Receives, Pending;
    if ids != [] {
      var n := |ids| - 1;
      PushReceives(c, jobId, ids[..n], accepting, offers);
      PushedOneReceives(c, Push(c, ids[..n]), ids[n], accepting, offers);
      assert ids[n] in ids;
    }
  }

  lemma PushedOneReceives(c: Core, c1: Core, id: string, accepting: map<string, Accepting>, offers: set<Pair>)
    requires Receives(c, accepting, offers) && Receives(c1, accepting, offers) && c1.tasks == c.tasks
    requires id in c.tasks ==> Placed(c.log, accepting, c.tasks[id].jobId, id)
    ensures Receives(Enqueue(c1, id, Initial), accepting, offers)
  {
    hide PoolOffers, Pending, Keyed;
    forall v | v in c1.tasks && Placed(c1.log + [Enqueued(id, Initial)], accepting, c1.tasks[v].jobId, v)
      ensures GoesToOffer(c1.tasks[v], offers)
    {
      assert Placed(c.log, accepting, c.tasks[v].jobId, v) || Placed(c1.log, accepting, c1.tasks[v].jobId, v);
    }
  }

  lemma RemoveReceives(c: Core, jobId: string, accepting: map<string, Accepting>, offers: set<Pair>)
    requires Receives(c, accepting, offers)
    ensures Receives(RemoveJob(c, jobId), accepting - {jobId}, offers)
  {
    DropOffers(c.pool, RequestsOf(c.tasks, jobId), offers);
    hide PoolOffers, Keyed, GoesToOffer, RequestsOf;
    var c' := RemoveJob(c, jobId);
    forall id | id in c'.tasks && Placed(c'.log, accepting - {jobId}, c'.tasks[id].jobId, id)
      ensures GoesToOffer(c'.tasks[id], offers)
    {
      assert Placed(c.log, accepting, c.tasks[id].jobId, id);
    }
  }

  /** A new task, which nobody has queued and nobody waits for; it is only put on a list when its receiver offers the endpoint. */
  lemma NewTaskReceives(c: Core, c': Core, id: string, h: Handler, accepting: map<string, Accepting>, accepting': map<string, Accepting>, offers: set<Pair>)
    requires Receives(c, accepting, offers) && id !in c.tasks && Enqueued(id, Initial) !in c.log
    requires forall t | t in c.waiters :: c.waiters[t] in c.tasks
    requires c'.tasks == c.tasks[id := h] && Keyed(id, h) && c'.log == c.log + [Inserted(id, h.dependencies.Keys)]
    requires PoolOffers(c'.pool, offers) && AsksMore(c, c', id, h.capabilityFilters.endpoint)
    requires forall v | v != id :: Pending(accepting', JobIdOf(c, v), v) == Pending(accepting, JobIdOf(c, v), v)
    requires Pending(accepting', h.jobId, id) == 0 || GoesToOffer(h, offers)
    ensures Receives(c', accepting', offers)
  {
    hide PoolOffers, Keyed, Pending, GoesToOffer;
    forall v | v in c'.tasks && Placed(c'.log, accepting', c'.tasks[v].jobId, v)
      ensures GoesToOffer(c'.tasks[v], offers)
    {
      if v != id {
        assert Pending(accepting', JobIdOf(c, v), v) == Pending(accepting, JobIdOf(c, v), v);
        assert Placed(c.log, accepting, c.tasks[v].jobId, v);
      }
    }
  }

  ghost function JobIdOf(c: Core, id: string): string {
    if id in c.tasks then c.tasks[id].jobId else ""
  }

  lemma PendingAfter(accepting: map<string, Accepting>, jobId: string, a: Accepting, id: string, more: seq<string>)
    requires jobId in accepting && a.ready == accepting[jobId].ready + more && (more == [] || more == [id])
    ensures forall j, v | v != id :: Pending(accepting[jobId := a], j, v) == Pending(accepting, j, v)
    ensures id !in accepting[jobId].ready && more == [] ==> Pending(accepting[jobId := a], jobId, id) == 0
  {
    assert accepting[jobId].ready + [] == accepting[jobId].ready;
  }

  lemma NothingYet(c: Core, accepting: map<string, Accepting>, jobs: set<string>, jobId: string, id: string)
    requires Within(c, accepting, jobs, "", {}, None) && jobId in accepting && id !in c.stamp
    ensures Unseen(c, accepting, jobId, id)
  {
    Unfold(c, accepting, jobs, "", {}, None);
    StampedTasks(c.tasks, c.stamp, c.log);
    assert AcceptingAt(c.tasks, c.stamp, jobs, jobId, accepting[jobId]);
    hide Within;
  }

  lemma ValidatedReceives(c: Core, accepting: map<string, Accepting>, jobs: set<string>, jobId: string, req: TaskRequest, timeout: nat, a: Accepting, offers: set<Pair>)
    requires Within(c, accepting, jobs, "", {}, None) && Receives(c, accepting, offers)
    requires jobId in accepting && NoDash(jobId) && TaskIdOf(jobId, req.name) !in c.stamp
    requires var r := ValidateRest(c, TaskIdOf(jobId, req.name), NewHandler(jobId, req, timeout), jobId, req).1;
      a.ready == accepting[jobId].ready + if r.Ok? && r.value then [TaskIdOf(jobId, req.name)] else []
    ensures var (c', r) := ValidateRest(c, TaskIdOf(jobId, req.name), NewHandler(jobId, req, timeout), jobId, req);
      if r.Err? then c' == c else Receives(c', accepting[jobId := a], offers)
  {
    hide *;
    var id, h := TaskIdOf(jobId, req.name), NewHandler(jobId, req, timeout);
    Unfold(c, accepting, jobs, "", {}, None);
    NothingYet(c, accepting, jobs, jobId, id);
    NoMissingNeed(c.tasks, jobId, req.needs);
    if MissingNeed(c.tasks, jobId, req.needs).Some? {
      MissingIsRefused(c, id, h, jobId, req);
    } else {
      NewHandlerIsInsertable(c.tasks, c.stamp, jobId, req, timeout);
      InsertableIs(c.tasks, c.stamp, id, WithNeeds(h, jobId, req.needs));
      NewHandlerIsUnplaced(jobId, req, timeout);
      InsertionIs(c, id, h, jobId, req);
      InsertedReceives(c, accepting, jobId, id, WithNeeds(h, jobId, req.needs), a, offers);
    }
  }

  ghost predicate Unseen(c: Core, accepting: map<string, Accepting>, jobId: string, id: string) {
    && jobId in accepting && id !in accepting[jobId].ready
    && Enqueued(id, Initial) !in c.log && id !in c.tasks
    && forall t | t in c.waiters :: c.waiters[t] in c.tasks
  }

  lemma OneInserted(c: Core, id: string, h: Handler, pool': NodesState, waiters': map<Ticket, string>,
                    accepting: map<string, Accepting>, jobId: string, a: Accepting, offers: set<Pair>)
    requires Receives(c, accepting, offers) && Unseen(c, accepting, jobId, id) && h.jobId == jobId && Keyed(id, h)
    requires PoolOffers(pool', offers) && AsksMore(c, c.(pool := pool', waiters := waiters'), id, h.capabilityFilters.endpoint)
    requires a.ready == accepting[jobId].ready || (a.ready == accepting[jobId].ready + [id] && GoesToOffer(h, offers))
    ensures Receives(c.(tasks := c.tasks[id := h], stamp := c.stamp[id := |c.log|], log := c.log + [Inserted(id, h.dependencies.Keys)],
                        pool := pool', waiters := waiters'), accepting[jobId := a], offers)
  {
    hide Receives, PoolOffers, Pending, Keyed, GoesToOffer;
    var c' := c.(tasks := c.tasks[id := h], stamp := c.stamp[id := |c.log|], log := c.log + [Inserted(id, h.dependencies.Keys)],
                 pool := pool', waiters := waiters');
    assert accepting[jobId].ready + [] == accepting[jobId].ready;
    PendingAfter(accepting, jobId, a, id, if a.ready == accepting[jobId].ready then [] else [id]);
    NewTaskReceives(c, c', id, h, accepting, accepting[jobId := a], offers);
  }

  /** The three ways of inserting a task. */
  lemma InsertedReceives(c: Core, accepting: map<string, Accepting>, jobId: string, id: string, h: Handler, a: Accepting, offers: set<Pair>)
    requires Receives(c, accepting, offers) && Unseen(c, accepting, jobId, id) && h.jobId == jobId && Keyed(id, h)
    ensures var c1 := c.(tasks := c.tasks[id := h], stamp := c.stamp[id := |c.log|], log := c.log + [Inserted(id, h.dependencies.Keys)]);
      var endpoint := h.capabilityFilters.endpoint;
      var (found, node) := Find(c.pool, endpoint);
      var (asked, t) := Request(c.pool, endpoint);
      var h3 := h.(task := h.task.(receiver := None), nodeRequest := Some(t));
      && (a.ready == accepting[jobId].ready ==>
            && Receives(c1, accepting[jobId := a], offers)
            && Receives(c1.(tasks := c1.tasks[id := h3], pool := asked, waiters := c1.waiters[t := id]), accepting[jobId := a], offers))
      && (node.Some? && a.ready == accepting[jobId].ready + [id] ==>
            var h2 := h.(task := h.task.(receiver := Some(node.value.id)));
            Receives(c1.(tasks := c1.tasks[id := h2], pool := found), accepting[jobId := a], offers))
  {
    hide Receives, PoolOffers, Find, Request, TaskIdOf, NoDash;
    var endpoint := h.capabilityFilters.endpoint;
    ReceivesPool(c, accepting, offers);
    FindOffers(c.pool, endpoint, offers);
    RequestOffers(c.pool, endpoint, offers);
    var (found, node) := Find(c.pool, endpoint);
    var (asked, t) := Request(c.pool, endpoint);
    if a.ready == accepting[jobId].ready {
      OneInserted(c, id, h, c.pool, c.waiters, accepting, jobId, a, offers);
      var h3 := h.(task := h.task.(receiver := None), nodeRequest := Some(t));
      assert c.tasks[id := h][id := h3] == c.tasks[id := h3];
      OneInserted(c, id, h3, asked, c.waiters[t := id], accepting, jobId, a, offers);
    }
    if node.Some? && a.ready == accepting[jobId].ready + [id] {
      var h2 := h.(task := h.task.(receiver := Some(node.value.id)));
      assert c.tasks[id := h][id := h2] == c.tasks[id := h2];
      OneInserted(c, id, h2, found, c.waiters, accepting, jobId, a, offers);
    }
  }

  lemma ReceivesPool(c: Core, accepting: map<string, Accepting>, offers: set<Pair>)
    requires Receives(c, accepting, offers)
    ensures PoolOffers(c.pool, offers)
  {
  }

  lemma AcceptNextReceives(s: System, jobId: string, offers: set<Pair>)
    requires Inv(s) && Receives(s.core, s.accepting, offers)
    requires jobId in s.accepting && s.accepting[jobId].rest != []
    ensures Receives(AcceptStep(s, jobId).core, AcceptStep(s, jobId).accepting, offers)
  {
    hide *;
    InvIs(s);
    var c, a := s.core, s.accepting[jobId];
    var sub := a.rest[0];
    var id := TaskIdOf(jobId, sub.req.name);
    Unfold(c, s.accepting, s.jobs, "", {}, None);
    StampedTasks(c.tasks, c.stamp, c.log);
    NextIsUnclaimed(c.tasks, c.stamp, jobId, s.accepting, s.jobs);
    AcceptStepIs(s, jobId);
    RemoveReceives(c, jobId, s.accepting, offers);
    if sub.timeout.Some? {
      var (c', r) := ValidateRest(c, id, NewHandler(jobId, sub.req, sub.timeout.value), jobId, sub.req);
      assert a.ready + [] == a.ready;
      ValidatedReceives(c, s.accepting, s.jobs, jobId, sub.req, sub.timeout.value,
                        Accepting(a.rest[1..], if r.Ok? && r.value then a.ready + [id] else a.ready), offers);
    }
  }

  lemma AcceptReceives(s: System, jobId: string, offers: set<Pair>)
    requires Inv(s) && Receives(s.core, s.accepting, offers)
    ensures Receives(AcceptStep(s, jobId).core, AcceptStep(s, jobId).accepting, offers)
  {
    AcceptNothing(s, jobId);
    hide Receives, AcceptStep, Inv, Push;
    if jobId in s.accepting {
      if s.accepting[jobId].rest == [] {
        ListedArePlaced(s, jobId);
        PushReceives(s.core, jobId, s.accepting[jobId].ready, s.accepting, offers);
        FewerAccepting(Push(s.core, s.accepting[jobId].ready), s.accepting, s.accepting - {jobId}, offers);
      } else {
        AcceptNextReceives(s, jobId, offers);
      }
    }
  }

  lemma ListedArePlaced(s: System, jobId: string)
    requires Inv(s) && jobId in s.accepting
    ensures var c := s.core; forall id | id in s.accepting[jobId].ready && id in c.tasks :: Placed(c.log, s.accepting, c.tasks[id].jobId, id)
  {
    assert AcceptingAt(s.core.tasks, s.core.stamp, s.jobs, jobId, s.accepting[jobId]);
  }

  lemma FewerAccepting(c: Core, accepting: map<string, Accepting>, accepting': map<string, Accepting>, offers: set<Pair>)
    requires Receives(c, accepting, offers)
    requires forall j, v :: Pending(accepting', j, v) <= Pending(accepting, j, v)
    ensures Receives(c, accepting', offers)
  {
    hide PoolOffers, Keyed, Pending, GoesToOffer;
    forall id | id in c.tasks && Placed(c.log, accepting', c.tasks[id].jobId, id)
      ensures GoesToOffer(c.tasks[id], offers)
    {
      assert Pending(accepting', c.tasks[id].jobId, id) <= Pending(accepting, c.tasks[id].jobId, id);
      assert Placed(c.log, accepting, c.tasks[id].jobId, id);
    }
  }

  // ---------- Runs ----------

  lemma JoinReceives(c: Core, node: Node, accepting: map<string, Accepting>, offers: set<Pair>)
    requires Receives(c, accepting, offers) && Valid(c.pool)
    ensures Receives(c.(pool := Register(c.pool, node)), accepting, offers + OffersOf(node))
  {
    RegisterOffers(c.pool, node, offers);
    hide PoolOffers, Valid, Register, OffersOf, Keyed, Placed;
    forall id | id in c.tasks && Placed(c.log, accepting, c.tasks[id].jobId, id)
      ensures GoesToOffer(c.tasks[id], offers + OffersOf(node))
    {
      assert GoesToOffer(c.tasks[id], offers);
    }
  }

  lemma StepReceives(s: System, action: Action, offers: set<Pair>)
    requires Inv(s) && Allowed(s, action) && Receives(s.core, s.accepting, offers)
    ensures var s' := Step(s, action);
      Receives(s'.core, s'.accepting, offers + if action.Join? then OffersOf(action.node) else {})
  {
    InvIs(s);
    var c := s.core;
    hide Within, Receives, AcceptStep, Register, Deliver, Next, Update, Retry, IsOrder, TaskIdOf, Inv;
    assert offers + {} == offers;
    match action
    case Submit(jobId, subs) =>
      FewerAccepting(c, s.accepting, s.accepting[jobId := Accepting(subs, [])], offers);
    case Accept(jobId) => AcceptReceives(s, jobId, offers);
    case Join(node) =>
      Unfold(c, s.accepting, s.jobs, "", {}, None);
      JoinReceives(c, node, s.accepting, offers);
    case Receive(t) => DeliverReceives(c, t, s.accepting, offers);
    case Dispatch =>
      NextIs(c);
      if c.queue != [] { OneMoreEvent(c, c.queue[1..], Dispatched(c.queue[0], c.queue[0] in c.tasks), s.accepting, offers); }
    case Interrupt =>
      if c.queue != [] { OneMoreEvent(c, c.queue[1..], Lost(c.queue[0]), s.accepting, offers); }
    case Report(task, order) => UpdateReceives(c, task, order, s.accepting, offers);
    case RetryTask(key) => RetryReceives(c, key, s.accepting, offers);
  }

  lemma {:induction false} RunReceives(run: seq<Action>)
    requires IsRun(run)
    ensures Receives(AfterRun(run).core, AfterRun(run).accepting, Offered(run))
    decreases |run|
  {
    hide Inv, Step, Allowed, Receives;
    if run == [] {
      NobodyReceives();
    } else {
      var n := |run| - 1;
      RunReceives(run[..n]);
      RunKeeps(run[..n]);
      StepReceives(AfterRun(run[..n]), run[n], Offered(run[..n]));
    }
  }

  lemma NobodyReceives()
    ensures Receives(EmptyCore(), map[], {})
  {
  }

  lemma QueuedReceives(c: Core, accepting: map<string, Accepting>, id: string, offers: set<Pair>)
    requires Receives(c, accepting, offers) && ReadyOnes(c.tasks, c.log, accepting) && id in c.tasks && Enqueued(id, Initial) in c.log
    ensures var h := c.tasks[id]; h.task.receiver.Some? && (h.task.receiver.value, h.capabilityFilters.endpoint) in offers
  {
    hide PoolOffers, Pending, Keyed, Asks;
    assert ReadyAt(c.tasks[id], c.log, accepting, id);
    assert Placed(c.log, accepting, c.tasks[id].jobId, id);
  }

  /**
    Every task that was queued, other than by a retry alone, has a receiver, and that is a node that joined
    during the run and offered the endpoint that the task asks for.
   */
  lemma QueuedTasksGoToOfferingNodes(run: seq<Action>, id: string)
    requires IsRun(run) && id in AfterRun(run).core.tasks && Enqueued(id, Initial) in AfterRun(run).core.log
    ensures var h := AfterRun(run).core.tasks[id];
      && h.task.receiver.Some?
      && exists i :: 0 <= i < |run| && run[i].Join? && run[i].node.id == h.task.receiver.value
                     && h.capabilityFilters.endpoint in run[i].node.capabilities
  {
    hide *;
    var s := AfterRun(run);
    var h := s.core.tasks[id];
    RunKeeps(run);
    RunReceives(run);
    InvIs(s);
    Unfold(s.core, s.accepting, s.jobs, "", {}, None);
    QueuedReceives(s.core, s.accepting, id, Offered(run));
    OfferedByJoining(run, h.task.receiver.value, h.capabilityFilters.endpoint);
  }
}
