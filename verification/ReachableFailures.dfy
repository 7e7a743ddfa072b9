/**
  Runs in which the scheduler fails what one expects of it. Each is given for any names, endpoint and
  node, and every step of it is one that honest workers and nodes make.
 */
module ReachableFailures {
  import opened Wrappers
  import opened Messages
  import opened Nodes
  import opened Orders
  import opened Scheduler
  import opened SchedulerInvariant
  import opened SchedulerSteps
  import opened SchedulerRuns
  import opened SchedulerProperties
  import opened AcceptedTasks
  import opened FanIn
  import NodesProperties

  lemma OneMoreStep(run: seq<Action>, action: Action)
    ensures AfterRun(run + [action]) == Step(AfterRun(run), action)
    ensures IsRun(run + [action]) <==> IsRun(run) && Allowed(AfterRun(run), action)
  {
    hide Step, Allowed;
    assert (run + [action])[..|run|] == run;
  }

  // ---------- A first task that asks for a node ----------

  /** A request without needs that may wait for its node. */
  ghost predicate MayWait(sub: Submission) {
    sub.timeout.Some? && sub.req.needs == [] && sub.req.resourceRecruitment.recruitmentPolicy == ALWAYS
  }

  function EndpointOf(sub: Submission): string {
    sub.req.capabilityFilters.endpoint
  }

  function IdOf(jobId: string, sub: Submission): string {
    TaskIdOf(jobId, sub.req.name)
  }

  /** The handler of a task that asked with this ticket. */
  function Waiter(jobId: string, sub: Submission, t: Ticket): Handler
    requires sub.timeout.Some?
  {
    var h := NewHandler(jobId, sub.req, sub.timeout.value);
    h.(task := h.task.(receiver := None), nodeRequest := Some(t))
  }

  /** A waiting task's request in an otherwise arbitrary pool without that endpoint. */
  lemma Asks(c: Core, jobId: string, sub: Submission)
    requires MayWait(sub) && IdOf(jobId, sub) !in c.tasks && EndpointOf(sub) !in c.pool.balancer.capabilities
    ensures var id, t := IdOf(jobId, sub), c.pool.nextTicket;
      Validate(c, jobId, sub.req, sub.timeout) ==
        (c.(tasks := c.tasks[id := Waiter(jobId, sub, t)], waiters := c.waiters[t := id], pool := Request(c.pool, EndpointOf(sub)).0,
            stamp := c.stamp[id := |c.log|], log := c.log + [Inserted(id, {})]), Ok(false))
  {
    hide TaskIdOf;
    assert NewHandler(jobId, sub.req, sub.timeout.value).dependencies.Keys == {};
  }

  lemma AcceptTakes(s: System, jobId: string, c: Core, ready: bool)
    requires jobId in s.accepting && s.accepting[jobId].rest != []
    requires var sub := s.accepting[jobId].rest[0]; Validate(s.core, jobId, sub.req, sub.timeout) == (c, Ok(ready))
    ensures var a := s.accepting[jobId];
      AcceptStep(s, jobId) ==
        s.(core := c, accepting := s.accepting[jobId := Accepting(a.rest[1..], if ready then a.ready + [IdOf(jobId, a.rest[0])] else a.ready)])
  {
  }

  // ---------- A completion that nobody notes ----------

  /** A job of two tasks, the second of which needs the first, and a node that offers what the first asks for. */
  ghost predicate Setting(jobId: string, first: Submission, second: Submission, node: Node) {
    && NoDash(jobId)
    && MayWait(first) && second.timeout.Some?
    && second.req.needs == [first.req.name] && second.req.name != first.req.name
    && node.capabilities == [EndpointOf(first)]
  }

  /** What the worker reports in the end. */
  function DoneTask(jobId: string, first: Submission, node: Node): Task {
    Task(first.req.name, Some(node.id), EndpointOf(first), None, jobId, first.req.sender, DONE, None)
  }

  /** The first task asks for a node, gets it, is dispatched and completes before accept_job turns to the second. */
  function EarlyCompletion(jobId: string, first: Submission, second: Submission, node: Node): seq<Action> {
    [Submit(jobId, [first, second])] + [Accept(jobId)] + [Join(node)] + [Receive(0)] + [Dispatch]
    + [Report(DoneTask(jobId, first, node), [IdOf(jobId, first)])] + [Accept(jobId)] + [Accept(jobId)]
  }

  function Served(jobId: string, first: Submission, node: Node): Handler
    requires first.timeout.Some?
  {
    var h := Waiter(jobId, first, 0);
    h.(task := h.task.(receiver := Some(node.id)), nodeRequest := None)
  }

  function OneNode(node: Node, endpoint: string, channels: map<Ticket, Channel>): NodesState {
    NodesState(map[node.id := node], Balancer(map[], map[]), map[endpoint := []], channels, 1)
  }

  lemma JoinServes(node: Node, endpoint: string)
    requires node.capabilities == [endpoint]
    ensures Register(Request(EmptyNodes(), endpoint).0, node) == OneNode(node, endpoint, map[0 := Channel(endpoint, Some(node.id))])
  {
    var ns := Request(EmptyNodes(), endpoint).0;
    var known := ns.(nodes := ns.nodes[node.id := node]);
    assert node.capabilities[..0] == [];
    assert OfferAll(known, node.id, false, node.capabilities[..0]) == known;
  }

  /** After the node has been received: the first task is queued and the job's second request still to come. */
  function Queued(jobId: string, first: Submission, node: Node): Core
    requires first.timeout.Some?
  {
    var id := IdOf(jobId, first);
    Core(map[id := Served(jobId, first, node)], [id], map[], OneNode(node, EndpointOf(first), map[]), map[id := 0],
         [Inserted(id, {}), Enqueued(id, Initial)])
  }

  function Halfway(jobId: string, second: Submission, c: Core): System {
    System(c, map[jobId := Accepting([second], [])], {jobId})
  }

  lemma UntilQueued(jobId: string, first: Submission, second: Submission, node: Node)
    requires Setting(jobId, first, second, node)
    ensures var run := EarlyCompletion(jobId, first, second, node)[..4];
      IsRun(run) && AfterRun(run) == Halfway(jobId, second, Queued(jobId, first, node))
  {
    hide AfterRun, IsRun, Validate, Request, Register, TaskIdOf, NewHandler;
    var id, e := IdOf(jobId, first), EndpointOf(first);
    var run1 := [Submit(jobId, [first, second])];
    var run2, run3 := run1 + [Accept(jobId)], run1 + [Accept(jobId)] + [Join(node)];
    assert EarlyCompletion(jobId, first, second, node)[..4] == run3 + [Receive(0)];
    Nothing();
    OneMoreStep([], run1[0]);
    assert [] + run1 == run1;
    OneMoreStep(run1, Accept(jobId));
    Asks(EmptyCore(), jobId, first);
    AcceptTakes(AfterRun(run1), jobId, Validate(EmptyCore(), jobId, first.req, first.timeout).0, false);
    OneMoreStep(run2, Join(node));
    JoinServes(node, e);
    OneMoreStep(run3, Receive(0));
    ReceiveQueues(AfterRun(run3).core, jobId, first, node);
  }

  lemma Nothing()
    ensures AfterRun([]) == EmptySystem() && IsRun([])
  {
  }

  lemma ReceiveQueues(c: Core, jobId: string, first: Submission, node: Node)
    requires first.timeout.Some?
    requires var id := IdOf(jobId, first);
      c == Core(map[id := Waiter(jobId, first, 0)], [], map[0 := id], OneNode(node, EndpointOf(first), map[0 := Channel(EndpointOf(first), Some(node.id))]),
                map[id := 0], [Inserted(id, {})])
    ensures Deliver(c, 0) == Queued(jobId, first, node)
  {
  }

  /** The worker has reported and the second request has been validated. */
  function Accepted(jobId: string, first: Submission, second: Submission, node: Node): Core
    requires first.timeout.Some? && second.timeout.Some?
  {
    var (id, id2) := (IdOf(jobId, first), IdOf(jobId, second));
    Core(map[id := Served(jobId, first, node).(task := DoneTask(jobId, first, node)), id2 := Dependent(jobId, first, second)],
         [], map[], OneNode(node, EndpointOf(first), map[]), map[id := 0, id2 := 4], History(id, id2))
  }

  function Dependent(jobId: string, first: Submission, second: Submission): Handler
    requires second.timeout.Some?
  {
    NewHandler(jobId, second.req, second.timeout.value).(dependencies := map[IdOf(jobId, first) := false], inDegrees := 1)
  }

  function History(id: string, id2: string): seq<Event> {
    [Inserted(id, {}), Enqueued(id, Initial), Dispatched(id, true), Completed(id), Inserted(id2, {id})]
  }

  function Reported(jobId: string, first: Submission, node: Node): Core
    requires first.timeout.Some?
  {
    var id := IdOf(jobId, first);
    Queued(jobId, first, node).(tasks := map[id := Served(jobId, first, node).(task := DoneTask(jobId, first, node))], queue := [],
                                log := [Inserted(id, {}), Enqueued(id, Initial), Dispatched(id, true), Completed(id)])
  }

  lemma ReportIs(jobId: string, first: Submission, node: Node)
    requires first.timeout.Some?
    ensures Update(Next(Queued(jobId, first, node)).0, DoneTask(jobId, first, node), [IdOf(jobId, first)]) == Reported(jobId, first, node)
  {
    hide TaskIdOf;
    var id := IdOf(jobId, first);
    var c := Next(Queued(jobId, first, node)).0;
    var h := Served(jobId, first, node).(task := DoneTask(jobId, first, node));
    var c1 := c.(tasks := map[id := h], log := c.log + [Completed(id)]);
    assert c.tasks[id := h] == map[id := h] && map[id := h][id := h.WithStatus(DONE)] == map[id := h];
    assert [id][..0] == [] && DoneSweep(c1, id, [id]) == DoneVisit(DoneSweep(c1, id, []), id, id);
  }

  lemma SecondIsInserted(jobId: string, first: Submission, second: Submission, node: Node)
    requires Setting(jobId, first, second, node)
    ensures Validate(Reported(jobId, first, node), jobId, second.req, second.timeout) == (Accepted(jobId, first, second, node), Ok(false))
  {
    TaskIdsDiffer(jobId, first.req.name, jobId, second.req.name);
    hide TaskIdOf;
    var id := IdOf(jobId, first);
    OneNeed(jobId, first.req.name);
    var c := Reported(jobId, first, node);
    assert MissingNeed(c.tasks, jobId, [first.req.name]).None?;
    var id2, h := IdOf(jobId, second), Dependent(jobId, first, second);
    assert WithNeeds(NewHandler(jobId, second.req, second.timeout.value), jobId, second.req.needs) == h;
    assert h.dependencies.Keys == {id};
    assert Insert(c, id2, h) == Accepted(jobId, first, second, node);
  }

  lemma OneNeed(jobId: string, name: string)
    ensures NeedIds(jobId, [name]) == {TaskIdOf(jobId, name)} && [name][1..] == []
  {
    hide TaskIdOf;
    assert [name][0] == name;
    assert TaskIdOf(jobId, [name][0]) in NeedIds(jobId, [name]);
  }

  lemma UntilTheEnd(jobId: string, first: Submission, second: Submission, node: Node)
    requires Setting(jobId, first, second, node)
    ensures var run := EarlyCompletion(jobId, first, second, node);
      IsRun(run) && AfterRun(run) == System(Accepted(jobId, first, second, node), map[], {jobId})
  {
    hide AfterRun, IsRun, Validate, TaskIdOf, NewHandler, Update, Next, MayWait;
    var run := EarlyCompletion(jobId, first, second, node);
    var id := IdOf(jobId, first);
    var report := Report(DoneTask(jobId, first, node), [id]);
    UntilQueued(jobId, first, second, node);
    SettingIs(jobId, first, second, node);
    var run4 := run[..4];
    var run5, run6, run7 := run4 + [Dispatch], run4 + [Dispatch] + [report], run4 + [Dispatch] + [report] + [Accept(jobId)];
    assert run == run7 + [Accept(jobId)];
    OneMoreStep(run4, Dispatch);
    NextIs(Queued(jobId, first, node));
    OneMoreStep(run5, report);
    ReportIs(jobId, first, node);
    OneMoreStep(run6, Accept(jobId));
    SecondIsInserted(jobId, first, second, node);
    AcceptTakes(AfterRun(run6), jobId, Accepted(jobId, first, second, node), false);
    OneMoreStep(run7, Accept(jobId));
    AcceptNothing(AfterRun(run7), jobId);
  }

  /**
    A need that completes between two steps of accept_job, before the task that needs it is inserted, is
    lost: the job is accepted and its first task is DONE, but the second waits, in every continuation,
    until somebody reports the first one as DONE again.
   */
  lemma CompletionBeforeInsertionIsLost(jobId: string, first: Submission, second: Submission, node: Node, more: seq<Action>)
    requires Setting(jobId, first, second, node)
    ensures var run := EarlyCompletion(jobId, first, second, node);
      && IsRun(run) && HonestWorkers(LogOf(run))
      && var c := AfterRun(run).core;
         IdOf(jobId, first) in c.tasks && c.tasks[IdOf(jobId, first)].task.status == DONE
    ensures var run := EarlyCompletion(jobId, first, second, node);
      var c, id2 := AfterRun(run + more).core, IdOf(jobId, second);
      IsRun(run + more) && IdOf(jobId, first) !in ReportedDone(more) ==>
        id2 in c.tasks && c.tasks[id2].inDegrees == 1 && NeverQueued(c.log, id2) && c.tasks[id2].nodeRequest.None?
  {
    hide AfterRun, IsRun, TaskIdOf, NewHandler, Inv, ReportedDone, EarlyCompletion, Setting;
    var run := EarlyCompletion(jobId, first, second, node);
    var id, id2 := IdOf(jobId, first), IdOf(jobId, second);
    UntilTheEnd(jobId, first, second, node);
    RunKeeps(run);
    SettingIs(jobId, first, second, node);
    assert LogOf(run) == History(id, id2);
    HonestHistory(id, id2);
    WaitsForTheFirst(AfterRun(run), jobId, first, second, node);
    if IsRun(run + more) && id !in ReportedDone(more) {
      FanInPlacesAtTheLastReport(run, more, id2, {id});
      assert {id} - ReportedDone(more) == {id};
    }
  }

  lemma HonestHistory(id: string, id2: string)
    ensures HonestWorkers(History(id, id2))
  {
    assert History(id, id2)[2].Dispatched? && History(id, id2)[2].id == id;
    assert DispatchedBefore(History(id, id2), 3, id);
  }

  lemma WaitsForTheFirst(s: System, jobId: string, first: Submission, second: Submission, node: Node)
    requires Setting(jobId, first, second, node) && Inv(s)
    requires first.timeout.Some? && second.timeout.Some?
    requires s == System(Accepted(jobId, first, second, node), map[], {jobId})
    ensures Gathering(s, IdOf(jobId, second), {IdOf(jobId, first)}, {})
  {
    SettingIs(jobId, first, second, node);
    hide Inv, TaskIdOf, NewHandler, Setting;
  }

  lemma SettingIs(jobId: string, first: Submission, second: Submission, node: Node)
    requires Setting(jobId, first, second, node)
    ensures IdOf(jobId, first) != IdOf(jobId, second) && first.timeout.Some? && second.timeout.Some?
    ensures Dependent(jobId, first, second).jobId == jobId
  {
    TaskIdsDiffer(jobId, first.req.name, jobId, second.req.name);
  }

  // ---------- A waiting task beside a free node ----------

  /** A job whose first task waits and whose second is refused, another job that waits for the same endpoint, and its node. */
  ghost predicate Contention(jobId: string, first: Submission, refused: Submission, jobId2: string, other: Submission, node: Node) {
    && NoDash(jobId) && NoDash(jobId2) && jobId != jobId2
    && MayWait(first) && refused.timeout.None? && refused.req.name != first.req.name
    && MayWait(other) && EndpointOf(other) == EndpointOf(first)
    && node.capabilities == [EndpointOf(first)]
  }

  function RefusedThenWaiting(jobId: string, first: Submission, refused: Submission, jobId2: string, other: Submission, node: Node): seq<Action> {
    [Submit(jobId, [first, refused])] + [Accept(jobId)] + [Accept(jobId)] + [Submit(jobId2, [other])] + [Accept(jobId2)] + [Join(node)]
  }

  /** The refused job has left one ticket in the queue, whose receiver is gone. */
  function Leftover(jobId: string, first: Submission): Core {
    Core(map[], [], map[], NodesState(map[], Balancer(map[], map[]), map[EndpointOf(first) := [0]], map[], 1),
         map[IdOf(jobId, first) := 0], [Inserted(IdOf(jobId, first), {})])
  }

  lemma RefusalLeavesATicket(jobId: string, first: Submission, refused: Submission)
    requires MayWait(first) && refused.timeout.None?
    ensures var c := Validate(EmptyCore(), jobId, first.req, first.timeout).0;
      && Validate(c, jobId, refused.req, refused.timeout) == (c, Err(OtherError))
      && RemoveJob(c, jobId) == Leftover(jobId, first)
  {
    hide TaskIdOf;
    var e, id := EndpointOf(first), IdOf(jobId, first);
    Asks(EmptyCore(), jobId, first);
    var c := Validate(EmptyCore(), jobId, first.req, first.timeout).0;
    assert c.tasks == map[id := Waiter(jobId, first, 0)] && RequestsOf(c.tasks, jobId) == {0} by {
      assert c.tasks[id].nodeRequest == Some(0) && c.tasks[id].jobId == jobId;
    }
    assert Waiting(EmptyNodes(), e) + [0] == [0];
    assert c.pool == NodesState(map[], Balancer(map[], map[]), map[e := [0]], map[0 := Channel(e, None)], 1);
    assert RemoveJob(c, jobId).tasks == map[];
    assert RemoveJob(c, jobId).pool.channels == map[];
  }

  /** With two tickets in the queue, the first of them dead, a new node goes to the pool. */
  lemma JoinIsFree(ns: NodesState, node: Node, endpoint: string)
    requires node.capabilities == [endpoint] && node.id !in ns.nodes && ns.balancer == Balancer(map[], map[])
    requires Waiting(ns, endpoint) == [0, 1] && 0 !in ns.channels && 1 in ns.channels
    ensures var ns' := Register(ns, node);
      && Pool(ns', endpoint) == [node.id] && Waiting(ns', endpoint) == [1] && ns'.channels == ns.channels
  {
    var known := ns.(nodes := ns.nodes[node.id := node]);
    assert node.capabilities[..0] == [];
    assert OfferAll(known, node.id, false, node.capabilities[..0]) == known;
    assert [0, 1][1..] == [1];
  }

  /**
    A refused job leaves its ticket in the queue. The next node is spent on it and becomes free, while
    the task of a live job waits behind: it has asked for a node, nobody else waits, and the node it
    asked for is in the pool.
   */
  lemma RefusedJobStarvesAnother(jobId: string, first: Submission, refused: Submission, jobId2: string, other: Submission, node: Node)
    requires Contention(jobId, first, refused, jobId2, other, node)
    ensures var run := RefusedThenWaiting(jobId, first, refused, jobId2, other, node);
      && IsRun(run)
      && var c, id := AfterRun(run).core, IdOf(jobId2, other);
         && NodesProperties.Starved(c.pool, EndpointOf(other))
         && id in c.tasks && c.tasks[id].nodeRequest == Some(1) && Waiting(c.pool, EndpointOf(other)) == [1]
         && Pool(c.pool, EndpointOf(other)) == [node.id]
  {
    hide AfterRun, IsRun, Validate, Register, RemoveJob, TaskIdOf, NewHandler, Request, NoDash;
    var e := EndpointOf(first);
    var run1 := [Submit(jobId, [first, refused])];
    var run2, run3 := run1 + [Accept(jobId)], run1 + [Accept(jobId)] + [Accept(jobId)];
    var run4, run5 := run3 + [Submit(jobId2, [other])], run3 + [Submit(jobId2, [other])] + [Accept(jobId2)];
    Nothing();
    OneMoreStep([], run1[0]);
    assert [] + run1 == run1;
    OneMoreStep(run1, Accept(jobId));
    Asks(EmptyCore(), jobId, first);
    AcceptTakes(AfterRun(run1), jobId, Validate(EmptyCore(), jobId, first.req, first.timeout).0, false);
    OneMoreStep(run2, Accept(jobId));
    RefusalLeavesATicket(jobId, first, refused);
    assert AfterRun(run3) == System(Leftover(jobId, first), map[], {jobId});
    OneMoreStep(run3, Submit(jobId2, [other]));
    OneMoreStep(run4, Accept(jobId2));
    Asks(Leftover(jobId, first), jobId2, other);
    AcceptTakes(AfterRun(run4), jobId2, Validate(Leftover(jobId, first), jobId2, other.req, other.timeout).0, false);
    OneMoreStep(run5, Join(node));
    TwoTickets(jobId, first);
    JoinIsFree(AfterRun(run5).core.pool, node, e);
    StarvedBy(AfterRun(run5 + [Join(node)]).core.pool, e);
  }

  lemma TwoTickets(jobId: string, first: Submission)
    ensures var e := EndpointOf(first);
      var (ns, t) := Request(Leftover(jobId, first).pool, e);
      Waiting(ns, e) == [0, 1] && t == 1 && ns.channels == map[1 := Channel(e, None)] && ns.nodes == map[] && ns.balancer == Balancer(map[], map[])
  {
  }

  lemma StarvedBy(ns: NodesState, e: string)
    requires Pool(ns, e) != [] && Waiting(ns, e) == [1] && 1 in ns.channels
    ensures NodesProperties.Starved(ns, e)
  {
  }
}
