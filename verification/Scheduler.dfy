/**
  The domain manager's task scheduler on values: the task map, the run queue, the recruitments
  that wait for a node, and one function per locked section of the source. `log` and `stamp` are
  history: what happened in order, and the position at which each task was inserted.
 */
module Scheduler {
  import opened Wrappers
  import opened Messages
  import opened Nodes
  import opened Orders
  import Codec
  import Utf8
  import Wire

  const MAX_RETRIES: nat := 3

  // ---------- Task ids ----------

  function TaskIdOf(jobId: string, taskName: string): string {
    jobId + "-" + taskName
  }

  ghost predicate NoDash(s: string) {
    '-' !in s
  }

  // ---------- State ----------

  datatype Handler = Handler(
    task: Task,
    dependencies: map<string, bool>,
    inDegrees: int,
    capabilityFilters: CapabilityFilters,
    resourceRecruitment: ResourceRecruitment,
    jobId: string,
    timeout: nat,
    input: Option<Any>,
    retries: nat,
    nodeRequest: Option<Ticket>)
  {
    predicate Ready() {
      inDegrees == 0 && task.receiver.Some?
    }

    function WithStatus(status: Status): Handler {
      this.(task := task.(status := status))
    }

    /** TaskHandler::failed, apart from the abort of its node request. */
    function Failed(message: string): Handler {
      this.(task := task.(status := FAILED, output := Some(Codec.ErrorOutput(message))), nodeRequest := None)
    }
  }

  datatype Cause = Initial | Retried

  datatype Event =
    | Inserted(id: string, deps: set<string>)
    | Enqueued(id: string, cause: Cause)
    | RecruitFailed(id: string)
    | Completed(id: string)
    | Dispatched(id: string, live: bool)
    | Lost(id: string)
  {
    /** The id leaves the queue. */
    predicate Takes() {
      Dispatched? || Lost?
    }
  }

  datatype SchedulerError =
    | TaskNotFound(message: string)
    | NodeNotFound(message: string)
    | TaskAlreadyExists
    | RetryLimitReached
    | OtherError

  datatype Core = Core(
    tasks: map<string, Handler>,
    queue: seq<string>,
    waiters: map<Ticket, string>,
    pool: NodesState,
    stamp: map<string, nat>,
    log: seq<Event>)

  function EmptyCore(): Core {
    Core(map[], [], map[], EmptyNodes(), map[], [])
  }

  function Put(c: Core, id: string, h: Handler): Core {
    c.(tasks := c.tasks[id := h])
  }

  function Enqueue(c: Core, id: string, cause: Cause): Core {
    c.(queue := c.queue + [id], log := c.log + [Enqueued(id, cause)])
  }

  /** Aborting a recruitment drops its receiver and the waiting continuation. */
  function Abort(c: Core, request: Option<Ticket>): Core {
    match request
    case None => c
    case Some(t) => c.(waiters := c.waiters - {t}, pool := Drop(c.pool, t))
  }

  // ---------- recruit_node ----------

  datatype Recruitment =
    | Found(core: Core, handler: Handler)
    | Asked(core: Core, handler: Handler)
    | Rejected(core: Core, handler: Handler, error: SchedulerError)

  /** find_node and, when it finds none and the policy allows waiting, request_node, as one step. */
  function Recruit(c: Core, h: Handler): Recruitment {
    var (found, node) := Find(c.pool, h.capabilityFilters.endpoint);
    match node
    case Some(n) =>
      Found(c.(pool := found), h.(task := h.task.(receiver := Some(n.id))))
    case None =>
      if h.resourceRecruitment.recruitmentPolicy == FAIL then
        var message := "No nodes found for task: " + h.task.name;
        Rejected(Abort(c, h.nodeRequest), h.Failed(message), NodeNotFound(message))
      else
        var (asked, t) := Request(c.pool, h.capabilityFilters.endpoint);
        Asked(c.(pool := asked, waiters := c.waiters[t := TaskIdOf(h.jobId, h.task.name)]),
              h.(task := h.task.(receiver := None), nodeRequest := Some(t)))
  }

  // ---------- validate_task and remove_job ----------

  function NewHandler(jobId: string, req: TaskRequest, timeout: nat): Handler {
    Handler(
      Task(req.name, req.receiver, req.capabilityFilters.endpoint, None, jobId, req.sender, WAITING_FOR_RESOURCE, None),
      map[], 0, req.capabilityFilters, req.resourceRecruitment, jobId, timeout, req.data, 0, None)
  }

  function NeedIds(jobId: string, needs: seq<string>): set<string> {
    set i | 0 <= i < |needs| :: TaskIdOf(jobId, needs[i])
  }

  /** The first need, in order, that names no task. */
  function MissingNeed(tasks: map<string, Handler>, jobId: string, needs: seq<string>): Option<string> {
    if needs == [] then None
    else if TaskIdOf(jobId, needs[0]) !in tasks then Some(TaskIdOf(jobId, needs[0]))
    else MissingNeed(tasks, jobId, needs[1..])
  }

  function WithNeeds(h: Handler, jobId: string, needs: seq<string>): Handler {
    if needs == [] then h
    else
      var ids := NeedIds(jobId, needs);
      h.(dependencies := map d | d in ids :: false, inDegrees := |ids|)
  }

  function Insert(c: Core, id: string, h: Handler): Core {
    c.(tasks := c.tasks[id := h],
       stamp := c.stamp[id := |c.log|],
       log := c.log + [Inserted(id, h.dependencies.Keys)])
  }

  function ValidateRest(c: Core, id: string, h: Handler, jobId: string, req: TaskRequest): (Core, Result<bool, SchedulerError>) {
    var missing := MissingNeed(c.tasks, jobId, req.needs);
    if missing.Some? then
      (c, Err(TaskNotFound("Invalid dependency: " + missing.value)))
    else
      var h1 := WithNeeds(h, jobId, req.needs);
      if h1.inDegrees != 0 then
        (Insert(c, id, h1), Ok(h1.Ready()))
      else
        match Recruit(c, h1)
        case Rejected(c2, _, error) => (c2, Err(error))
        case Found(c2, h2) => (Insert(c2, id, h2), Ok(h2.Ready()))
        case Asked(c2, h2) => (Insert(c2, id, h2), Ok(h2.Ready()))
  }

  /** The answer is whether the task can be queued at once. A timeout of None is one that does not parse. */
  function Validate(c: Core, jobId: string, req: TaskRequest, timeout: Option<nat>): (Core, Result<bool, SchedulerError>) {
    if timeout.None? then
      (c, Err(OtherError))
    else
      var id := TaskIdOf(jobId, req.name);
      if id in c.tasks then
        if c.tasks[id].task.status == WAITING_FOR_RESOURCE then (c, Ok(c.tasks[id].Ready()))
        else if c.tasks[id].task.status == DONE then (c, Ok(true))
        else
          var (c1, error) := Add(c, id);
          if error.Some? then (c1, Err(error.value))
          else if id in c1.tasks then ValidateRest(c1, id, c1.tasks[id], jobId, req)
          else (c1, Err(TaskNotFound(id)))
      else
        ValidateRest(c, id, NewHandler(jobId, req, timeout.value), jobId, req)
  }

  function RequestsOf(tasks: map<string, Handler>, jobId: string): set<Ticket> {
    set id | id in tasks && tasks[id].jobId == jobId && tasks[id].nodeRequest.Some? :: tasks[id].nodeRequest.value
  }

  function RemoveJob(c: Core, jobId: string): Core {
    var dead := RequestsOf(c.tasks, jobId);
    c.(tasks := map id | id in c.tasks && c.tasks[id].jobId != jobId :: c.tasks[id],
       waiters := c.waiters - dead,
       pool := c.pool.(channels := c.pool.channels - dead))
  }

  // ---------- The queue ----------

  function Push(c: Core, ids: seq<string>): Core
    decreases |ids|
  {
    if ids == [] then c
    else Enqueue(Push(c, ids[..|ids| - 1]), ids[|ids| - 1], Initial)
  }

  /** get_next_task: the id leaves the queue even when its task is gone. */
  function Next(c: Core): (Core, Option<Handler>) {
    if c.queue == [] then (c, None)
    else
      var id := c.queue[0];
      (c.(queue := c.queue[1..], log := c.log + [Dispatched(id, id in c.tasks)]),
       if id in c.tasks then Some(c.tasks[id]) else None)
  }

  /**
    get_next_task dropped between its two locks, because another branch of the event loop was faster:
    the id has left the queue and nobody gets its task.
   */
  function Interrupted(c: Core): Core {
    if c.queue == [] then c
    else c.(queue := c.queue[1..], log := c.log + [Lost(c.queue[0])])
  }

  // ---------- A recruitment receives its node ----------

  function Deliver(c: Core, t: Ticket): Core {
    if t in c.waiters && t in c.pool.channels && c.pool.channels[t].node.Some? then
      var id := c.waiters[t];
      var c1 := c.(waiters := c.waiters - {t}, pool := Drop(c.pool, t));
      if id in c.tasks then
        var h := c.tasks[id];
        Enqueue(Put(c1, id, h.(task := h.task.(receiver := c.pool.channels[t].node), nodeRequest := None)), id, Initial)
      else
        c1
    else
      c
  }

  // ---------- task_state_machine ----------

  function NoSuchTask(key: string): SchedulerError {
    TaskNotFound("Task " + key + " not found")
  }

  /** The literal is not a serialized message, unlike every other output of type "Error". */
  function RetriesExceeded(): Any {
    Any("Error", Codec.Ascii("Task failed after 3 retries"))
  }

  /** monitor_tasks, which expects every output of type "Error" to be a message, could not read this one. */
  lemma RetryLimitOutputIsUnreadable()
    ensures RetriesExceeded().typeUrl == "Error"
    ensures Codec.DeserializeError(RetriesExceeded().value) == None
  {
    hide Codec.DeserializeError, Codec.Ascii;
    ShortTextIsUnreadable("Task failed after 3 retries");
  }

  /** A text read as a message: its first character is taken for the length. */
  lemma ShortTextIsUnreadable(text: string)
    requires text != [] && |text| <= text[0] as int < 0x80 && forall i | 0 <= i < |text| :: text[i] as int < 0x80
    ensures Codec.DeserializeError(Codec.Ascii(text)) == None
  {
    Utf8.AsciiLength(text);
    FirstByte(text);
    hide Utf8.Encode, Wire.Absorb, Codec.ErrorArm;
    var b := Utf8.Encode(text);
    assert Wire.ReadVarint(b, Wire.MAX_VARINT_BYTES) == Some((b[0], b[1..]));
  }

  lemma FirstByte(text: string)
    requires text != [] && text[0] as int < 0x80
    ensures Utf8.Encode(text) != [] && Utf8.Encode(text)[0] == text[0] as int
  {
  }

  /** The handler after a Retry that its status allows. */
  function RetriedHandler(h: Handler): Handler {
    if h.retries >= MAX_RETRIES then
      h.(task := h.task.(status := FAILED, output := Some(RetriesExceeded())))
    else if h.Ready() then h.WithStatus(PENDING)
    else h.WithStatus(WAITING_FOR_RESOURCE)
  }

  function Retry(c: Core, key: string): (Core, Option<SchedulerError>) {
    if key !in c.tasks then
      (c, Some(NoSuchTask(key)))
    else
      var h := c.tasks[key];
      if h.task.status != RETRY && h.task.status != FAILED then
        (c, Some(TaskAlreadyExists))
      else
        var c1 := Put(c, key, RetriedHandler(h));
        if h.retries >= MAX_RETRIES then (c1, Some(RetryLimitReached))
        else if h.Ready() then (Enqueue(c1, key, Retried), None)
        else (c1, None)
  }

  function Add(c: Core, key: string): (Core, Option<SchedulerError>) {
    if key !in c.tasks then
      (c, Some(NoSuchTask(key)))
    else
      match c.tasks[key].task.status
      case STARTED => (c, Some(TaskAlreadyExists))
      case PROCESSING => (c, Some(TaskAlreadyExists))
      case PENDING => (c, Some(TaskAlreadyExists))
      case WAITING_FOR_RESOURCE => (c, None)
      case DONE => (c, None)
      case _ => Retry(c, key)
  }

  /** One handler of the Done loop: clear the flag, and place the task once nothing is left to wait for. */
  function DoneVisit(c: Core, key: string, id: string): Core {
    if id in c.tasks && key in c.tasks[id].dependencies && !c.tasks[id].dependencies[key] then
      var h := c.tasks[id].(dependencies := c.tasks[id].dependencies[key := true], inDegrees := c.tasks[id].inDegrees - 1);
      if h.inDegrees == 0 then PlaceDone(c, id, h) else Put(c, id, h)
    else
      c
  }

  function PlaceDone(c: Core, id: string, h: Handler): Core {
    match Recruit(c, h)
    case Rejected(c1, h1, error) =>
      var c2 := Put(c1, id, h1.Failed("Node not found: " + error.message));
      c2.(log := c2.log + [RecruitFailed(id)])
    case Asked(c1, h1) => Put(c1, id, h1)
    case Found(c1, h1) => Enqueue(Put(c1, id, h1), TaskIdOf(h1.jobId, h1.task.name), Initial)
  }

  function DoneSweep(c: Core, key: string, order: seq<string>): Core
    decreases |order|
  {
    if order == [] then c
    else DoneVisit(DoneSweep(c, key, order[..|order| - 1]), key, order[|order| - 1])
  }

  /** `order` is the order in which the hash map is iterated. */
  function Done(c: Core, key: string, order: seq<string>): (Core, Option<SchedulerError>) {
    if key !in c.tasks then
      (c, Some(NoSuchTask(key)))
    else
      var status := c.tasks[key].task.status;
      if status != PROCESSING && status != STARTED && status != DONE then
        (c, Some(TaskAlreadyExists))
      else
        var c1 := Put(c, key, c.tasks[key].WithStatus(DONE));
        (DoneSweep(c1.(log := c1.log + [Completed(key)]), key, order), None)
  }

  /** `path` leads from a task to one that needs it, directly or through others. */
  ghost predicate NeedsPath(tasks: map<string, Handler>, path: seq<string>) {
    && path != []
    && (forall i | 0 <= i < |path| :: path[i] in tasks)
    && (forall i | 0 < i < |path| :: path[i - 1] in tasks[path[i]].dependencies)
  }

  /** `id` is `key` or one of its transitive dependents. */
  ghost predicate Reaches(tasks: map<string, Handler>, key: string, id: string) {
    exists path :: NeedsPath(tasks, path) && path[0] == key && path[|path| - 1] == id
  }

  ghost function MarkFailed(tasks: map<string, Handler>, key: string): map<string, Handler> {
    map id | id in tasks :: if Reaches(tasks, key, id) then tasks[id].WithStatus(FAILED) else tasks[id]
  }

  ghost function Fail(c: Core, key: string): (Core, Option<SchedulerError>) {
    if key !in c.tasks then (c, Some(NoSuchTask(key)))
    else (c.(tasks := MarkFailed(c.tasks, key)), None)
  }

  // ---------- update_task ----------

  ghost function Update(c: Core, task: Task, order: seq<string>): Core {
    var key := TaskIdOf(task.jobId, task.name);
    if key !in c.tasks then c
    else
      var c1 := Put(c, key, c.tasks[key].(task := task));
      match task.status
      case RETRY => Retry(c1, key).0
      case FAILED => Fail(c1, key).0
      case DONE => Done(c1, key, order).0
      case _ => c1
  }

  // ---------- The domain manager ----------

  /** A task request together with the outcome of parsing its timeout. */
  datatype Submission = Submission(req: TaskRequest, timeout: Option<nat>)

  /** A running accept_job: the requests still to validate and the ids to queue at the end. */
  datatype Accepting = Accepting(rest: seq<Submission>, ready: seq<string>)

  datatype System = System(core: Core, accepting: map<string, Accepting>, jobs: set<string>)

  function EmptySystem(): System {
    System(EmptyCore(), map[], {})
  }

  datatype Action =
    | Submit(jobId: string, subs: seq<Submission>)
    | Accept(jobId: string)
    | Join(node: Node)
    | Receive(ticket: Ticket)
    | Dispatch
    | Interrupt
    | Report(task: Task, order: seq<string>)
    | RetryTask(key: string)

  function AcceptStep(s: System, jobId: string): System {
    if jobId !in s.accepting then s
    else
      var a := s.accepting[jobId];
      if a.rest == [] then
        s.(core := Push(s.core, a.ready), accepting := s.accepting - {jobId})
      else
        var (c, result) := Validate(s.core, jobId, a.rest[0].req, a.rest[0].timeout);
        match result
        case Err(_) =>
          s.(core := RemoveJob(c, jobId), accepting := s.accepting - {jobId})
        case Ok(ready) =>
          var ids := if ready then a.ready + [TaskIdOf(jobId, a.rest[0].req.name)] else a.ready;
          s.(core := c, accepting := s.accepting[jobId := Accepting(a.rest[1..], ids)])
  }

  ghost function Step(s: System, action: Action): System {
    match action
    case Submit(jobId, subs) =>
      s.(accepting := s.accepting[jobId := Accepting(subs, [])], jobs := s.jobs + {jobId})
    case Accept(jobId) => AcceptStep(s, jobId)
    case Join(node) => s.(core := s.core.(pool := Register(s.core.pool, node)))
    case Receive(t) => s.(core := Deliver(s.core, t))
    case Dispatch => s.(core := Next(s.core).0)
    case Interrupt => s.(core := Interrupted(s.core))
    case Report(task, order) => s.(core := Update(s.core, task, order))
    case RetryTask(key) => s.(core := Retry(s.core, key).0)
  }

  /**
    What a run is assumed to do: job ids are new and contain no '-' (they are hex digests), task
    names within a job are distinct, and a status report names its job by such an id and repeats
    the task's receiver.
   */
  ghost predicate Allowed(s: System, action: Action) {
    match action
    case Submit(jobId, subs) =>
      && jobId !in s.jobs
      && NoDash(jobId)
      && DistinctNames(subs)
    case Report(task, order) =>
      && IsOrder(order, s.core.tasks.Keys)
      && NoDash(task.jobId)
      && var key := TaskIdOf(task.jobId, task.name);
         key in s.core.tasks ==> task.receiver == s.core.tasks[key].task.receiver
    case _ => true
  }

  ghost predicate DistinctNames(subs: seq<Submission>) {
    forall i, j | 0 <= i < j < |subs| :: subs[i].req.name != subs[j].req.name
  }

  ghost function AfterRun(run: seq<Action>): System
    decreases |run|
  {
    if run == [] then EmptySystem() else Step(AfterRun(run[..|run| - 1]), run[|run| - 1])
  }

  /** A run from the empty domain manager in which every step was allowed. */
  ghost predicate IsRun(run: seq<Action>)
    decreases |run|
  {
    run == [] || (IsRun(run[..|run| - 1]) && Allowed(AfterRun(run[..|run| - 1]), run[|run| - 1]))
  }
}
