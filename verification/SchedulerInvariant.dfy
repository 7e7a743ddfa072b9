/** What holds of the scheduler in every state of every run, and the reasons it starts out true. */
module SchedulerInvariant {
  import opened Wrappers
  import opened Messages
  import opened Nodes
  import opened Orders
  import opened Scheduler

  // ---------- Task ids determine their job ----------

  function JobOf(id: string): (job: string)
    ensures |job| <= |id|
  {
    if id == [] || id[0] == '-' then [] else [id[0]] + JobOf(id[1..])
  }

  /** With no '-' in the job id, the first '-' of a task id ends it, so an id names one job and one task. */
  lemma {:induction false} JobOfTaskId(jobId: string, name: string)
    requires NoDash(jobId)
    ensures JobOf(TaskIdOf(jobId, name)) == jobId
    decreases |jobId|
  {
    var id := TaskIdOf(jobId, name);
    if jobId != [] {
      assert id[1..] == TaskIdOf(jobId[1..], name);
      assert jobId[0] in jobId;
      JobOfTaskId(jobId[1..], name);
    }
  }

  lemma TaskIdIsInjective(job1: string, name1: string, job2: string, name2: string)
    requires NoDash(job1) && NoDash(job2)
    requires TaskIdOf(job1, name1) == TaskIdOf(job2, name2)
    ensures job1 == job2 && name1 == name2
  {
    JobOfTaskId(job1, name1);
    JobOfTaskId(job2, name2);
    assert name1 == TaskIdOf(job1, name1)[|job1| + 1..];
    assert name2 == TaskIdOf(job2, name2)[|job2| + 1..];
  }

  // ---------- Tasks ----------

  ghost predicate Keyed(id: string, h: Handler) {
    && NoDash(h.jobId)
    && h.task.jobId == h.jobId
    && id == TaskIdOf(h.jobId, h.task.name)
  }

  ghost predicate WellKeyed(tasks: map<string, Handler>) {
    forall id | id in tasks :: Keyed(id, tasks[id])
  }

  /** A task's dependencies exist, belong to its job and were inserted before it. */
  ghost predicate GraphAt(tasks: map<string, Handler>, stamp: map<string, nat>, id: string)
    requires id in tasks
  {
    && id in stamp
    && forall d | d in tasks[id].dependencies ::
         d in tasks && tasks[d].jobId == tasks[id].jobId && d in stamp && stamp[d] < stamp[id]
  }

  ghost predicate Graph(tasks: map<string, Handler>, stamp: map<string, nat>) {
    forall id | id in tasks :: GraphAt(tasks, stamp, id)
  }

  function Open(dependencies: map<string, bool>): set<string> {
    set d | d in dependencies && !dependencies[d]
  }

  ghost predicate Degrees(tasks: map<string, Handler>) {
    forall id | id in tasks :: tasks[id].inDegrees == |Open(tasks[id].dependencies)|
  }

  // ---------- History ----------

  ghost predicate StampedAt(stamp: map<string, nat>, log: seq<Event>, id: string)
    requires id in stamp
  {
    stamp[id] < |log| && log[stamp[id]].Inserted? && log[stamp[id]].id == id
  }

  ghost predicate Stamps(tasks: map<string, Handler>, stamp: map<string, nat>, log: seq<Event>) {
    && (forall id | id in stamp :: StampedAt(stamp, log, id))
    && (forall id | id in tasks :: id in stamp && log[stamp[id]] == Inserted(id, tasks[id].dependencies.Keys))
  }

  /** Only inserted tasks have a history. */
  ghost predicate Known(stamp: map<string, nat>, log: seq<Event>) {
    forall i | 0 <= i < |log| :: log[i].id in stamp
  }

  ghost predicate CompletedIn(log: seq<Event>, from: int, to: int, d: string) {
    exists q :: 0 <= from < q < to <= |log| && log[q] == Completed(d)
  }

  /** A flag is set exactly when its dependency completed after the task was inserted; `key` may still be due in `todo`. */
  ghost predicate FlagAt(h: Handler, log: seq<Event>, from: nat, d: string)
    requires d in h.dependencies
  {
    h.dependencies[d] <==> CompletedIn(log, from, |log|, d)
  }

  ghost predicate Flags(tasks: map<string, Handler>, stamp: map<string, nat>, log: seq<Event>, key: string, todo: set<string>) {
    forall id, d | id in tasks && id in stamp && d in tasks[id].dependencies && !(d == key && id in todo) ::
      FlagAt(tasks[id], log, stamp[id], d)
  }

  /** Before position `to`, the task was inserted and each of its dependencies completed after that. */
  ghost predicate SafeBefore(log: seq<Event>, to: int, id: string) {
    exists p | 0 <= p < to && p < |log| ::
      log[p].Inserted? && log[p].id == id && forall d | d in log[p].deps :: CompletedIn(log, p, to, d)
  }

  ghost predicate QueuedBefore(log: seq<Event>, to: int, id: string) {
    exists j | 0 <= j < to && j < |log| :: log[j].Enqueued? && log[j].id == id
  }

  /** Only tasks with completed dependencies are queued, and only queued tasks are dispatched. */
  ghost predicate Safe(log: seq<Event>) {
    forall i | 0 <= i < |log| ::
      && (log[i].Enqueued? ==> SafeBefore(log, i, log[i].id))
      && (log[i].Takes() ==> QueuedBefore(log, i, log[i].id))
  }

  // ---------- Queue ----------

  function EnqueuedIds(log: seq<Event>): seq<string> {
    if log == [] then []
    else
      var e := log[|log| - 1];
      EnqueuedIds(log[..|log| - 1]) + if e.Enqueued? then [e.id] else []
  }

  /** The ids that left the queue. */
  function TakenIds(log: seq<Event>): seq<string> {
    if log == [] then []
    else
      var e := log[|log| - 1];
      TakenIds(log[..|log| - 1]) + if e.Takes() then [e.id] else []
  }

  /** First in, first out: what was queued is what left the queue, then the queue. */
  ghost predicate Fifo(queue: seq<string>, log: seq<Event>) {
    EnqueuedIds(log) == TakenIds(log) + queue
  }

  // ---------- Recruitments ----------

  ghost predicate Requests(tasks: map<string, Handler>, waiters: map<Ticket, string>, channels: set<Ticket>) {
    && waiters.Keys == channels
    && (forall t | t in waiters :: waiters[t] in tasks && tasks[waiters[t]].nodeRequest == Some(t))
    && (forall id | id in tasks && tasks[id].nodeRequest.Some? ::
          && tasks[id].nodeRequest.value in waiters
          && waiters[tasks[id].nodeRequest.value] == id
          && tasks[id].task.receiver.None?)
  }

  // ---------- Where a task stands ----------

  function Made(log: seq<Event>, id: string): nat {
    multiset(log)[Enqueued(id, Initial)]
  }

  function Asking(h: Handler): nat {
    if h.nodeRequest.Some? then 1 else 0
  }

  function Pending(accepting: map<string, Accepting>, jobId: string, id: string): nat {
    if jobId in accepting then multiset(accepting[jobId].ready)[id] else 0
  }

  /**
    Exactly one of: first enqueue made, node request outstanding, recruitment failed, validated and
    waiting for accept_job to queue it. A task that still waits for dependencies has none of these,
    and neither has the one in `hole`, which is just being placed.
   */
  ghost predicate PhaseAt(h: Handler, log: seq<Event>, accepting: map<string, Accepting>, hole: Option<string>, id: string) {
    Made(log, id) + Asking(h) + multiset(log)[RecruitFailed(id)] + Pending(accepting, h.jobId, id)
    == if h.inDegrees == 0 && hole != Some(id) then 1 else 0
  }

  ghost predicate Phase(tasks: map<string, Handler>, log: seq<Event>, accepting: map<string, Accepting>, hole: Option<string>) {
    forall id | id in tasks :: PhaseAt(tasks[id], log, accepting, hole, id)
  }

  ghost predicate ReadyAt(h: Handler, log: seq<Event>, accepting: map<string, Accepting>, id: string) {
    (exists cause :: Enqueued(id, cause) in log) || Pending(accepting, h.jobId, id) > 0 ==> h.Ready()
  }

  /** Whatever was queued, or is about to be, is ready and stays so. */
  ghost predicate ReadyOnes(tasks: map<string, Handler>, log: seq<Event>, accepting: map<string, Accepting>) {
    forall id | id in tasks :: ReadyAt(tasks[id], log, accepting, id)
  }

  // ---------- Admission ----------

  ghost predicate JobsKnown(stamp: map<string, nat>, jobs: set<string>) {
    forall id | id in stamp :: JobOf(id) in jobs
  }

  ghost predicate AcceptingAt(tasks: map<string, Handler>, stamp: map<string, nat>, jobs: set<string>, jobId: string, a: Accepting) {
    && jobId in jobs
    && NoDash(jobId)
    && DistinctNames(a.rest)
    && (forall i | 0 <= i < |a.rest| :: TaskIdOf(jobId, a.rest[i].req.name) !in stamp)
    && (forall id | id in a.ready :: id in tasks && tasks[id].jobId == jobId)
  }

  ghost predicate Admission(tasks: map<string, Handler>, stamp: map<string, nat>, accepting: map<string, Accepting>, jobs: set<string>) {
    forall jobId | jobId in accepting :: AcceptingAt(tasks, stamp, jobs, jobId, accepting[jobId])
  }

  // ---------- The whole invariant ----------

  /** Everything but the flags and the phases, which a loop over the tasks breaks for a moment. */
  ghost predicate Base(c: Core, accepting: map<string, Accepting>, jobs: set<string>) {
    && WellKeyed(c.tasks)
    && Graph(c.tasks, c.stamp)
    && Degrees(c.tasks)
    && Stamps(c.tasks, c.stamp, c.log)
    && Known(c.stamp, c.log)
    && Safe(c.log)
    && Fifo(c.queue, c.log)
    && Requests(c.tasks, c.waiters, c.pool.channels.Keys)
    && ReadyOnes(c.tasks, c.log, accepting)
    && JobsKnown(c.stamp, jobs)
    && Admission(c.tasks, c.stamp, accepting, jobs)
    && Valid(c.pool)
  }

  /** The invariant in the middle of a loop: `key` has completed but its flag is still due in `todo`. */
  ghost predicate Within(c: Core, accepting: map<string, Accepting>, jobs: set<string>, key: string, todo: set<string>, hole: Option<string>) {
    && Base(c, accepting, jobs)
    && Flags(c.tasks, c.stamp, c.log, key, todo)
    && Phase(c.tasks, c.log, accepting, hole)
  }

  ghost predicate Inv(s: System) {
    Within(s.core, s.accepting, s.jobs, "", {}, None)
  }

  lemma InvInitially()
    ensures Inv(EmptySystem())
  {
  }
}
