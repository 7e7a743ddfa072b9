/** accept_job inside a run: its uninterrupted steps are `AcceptJob`, and it inserts what was requested. */
module AcceptedJobs {
  import opened Wrappers
  import opened Messages
  import opened Nodes
  import opened Orders
  import opened Scheduler
  import opened SchedulerInvariant
  import opened SchedulerSteps
  import opened SchedulerRuns
  import opened SchedulerAdmission

  // ---------- The steps of accept_job, one after the other ----------

  function AcceptSteps(s: System, jobId: string, n: nat): System {
    if n == 0 then s else AcceptStep(AcceptSteps(s, jobId, n - 1), jobId)
  }

  lemma {:induction false} FirstStep(s: System, jobId: string, n: nat)
    requires n > 0
    ensures AcceptSteps(s, jobId, n) == AcceptSteps(AcceptStep(s, jobId), jobId, n - 1)
  {
    hide AcceptStep;
    if n > 1 {
      FirstStep(s, jobId, n - 1);
    }
  }

  lemma {:induction false} NothingLeft(s: System, jobId: string, n: nat)
    requires jobId !in s.accepting
    ensures AcceptSteps(s, jobId, n) == s
  {
    if n > 0 { NothingLeft(s, jobId, n - 1); }
  }

  /** As many steps as requests, and one to queue what is ready, are the whole loop. */
  lemma {:induction false} StepsAreTheLoop(s: System, jobId: string)
    requires jobId in s.accepting
    ensures var a := s.accepting[jobId];
      var (c, r) := AcceptAll(s.core, jobId, a.rest, a.ready);
      AcceptSteps(s, jobId, |a.rest| + 1)
      == s.(core := if r.Some? then Push(c, r.value) else c, accepting := s.accepting - {jobId})
    decreases |s.accepting[jobId].rest|
  {
    hide AcceptSteps, Validate, Push, RemoveJob;
    var a := s.accepting[jobId];
    var s1 := AcceptStep(s, jobId);
    FirstStep(s, jobId, |a.rest| + 1);
    if jobId in s1.accepting {
      StepsAreTheLoop(s1, jobId);
      assert s1.accepting - {jobId} == s.accepting - {jobId};
    } else {
      NothingLeft(s1, jobId, |a.rest|);
    }
  }

  /** A job submitted and accepted without other steps in between. */
  function AcceptRun(jobId: string, subs: seq<Submission>): seq<Action> {
    [Submit(jobId, subs)] + seq(|subs| + 1, _ => Accept(jobId))
  }

  lemma {:induction false} AfterAccepts(run: seq<Action>, jobId: string, n: nat)
    ensures AfterRun(run + seq(n, _ => Accept(jobId))) == AcceptSteps(AfterRun(run), jobId, n)
    ensures IsRun(run) ==> IsRun(run + seq(n, _ => Accept(jobId)))
  {
    hide AcceptStep;
    var more := run + seq(n, _ => Accept(jobId));
    if n == 0 {
      assert more == run;
    } else {
      AfterAccepts(run, jobId, n - 1);
      assert more[..|more| - 1] == run + seq(n - 1, _ => Accept(jobId));
    }
  }

  /** Submitting a new job and accepting it takes a run to the state that AcceptJob computes. */
  lemma AcceptRunIsAcceptJob(run: seq<Action>, jobId: string, subs: seq<Submission>)
    requires IsRun(run) && jobId !in AfterRun(run).jobs && NoDash(jobId) && DistinctNames(subs)
    ensures IsRun(run + AcceptRun(jobId, subs))
    ensures var s := AfterRun(run);
      AfterRun(run + AcceptRun(jobId, subs)) == System(AcceptJob(s.core, jobId, subs).0, s.accepting, s.jobs + {jobId})
  {
    var s := AfterRun(run);
    RunKeeps(run);
    NewJobIsFresh(s, jobId);
    var run1 := run + [Submit(jobId, subs)];
    assert run1[..|run1| - 1] == run;
    var s1 := AfterRun(run1);
    assert run + AcceptRun(jobId, subs) == run1 + seq(|subs| + 1, _ => Accept(jobId));
    hide AcceptSteps, AcceptAll, Push, AfterRun, DistinctNames, Inv, AcceptStep, NoDash;
    AfterAccepts(run1, jobId, |subs| + 1);
    StepsAreTheLoop(s1, jobId);
    assert s1.accepting - {jobId} == s.accepting;
  }

  // ---------- A job id that was never used ----------

  lemma NewJobIsFresh(s: System, jobId: string)
    requires Inv(s) && jobId !in s.jobs && NoDash(jobId)
    ensures FreshJob(s.core, jobId) && Valid(s.core.pool) && jobId !in s.accepting
    ensures forall name :: TaskIdOf(jobId, name) !in s.core.stamp
  {
    InvIs(s);
    hide Within, Inv;
    Unfold(s.core, s.accepting, s.jobs, "", {}, None);
    NewIdsAreUnstamped(s.core.stamp, s.jobs, jobId);
    NoTaskOfNewJob(s.core.tasks, s.core.stamp, s.core.log, s.jobs, jobId);
    AcceptingAreKnown(s.core.tasks, s.core.stamp, s.accepting, s.jobs);
  }

  lemma AcceptingAreKnown(tasks: map<string, Handler>, stamp: map<string, nat>, accepting: map<string, Accepting>, jobs: set<string>)
    requires Admission(tasks, stamp, accepting, jobs)
    ensures accepting.Keys <= jobs
  {
  }

  lemma NewIdsAreUnstamped(stamp: map<string, nat>, jobs: set<string>, jobId: string)
    requires JobsKnown(stamp, jobs) && jobId !in jobs && NoDash(jobId)
    ensures forall name :: TaskIdOf(jobId, name) !in stamp
  {
    forall name
      ensures TaskIdOf(jobId, name) !in stamp
    {
      JobOfTaskId(jobId, name);
    }
  }

  lemma NoTaskOfNewJob(tasks: map<string, Handler>, stamp: map<string, nat>, log: seq<Event>, jobs: set<string>, jobId: string)
    requires WellKeyed(tasks) && Stamps(tasks, stamp, log) && JobsKnown(stamp, jobs)
    requires jobId !in jobs && NoDash(jobId) && forall name :: TaskIdOf(jobId, name) !in stamp
    ensures forall id | id in tasks :: tasks[id].jobId != jobId
    ensures forall name :: TaskIdOf(jobId, name) !in tasks
  {
  }

  // ---------- What is inserted ----------

  /**
    The handler of a new task: every field as requested and no need met yet. Only a task without needs
    has been recruited for: it has a receiver or a node request, and any other keeps the receiver asked for.
   */
  ghost predicate AsRequested(h: Handler, jobId: string, req: TaskRequest, timeout: nat) {
    && h.jobId == jobId
    && h.task == Task(req.name, h.task.receiver, req.capabilityFilters.endpoint, None, jobId, req.sender, WAITING_FOR_RESOURCE, None)
    && h.dependencies.Keys == NeedIds(jobId, req.needs)
    && (forall d | d in h.dependencies :: !h.dependencies[d])
    && h.inDegrees == |NeedIds(jobId, req.needs)|
    && h.capabilityFilters == req.capabilityFilters
    && h.resourceRecruitment == req.resourceRecruitment
    && h.timeout == timeout && h.input == req.data && h.retries == 0
    && if h.inDegrees == 0 then h.task.receiver.Some? == h.nodeRequest.None? else h.task.receiver == req.receiver && h.nodeRequest.None?
  }

  lemma ValidateInserts(c: Core, id: string, jobId: string, req: TaskRequest, timeout: nat)
    requires id !in c.tasks
    ensures var (c', r) := ValidateRest(c, id, NewHandler(jobId, req, timeout), jobId, req);
      r.Ok? ==> id in c'.tasks && AsRequested(c'.tasks[id], jobId, req, timeout)
  {
    hide Find, Request, MissingNeed, NeedIds;
    if req.needs == [] { NoNeeds(jobId); }
  }

  lemma ValidateLogs(c: Core, id: string, jobId: string, req: TaskRequest, timeout: nat)
    ensures var c' := ValidateRest(c, id, NewHandler(jobId, req, timeout), jobId, req).0;
      exists more :: c'.log == c.log + more && |more| <= 1 && forall e | e in more :: e.Inserted?
  {
    hide Find, Request, MissingNeed, NeedIds, TaskIdOf;
    var h, h1 := NewHandler(jobId, req, timeout), WithNeeds(NewHandler(jobId, req, timeout), jobId, req.needs);
    var (c', r) := ValidateRest(c, id, h, jobId, req);
    if r.Err? {
      assert c'.log == c.log + [];
    } else {
      assert c'.log == c.log + [Inserted(id, h1.dependencies.Keys)];
    }
  }

  lemma NoNeeds(jobId: string)
    ensures NeedIds(jobId, []) == {}
  {
  }

  ghost predicate InsertedSoFar(c: Core, jobId: string, subs: seq<Submission>, k: nat)
    requires k <= |subs|
  {
    forall i | 0 <= i < k ::
      var id := TaskIdOf(jobId, subs[i].req.name);
      id in c.tasks && subs[i].timeout.Some? && AsRequested(c.tasks[id], jobId, subs[i].req, subs[i].timeout.value)
  }

  /** Since `log`, tasks were inserted and queued and nothing else happened. */
  ghost predicate OnlyAdmissions(log: seq<Event>, log': seq<Event>) {
    log <= log' && forall i | |log| <= i < |log'| :: log'[i].Inserted? || log'[i].Enqueued?
  }

  lemma AdmissionsAdd(log: seq<Event>, log': seq<Event>, more: seq<Event>)
    requires OnlyAdmissions(log, log') && forall e | e in more :: e.Inserted? || e.Enqueued?
    ensures OnlyAdmissions(log, log' + more)
  {
  }

  lemma OneMoreInserted(c: Core, c': Core, jobId: string, subs: seq<Submission>, k: nat)
    requires k < |subs| && InsertedSoFar(c, jobId, subs, k)
    requires forall i | i in c.tasks :: i in c'.tasks && c'.tasks[i] == c.tasks[i]
    requires var id := TaskIdOf(jobId, subs[k].req.name);
      id in c'.tasks && subs[k].timeout.Some? && AsRequested(c'.tasks[id], jobId, subs[k].req, subs[k].timeout.value)
    ensures InsertedSoFar(c', jobId, subs, k + 1)
  {
  }

  lemma ValidateNewIs(c: Core, jobId: string, sub: Submission)
    requires TaskIdOf(jobId, sub.req.name) !in c.tasks
    ensures Validate(c, jobId, sub.req, sub.timeout) ==
      if sub.timeout.None? then (c, Err(OtherError))
      else ValidateRest(c, TaskIdOf(jobId, sub.req.name), NewHandler(jobId, sub.req, sub.timeout.value), jobId, sub.req)
  {
  }

  lemma ValidateInsertsNext(c0: Core, c: Core, jobId: string, subs: seq<Submission>, k: nat)
    requires k < |subs| && TaskIdOf(jobId, subs[k].req.name) !in c.tasks
    requires InsertedSoFar(c, jobId, subs, k) && OnlyAdmissions(c0.log, c.log)
    ensures var (c', r) := Validate(c, jobId, subs[k].req, subs[k].timeout);
      && OnlyAdmissions(c0.log, c'.log)
      && (r.Ok? ==> InsertedSoFar(c', jobId, subs, k + 1))
  {
    hide *;
    var sub, id := subs[k], TaskIdOf(jobId, subs[k].req.name);
    ValidateNewIs(c, jobId, sub);
    if sub.timeout.Some? {
      var (c', r) := ValidateRest(c, id, NewHandler(jobId, sub.req, sub.timeout.value), jobId, sub.req);
      ValidateInserts(c, id, jobId, sub.req, sub.timeout.value);
      ValidateLogs(c, id, jobId, sub.req, sub.timeout.value);
      NewHandlerIsUnplaced(jobId, sub.req, sub.timeout.value);
      ValidateTouches(c, id, NewHandler(jobId, sub.req, sub.timeout.value), jobId, sub.req);
      var more :| c'.log == c.log + more && |more| <= 1 && forall e | e in more :: e.Inserted?;
      AdmissionsAdd(c0.log, c.log, more);
      if r.Ok? { OneMoreInserted(c, c', jobId, subs, k); }
    }
  }

  lemma NextIsNew(c0: Core, c: Core, jobId: string, subs: seq<Submission>, k: nat, ready: seq<string>)
    requires FreshJob(c0, jobId) && DistinctNames(subs) && k < |subs|
    requires Partial(c0, c, jobId, Ids(jobId, subs[..k]), ready)
    ensures TaskIdOf(jobId, subs[k].req.name) !in c.tasks
  {
    hide Valid, Pool, Ids, QueuesReady, Others;
    NewName(jobId, subs, k);
    assert TaskIdOf(jobId, subs[k].req.name) !in c0.tasks;
  }

  lemma {:induction false} AcceptAllInserts(c0: Core, c: Core, jobId: string, subs: seq<Submission>, k: nat, ready: seq<string>)
    requires FreshJob(c0, jobId) && DistinctNames(subs) && k <= |subs|
    requires Partial(c0, c, jobId, Ids(jobId, subs[..k]), ready)
    requires InsertedSoFar(c, jobId, subs, k) && OnlyAdmissions(c0.log, c.log)
    ensures var (c', r) := AcceptAll(c, jobId, subs[k..], ready);
      r.Some? ==> InsertedSoFar(c', jobId, subs, |subs|) && OnlyAdmissions(c0.log, c'.log)
    decreases |subs| - k
  {
    hide Partial, FreshJob, DistinctNames, Validate, RemoveJob, Ids, InsertedSoFar, OnlyAdmissions, Acceptable, TaskIdOf;
    if k < |subs| {
      var sub, id := subs[k], TaskIdOf(jobId, subs[k].req.name);
      assert subs[k..][0] == sub && subs[k..][1..] == subs[k + 1..];
      NextIsNew(c0, c, jobId, subs, k, ready);
      NewName(jobId, subs, k);
      IdsStep(jobId, subs, k);
      ValidateOne(c0, c, jobId, sub, Ids(jobId, subs[..k]), ready);
      ValidateInsertsNext(c0, c, jobId, subs, k);
      var (c1, r1) := Validate(c, jobId, sub.req, sub.timeout);
      if r1.Ok? {
        AcceptAllInserts(c0, c1, jobId, subs, k + 1, if r1.value then ready + [id] else ready);
      }
    }
  }

  lemma {:induction false} PushLog(c0: Core, c: Core, ids: seq<string>)
    requires OnlyAdmissions(c0.log, c.log)
    ensures OnlyAdmissions(c0.log, Push(c, ids).log)
    decreases |ids|
  {
    hide OnlyAdmissions;
    if ids != [] {
      var n := |ids| - 1;
      PushLog(c0, c, ids[..n]);
      AdmissionsAdd(c0.log, Push(c, ids[..n]).log, [Enqueued(ids[n], Initial)]);
    }
  }

  /** An accepted job is in the map exactly as it was requested, and no recruitment failed. */
  lemma AcceptedAsRequested(c: Core, jobId: string, subs: seq<Submission>)
    requires FreshJob(c, jobId) && DistinctNames(subs) && Valid(c.pool) && AllAcceptable(c.pool, jobId, subs)
    ensures var c' := AcceptJob(c, jobId, subs).0;
      InsertedSoFar(c', jobId, subs, |subs|) && OnlyAdmissions(c.log, c'.log)
  {
    AcceptJobIsAllOrNothing(c, jobId, subs);
    PartialAtStart(c, jobId);
    assert subs[..0] == [] && subs[0..] == subs && Ids(jobId, subs[..0]) == {};
    assert InsertedSoFar(c, jobId, subs, 0) && OnlyAdmissions(c.log, c.log);
    hide *;
    AcceptAllInserts(c, c, jobId, subs, 0, []);
    AcceptJobIs(c, jobId, subs);
    var (c1, r) := AcceptAll(c, jobId, subs, []);
    if r.Some? {
      PushedIds(c1, r.value);
      PushLog(c, c1, r.value);
      SameTasksInserted(c1, Push(c1, r.value), jobId, subs);
    }
  }

  lemma AcceptJobIs(c: Core, jobId: string, subs: seq<Submission>)
    ensures var (c1, r) := AcceptAll(c, jobId, subs, []);
      AcceptJob(c, jobId, subs) == if r.None? then (c1, false) else (Push(c1, r.value), true)
  {
  }

  lemma SameTasksInserted(c: Core, c': Core, jobId: string, subs: seq<Submission>)
    requires InsertedSoFar(c, jobId, subs, |subs|) && c'.tasks == c.tasks
    ensures InsertedSoFar(c', jobId, subs, |subs|)
  {
  }
}
