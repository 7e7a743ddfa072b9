/**
  accept_job in the middle of everything else: whatever happens between its steps, a job is inserted as
  far as it was validated, and once accept_job is through, whole or not at all.
 */
module AdmissionRuns {
  import opened Wrappers
  import opened Messages
  import opened Nodes
  import opened Orders
  import opened Scheduler
  import opened SchedulerInvariant
  import opened SchedulerSteps
  import opened SchedulerRuns
  import opened SchedulerAdmission
  import opened AcceptedJobs
  import opened AcceptedTasks
  import DispatchedTasks
  import NodesProperties

  function JobTasks(tasks: map<string, Handler>, jobId: string): set<string> {
    set id | id in tasks && tasks[id].jobId == jobId
  }

  /** The task does what was submitted; its flags, status, receiver and output are what they have become. */
  ghost predicate Assigned(h: Handler, jobId: string, sub: Submission) {
    && sub.timeout.Some?
    && h.jobId == jobId
    && h.dependencies.Keys == NeedIds(jobId, sub.req.needs)
    && h.capabilityFilters == sub.req.capabilityFilters
    && h.resourceRecruitment == sub.req.resourceRecruitment
    && h.timeout == sub.timeout.value
    && h.input == sub.req.data
  }

  ghost predicate AssignedAt(tasks: map<string, Handler>, jobId: string, sub: Submission) {
    TaskIdOf(jobId, sub.req.name) in tasks && Assigned(tasks[TaskIdOf(jobId, sub.req.name)], jobId, sub)
  }

  /** The job's tasks are those of its first `k` requests, as requested, and no others. */
  ghost predicate Holds(tasks: map<string, Handler>, jobId: string, subs: seq<Submission>, k: nat) {
    && k <= |subs|
    && JobTasks(tasks, jobId) == Ids(jobId, subs[..k])
    && forall i | 0 <= i < k :: AssignedAt(tasks, jobId, subs[i])
  }

  /** While accept_job is at work, exactly what it has validated is there; afterwards all or nothing is. */
  ghost predicate AllOrNothing(s: System, jobId: string, subs: seq<Submission>) {
    if jobId in s.accepting then
      var rest := s.accepting[jobId].rest;
      |rest| <= |subs| && rest == subs[|subs| - |rest|..] && Holds(s.core.tasks, jobId, subs, |subs| - |rest|)
    else
      Holds(s.core.tasks, jobId, subs, |subs|) || JobTasks(s.core.tasks, jobId) == {}
  }

  // ---------- Steps that are not the job's own ----------

  /** The job has the same tasks with the same assignments. */
  ghost predicate SameJob(tasks: map<string, Handler>, tasks': map<string, Handler>, jobId: string) {
    && (forall id | id in tasks && tasks[id].jobId == jobId :: id in tasks' && SameAssignment(tasks[id], tasks'[id]))
    && (forall id | id in tasks' && tasks'[id].jobId == jobId :: id in tasks && tasks[id].jobId == jobId)
  }

  lemma SameJobItself(tasks: map<string, Handler>, jobId: string)
    ensures SameJob(tasks, tasks, jobId)
  {
  }

  lemma SameKeysSameJob(tasks: map<string, Handler>, tasks': map<string, Handler>, jobId: string)
    requires tasks'.Keys <= tasks.Keys
    requires forall id | id in tasks :: id in tasks' && SameAssignment(tasks[id], tasks'[id])
    ensures SameJob(tasks, tasks', jobId)
  {
  }

  lemma SameJobHolds(tasks: map<string, Handler>, tasks': map<string, Handler>, jobId: string, subs: seq<Submission>, k: nat)
    requires SameJob(tasks, tasks', jobId)
    ensures JobTasks(tasks', jobId) == JobTasks(tasks, jobId)
    ensures Holds(tasks, jobId, subs, k) ==> Holds(tasks', jobId, subs, k)
  {
    hide TaskIdOf, Ids;
    if Holds(tasks, jobId, subs, k) {
      forall i | 0 <= i < k
        ensures AssignedAt(tasks', jobId, subs[i])
      {
        assert AssignedAt(tasks, jobId, subs[i]);
      }
    }
  }

  lemma InsertsOneKey(c: Core, id: string, jobId: string, req: TaskRequest, timeout: nat)
    ensures ValidateRest(c, id, NewHandler(jobId, req, timeout), jobId, req).0.tasks.Keys <= c.tasks.Keys + {id}
  {
    hide Find, Request, MissingNeed, NeedIds, TaskIdOf;
  }

  lemma OthersSameJob(tasks: map<string, Handler>, other: string, jobId: string)
    requires other != jobId
    ensures SameJob(tasks, Others(tasks, other), jobId)
  {
  }

  lemma InsertedElsewhere(tasks: map<string, Handler>, tasks': map<string, Handler>, id: string, jobId: string)
    requires tasks'.Keys <= tasks.Keys + {id} && id in tasks' && tasks'[id].jobId != jobId && id !in tasks
    requires forall i | i in tasks :: i in tasks' && tasks'[i] == tasks[i]
    ensures SameJob(tasks, tasks', jobId)
  {
  }

  lemma OtherJobAccepts(s: System, other: string, jobId: string)
    requires Within(s.core, s.accepting, s.jobs, "", {}, None) && other != jobId
    ensures SameJob(s.core.tasks, AcceptStep(s, other).core.tasks, jobId)
    ensures jobId in AcceptStep(s, other).accepting <==> jobId in s.accepting
    ensures jobId in s.accepting ==> AcceptStep(s, other).accepting[jobId] == s.accepting[jobId]
  {
    hide *;
    AcceptNothing(s, other);
    SameJobItself(s.core.tasks, jobId);
    if other in s.accepting {
      if s.accepting[other].rest == [] {
        PushedIds(s.core, s.accepting[other].ready);
      } else {
        OtherJobTakesNext(s, other, jobId);
      }
    }
  }

  lemma OtherJobTakesNext(s: System, other: string, jobId: string)
    requires Within(s.core, s.accepting, s.jobs, "", {}, None) && other != jobId
    requires other in s.accepting && s.accepting[other].rest != []
    ensures SameJob(s.core.tasks, AcceptStep(s, other).core.tasks, jobId)
    ensures jobId in AcceptStep(s, other).accepting <==> jobId in s.accepting
    ensures jobId in s.accepting ==> AcceptStep(s, other).accepting[jobId] == s.accepting[jobId]
  {
    hide *;
    var c, sub := s.core, s.accepting[other].rest[0];
    var id := TaskIdOf(other, sub.req.name);
    Unfold(c, s.accepting, s.jobs, "", {}, None);
    StampedTasks(c.tasks, c.stamp, c.log);
    NextIsUnclaimed(c.tasks, c.stamp, other, s.accepting, s.jobs);
    AcceptStepIs(s, other);
    RemovedIs(c, other);
    OthersSameJob(c.tasks, other, jobId);
    if sub.timeout.Some? {
      var h := NewHandler(other, sub.req, sub.timeout.value);
      var (c', r) := ValidateRest(c, id, h, other, sub.req);
      NewHandlerIsUnplaced(other, sub.req, sub.timeout.value);
      ValidateTouches(c, id, h, other, sub.req);
      ValidateInserts(c, id, other, sub.req, sub.timeout.value);
      InsertsOneKey(c, id, other, sub.req, sub.timeout.value);
      if r.Ok? {
        RequestedJob(c'.tasks[id], other, sub.req, sub.timeout.value);
        InsertedElsewhere(c.tasks, c'.tasks, id, jobId);
      }
    }
  }

  lemma RequestedJob(h: Handler, jobId: string, req: TaskRequest, timeout: nat)
    requires AsRequested(h, jobId, req, timeout)
    ensures h.jobId == jobId && Assigned(h, jobId, Submission(req, Some(timeout)))
  {
  }

  lemma ReportAddsNothing(c: Core, task: Task, order: seq<string>)
    requires IsOrder(order, c.tasks.Keys)
    ensures Update(c, task, order).tasks.Keys <= c.tasks.Keys
  {
    hide Update, IsOrder;
    forall id | id in Update(c, task, order).tasks
      ensures id in c.tasks
    {
      if id !in c.tasks { DispatchedTasks.GoneStaysGone(c, task, order, id); }
    }
  }

  lemma DeliverAddsNothing(c: Core, t: Ticket)
    ensures Deliver(c, t).tasks.Keys <= c.tasks.Keys
  {
  }

  lemma RetryAddsNothing(c: Core, key: string)
    ensures Retry(c, key).0.tasks.Keys <= c.tasks.Keys
  {
    if key in c.tasks {
      RetryIs(c, key);
      hide Retry;
    }
  }

  lemma OtherStepsKeepTheJob(s: System, action: Action, jobId: string)
    requires Inv(s) && Allowed(s, action) && jobId in s.jobs && action != Accept(jobId)
    ensures var s' := Step(s, action);
      && SameJob(s.core.tasks, s'.core.tasks, jobId) && jobId in s'.jobs
      && (jobId in s'.accepting <==> jobId in s.accepting)
      && (jobId in s.accepting ==> s'.accepting[jobId] == s.accepting[jobId])
  {
    InvIs(s);
    var c := s.core;
    hide Within, AcceptStep, Register, Deliver, Next, Update, Retry, IsOrder, TaskIdOf, Inv, SameJob, SameAssignment, QuietFor;
    SameJobItself(c.tasks, jobId);
    match action
    case Submit(other, subs) =>
    case Accept(other) =>
      OtherJobAccepts(s, other, jobId);
      JobsStay(s, other);
    case Join(node) =>
    case Receive(t) =>
      DeliverAddsNothing(c, t);
      forall id | id in c.tasks ensures id in Deliver(c, t).tasks && SameAssignment(c.tasks[id], Deliver(c, t).tasks[id]) {
        DeliverKeepsAssignment(c, t, id);
      }
      SameKeysSameJob(c.tasks, Deliver(c, t).tasks, jobId);
    case Dispatch => NextIs(c);
    case Interrupt =>
    case Report(task, order) =>
      ReportAddsNothing(c, task, order);
      forall id | id in c.tasks ensures id in Update(c, task, order).tasks && SameAssignment(c.tasks[id], Update(c, task, order).tasks[id]) {
        ReportKeepsAssignment(c, action, id);
      }
      SameKeysSameJob(c.tasks, Update(c, task, order).tasks, jobId);
    case RetryTask(key) =>
      RetryAddsNothing(c, key);
      forall id | id in c.tasks ensures id in Retry(c, key).0.tasks && SameAssignment(c.tasks[id], Retry(c, key).0.tasks[id]) {
        RetryKeepsAssignment(c, key, id);
      }
      SameKeysSameJob(c.tasks, Retry(c, key).0.tasks, jobId);
  }

  lemma JobsStay(s: System, jobId: string)
    ensures AcceptStep(s, jobId).jobs == s.jobs
  {
    hide Validate, Push, RemoveJob;
  }

  // ---------- The job's own steps ----------

  lemma OneMoreHeld(tasks: map<string, Handler>, tasks': map<string, Handler>, jobId: string, subs: seq<Submission>, k: nat)
    requires Holds(tasks, jobId, subs, k) && k < |subs| && TaskIdOf(jobId, subs[k].req.name) !in tasks
    requires tasks'.Keys <= tasks.Keys + {TaskIdOf(jobId, subs[k].req.name)} && AssignedAt(tasks', jobId, subs[k])
    requires forall id | id in tasks :: id in tasks' && tasks'[id] == tasks[id]
    ensures Holds(tasks', jobId, subs, k + 1)
  {
    hide TaskIdOf, Ids;
    IdsStep(jobId, subs, k);
    assert JobTasks(tasks', jobId) == JobTasks(tasks, jobId) + {TaskIdOf(jobId, subs[k].req.name)};
    forall i | 0 <= i < k + 1
      ensures AssignedAt(tasks', jobId, subs[i])
    {
      if i < k { assert AssignedAt(tasks, jobId, subs[i]); }
    }
  }

  lemma NothingOfTheJob(tasks: map<string, Handler>, jobId: string)
    ensures JobTasks(Others(tasks, jobId), jobId) == {}
  {
  }

  /** The next request is inserted as requested, or nothing of the job is left. */
  lemma OwnNextStep(s: System, jobId: string, subs: seq<Submission>)
    requires Within(s.core, s.accepting, s.jobs, "", {}, None)
    requires jobId in s.accepting && s.accepting[jobId].rest != [] && AllOrNothing(s, jobId, subs)
    ensures AllOrNothing(AcceptStep(s, jobId), jobId, subs)
  {
    hide *;
    AllOrNothingIs(s, jobId, subs);
    AllOrNothingIs(AcceptStep(s, jobId), jobId, subs);
    var c, rest := s.core, s.accepting[jobId].rest;
    var k := |subs| - |rest|;
    var sub := rest[0];
    assert sub == subs[k] && rest[1..] == subs[k + 1..];
    var id := TaskIdOf(jobId, sub.req.name);
    Unfold(c, s.accepting, s.jobs, "", {}, None);
    StampedTasks(c.tasks, c.stamp, c.log);
    NextIsUnclaimed(c.tasks, c.stamp, jobId, s.accepting, s.jobs);
    AcceptStepIs(s, jobId);
    RemovedIs(c, jobId);
    NothingOfTheJob(c.tasks, jobId);
    if sub.timeout.Some? {
      var h := NewHandler(jobId, sub.req, sub.timeout.value);
      var (c', r) := ValidateRest(c, id, h, jobId, sub.req);
      NewHandlerIsUnplaced(jobId, sub.req, sub.timeout.value);
      ValidateTouches(c, id, h, jobId, sub.req);
      ValidateInserts(c, id, jobId, sub.req, sub.timeout.value);
      InsertsOneKey(c, id, jobId, sub.req, sub.timeout.value);
      if r.Ok? {
        RequestedJob(c'.tasks[id], jobId, sub.req, sub.timeout.value);
        assert Submission(sub.req, Some(sub.timeout.value)) == sub;
        AssignedAtIs(c'.tasks, jobId, sub);
        OneMoreHeld(c.tasks, c'.tasks, jobId, subs, k);
      }
    }
  }

  lemma AssignedAtIs(tasks: map<string, Handler>, jobId: string, sub: Submission)
    ensures AssignedAt(tasks, jobId, sub) <==>
      TaskIdOf(jobId, sub.req.name) in tasks && Assigned(tasks[TaskIdOf(jobId, sub.req.name)], jobId, sub)
  {
  }

  lemma AllOrNothingIs(s: System, jobId: string, subs: seq<Submission>)
    ensures AllOrNothing(s, jobId, subs) <==>
      if jobId in s.accepting then
        var rest := s.accepting[jobId].rest;
        |rest| <= |subs| && rest == subs[|subs| - |rest|..] && Holds(s.core.tasks, jobId, subs, |subs| - |rest|)
      else
        Holds(s.core.tasks, jobId, subs, |subs|) || JobTasks(s.core.tasks, jobId) == {}
  {
  }

  lemma OwnStep(s: System, jobId: string, subs: seq<Submission>)
    requires Within(s.core, s.accepting, s.jobs, "", {}, None) && AllOrNothing(s, jobId, subs)
    ensures AllOrNothing(AcceptStep(s, jobId), jobId, subs)
  {
    hide *;
    AcceptNothing(s, jobId);
    AllOrNothingIs(s, jobId, subs);
    AllOrNothingIs(AcceptStep(s, jobId), jobId, subs);
    if jobId in s.accepting {
      if s.accepting[jobId].rest == [] {
        PushedIds(s.core, s.accepting[jobId].ready);
      } else {
        OwnNextStep(s, jobId, subs);
      }
    }
  }

  // ---------- Runs ----------

  lemma StepKeepsAllOrNothing(s: System, action: Action, jobId: string, subs: seq<Submission>)
    requires Inv(s) && Allowed(s, action) && jobId in s.jobs && AllOrNothing(s, jobId, subs)
    ensures jobId in Step(s, action).jobs && AllOrNothing(Step(s, action), jobId, subs)
  {
    hide *;
    var s' := Step(s, action);
    InvIs(s);
    if action == Accept(jobId) {
      OwnStep(s, jobId, subs);
      JobsStay(s, jobId);
      AcceptIs(s, jobId);
    } else {
      OtherStepsKeepTheJob(s, action, jobId);
      AllOrNothingIs(s, jobId, subs);
      AllOrNothingIs(s', jobId, subs);
      SameJobHolds(s.core.tasks, s'.core.tasks, jobId, subs, |subs|);
      if jobId in s.accepting {
        SameJobHolds(s.core.tasks, s'.core.tasks, jobId, subs, |subs| - |s.accepting[jobId].rest|);
      }
    }
  }

  lemma AcceptIs(s: System, jobId: string)
    ensures Step(s, Accept(jobId)) == AcceptStep(s, jobId)
  {
    hide AcceptStep;
  }

  lemma NewlySubmitted(s: System, jobId: string, subs: seq<Submission>)
    requires Inv(s) && Allowed(s, Submit(jobId, subs))
    ensures var s' := Step(s, Submit(jobId, subs));
      jobId in s'.jobs && AllOrNothing(s', jobId, subs)
  {
    hide *;
    SubmitAllowed(s, jobId, subs);
    NewJobIsFresh(s, jobId);
    SubmitIs(s, jobId, subs);
    NothingHeldYet(s.core, jobId, subs);
    AllOrNothingIs(Step(s, Submit(jobId, subs)), jobId, subs);
    assert subs == subs[0..];
  }

  lemma SubmitIs(s: System, jobId: string, subs: seq<Submission>)
    ensures Step(s, Submit(jobId, subs)) == s.(accepting := s.accepting[jobId := Accepting(subs, [])], jobs := s.jobs + {jobId})
  {
  }

  lemma NothingHeldYet(c: Core, jobId: string, subs: seq<Submission>)
    requires FreshJob(c, jobId)
    ensures Holds(c.tasks, jobId, subs, 0)
  {
    hide TaskIdOf, NoDash;
    FreshJobIs(c, jobId);
    hide FreshJob;
    assert JobTasks(c.tasks, jobId) == {} && Ids(jobId, subs[..0]) == {};
  }

  lemma SubmitAllowed(s: System, jobId: string, subs: seq<Submission>)
    requires Allowed(s, Submit(jobId, subs))
    ensures jobId !in s.jobs && NoDash(jobId)
  {
  }

  lemma FreshJobIs(c: Core, jobId: string)
    requires FreshJob(c, jobId)
    ensures forall id | id in c.tasks :: c.tasks[id].jobId != jobId
  {
  }

  /**
    In every state of every run after a job was submitted, with any steps of other jobs, nodes, workers
    and its own tasks in between: as long as accept_job is at work, the map has exactly the tasks of the
    requests it has validated; once it is through, the tasks of all requests or none.
   */
  lemma {:induction false} AcceptedWholeOrNotAtAll(run: seq<Action>, jobId: string, subs: seq<Submission>, more: seq<Action>)
    requires IsRun(run + [Submit(jobId, subs)] + more)
    ensures var s := AfterRun(run + [Submit(jobId, subs)] + more);
      jobId in s.jobs && AllOrNothing(s, jobId, subs)
    decreases |more|
  {
    hide *;
    var run1 := run + [Submit(jobId, subs)];
    ExtendedRun(run1, more);
    if more == [] {
      assert run1 + more == run1;
      ExtendedRun(run, [Submit(jobId, subs)]);
      assert [Submit(jobId, subs)][..0] == [] && run + [] == run;
      RunKeeps(run);
      NewlySubmitted(AfterRun(run), jobId, subs);
    } else {
      var n := |more| - 1;
      AcceptedWholeOrNotAtAll(run, jobId, subs, more[..n]);
      RunKeeps(run1 + more[..n]);
      StepKeepsAllOrNothing(AfterRun(run1 + more[..n]), more[n], jobId, subs);
    }
  }

  /** The decision is final: once accept_job is through with a job, the job's tasks are the same ones for ever. */
  lemma {:induction false} DecidedForGood(run: seq<Action>, jobId: string, more: seq<Action>)
    requires IsRun(run + more) && jobId in AfterRun(run).jobs && jobId !in AfterRun(run).accepting
    ensures var s, s' := AfterRun(run), AfterRun(run + more);
      && jobId in s'.jobs && jobId !in s'.accepting
      && JobTasks(s'.core.tasks, jobId) == JobTasks(s.core.tasks, jobId)
    decreases |more|
  {
    hide *;
    ExtendedRun(run, more);
    if more != [] {
      var n := |more| - 1;
      var s := AfterRun(run + more[..n]);
      DecidedForGood(run, jobId, more[..n]);
      RunKeeps(run + more[..n]);
      if more[n] == Accept(jobId) {
        AcceptNothing(s, jobId);
        AcceptIs(s, jobId);
      } else {
        OtherStepsKeepTheJob(s, more[n], jobId);
        SameJobHolds(s.core.tasks, Step(s, more[n]).core.tasks, jobId, [], 0);
      }
    }
  }

  // ---------- When a request is taken ----------

  lemma NeedsAmongJobTasks(tasks: map<string, Handler>, jobId: string, needs: seq<string>)
    requires WellKeyed(tasks) && NoDash(jobId)
    ensures NeedIds(jobId, needs) <= tasks.Keys <==> NeedIds(jobId, needs) <= JobTasks(tasks, jobId)
  {
    hide NeedIds, WellKeyed, NoDash;
    if NeedIds(jobId, needs) <= tasks.Keys {
      forall d | d in NeedIds(jobId, needs)
        ensures d in JobTasks(tasks, jobId)
      {
        NeedsOfOneJob(tasks, jobId, needs, d);
      }
    }
  }

  /**
    In any run: accept_job takes its next request exactly when its timeout parses, its needs are among the
    tasks that the job already has, and a node can be found now if the request needs none and may not wait.
   */
  lemma NextIsTakenIff(run: seq<Action>, jobId: string)
    requires IsRun(run) && jobId in AfterRun(run).accepting && AfterRun(run).accepting[jobId].rest != []
    ensures var s := AfterRun(run);
      jobId in AcceptStep(s, jobId).accepting <==>
        Acceptable(s.core.pool, jobId, s.accepting[jobId].rest[0], JobTasks(s.core.tasks, jobId))
  {
    hide *;
    RunKeeps(run);
    var s := AfterRun(run);
    InvIs(s);
    var c, sub := s.core, s.accepting[jobId].rest[0];
    var id := TaskIdOf(jobId, sub.req.name);
    Unfold(c, s.accepting, s.jobs, "", {}, None);
    StampedTasks(c.tasks, c.stamp, c.log);
    NextIsUnclaimed(c.tasks, c.stamp, jobId, s.accepting, s.jobs);
    AcceptStepIs(s, jobId);
    AcceptableIs(c.pool, jobId, sub, JobTasks(c.tasks, jobId));
    NeedsAmongJobTasks(c.tasks, jobId, sub.req.needs);
    NoMissingNeed(c.tasks, jobId, sub.req.needs);
    if sub.timeout.Some? {
      var h := NewHandler(jobId, sub.req, sub.timeout.value);
      NewHandlerFacts(jobId, sub.req, sub.timeout.value);
      if MissingNeed(c.tasks, jobId, sub.req.needs).Some? {
        MissingIsRefused(c, id, h, jobId, sub.req);
      } else {
        InsertionIs(c, id, h, jobId, sub.req);
        NodesProperties.FindIsTotal(c.pool, sub.req.capabilityFilters.endpoint);
      }
    }
  }
}
