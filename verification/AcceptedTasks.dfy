/**
  What any step of a run leaves of a task whose job has been accepted: the task stays, keeps what it
  was asked to do, completes only by a DONE report, and, if it needs nothing, keeps the output it last
  reported.
 */
module AcceptedTasks {
  import opened Wrappers
  import opened Messages
  import opened Nodes
  import opened Orders
  import opened Scheduler
  import opened SchedulerInvariant
  import opened SchedulerSteps
  import opened SchedulerRuns
  import opened SchedulerProperties
  import opened SchedulerAdmission
  import opened AcceptedJobs
  import opened DispatchedTasks
  import opened RetryLimit

  /** The task is there and nobody is still accepting its job. */
  ghost predicate IsAccepted(s: System, id: string) {
    id in s.core.tasks && s.core.tasks[id].jobId !in s.accepting && s.core.tasks[id].jobId in s.jobs
  }

  /** Flags, status, receiver and output may change, the assignment does not. */
  ghost predicate SameAssignment(h: Handler, h': Handler) {
    && h'.jobId == h.jobId
    && h'.dependencies.Keys == h.dependencies.Keys
    && h'.capabilityFilters == h.capabilityFilters
    && h'.resourceRecruitment == h.resourceRecruitment
    && h'.timeout == h.timeout
    && h'.input == h.input
  }

  /** No completion, and no failed recruitment of a task that may wait for its node. */
  ghost predicate QuietFor(log: seq<Event>, log': seq<Event>, h: Handler, id: string) {
    && log <= log'
    && (forall i | |log| <= i < |log'| :: !log'[i].Completed?)
    && (h.resourceRecruitment.recruitmentPolicy != FAIL ==> forall i | |log| <= i < |log'| :: log'[i] != RecruitFailed(id))
  }

  function ReportKey(action: Action): string
    requires action.Report?
  {
    TaskIdOf(action.task.jobId, action.task.name)
  }

  /** The task that an action reports as DONE. */
  function DoneBy(action: Action): set<string> {
    if action.Report? && action.task.status == DONE then {ReportKey(action)} else {}
  }

  /** The log once a DONE report of a known task is noted. */
  function Noted(c: Core, action: Action): seq<Event> {
    if action.Report? && action.task.status == DONE && ReportKey(action) in c.tasks then c.log + [Completed(ReportKey(action))] else c.log
  }

  lemma SameAssignmentFurther(h: Handler, h': Handler, h'': Handler)
    requires SameAssignment(h, h') && SameAssignment(h', h'')
    ensures SameAssignment(h, h'')
  {
  }

  lemma QuietFurther(log: seq<Event>, log': seq<Event>, log'': seq<Event>, h: Handler, h': Handler, id: string)
    requires QuietFor(log, log', h, id) && QuietFor(log', log'', h', id) && h'.resourceRecruitment == h.resourceRecruitment
    ensures QuietFor(log, log'', h, id)
  {
  }

  lemma QuietItself(log: seq<Event>, h: Handler, id: string)
    ensures QuietFor(log, log, h, id)
  {
  }

  lemma QuietEnqueue(log: seq<Event>, e: Event, h: Handler, id: string)
    requires !e.Completed? && !e.RecruitFailed?
    ensures QuietFor(log, log + [e], h, id)
  {
  }

  lemma QuietAdmissions(log: seq<Event>, log': seq<Event>, h: Handler, id: string)
    requires OnlyAdmissions(log, log')
    ensures QuietFor(log, log', h, id)
  {
  }

  // ---------- Reports ----------

  lemma PlaceLeaves(c: Core, key: string, v: string, h: Handler, id: string)
    requires v in c.tasks && id in c.tasks && key in c.tasks[v].dependencies && h == Cleared(c.tasks[v], key)
    ensures var c' := PlaceDone(c, v, h);
      && id in c'.tasks && SameAssignment(c.tasks[id], c'.tasks[id]) && QuietFor(c.log, c'.log, c.tasks[id], id)
  {
    hide PlaceDone, Find, Request, TaskIdOf;
    PlaceIs(c, v, h);
    assert h.dependencies.Keys == c.tasks[v].dependencies.Keys;
  }

  lemma VisitKeepsAssignment(c: Core, key: string, v: string, id: string)
    requires id in c.tasks
    ensures var c' := DoneVisit(c, key, v);
      && id in c'.tasks && SameAssignment(c.tasks[id], c'.tasks[id]) && QuietFor(c.log, c'.log, c.tasks[id], id)
  {
    hide PlaceDone, DoneVisit;
    QuietItself(c.log, c.tasks[id], id);
    if v in c.tasks {
      VisitIs(c, key, v);
      if key in c.tasks[v].dependencies && !c.tasks[v].dependencies[key] {
        var h := Cleared(c.tasks[v], key);
        assert h.dependencies.Keys == c.tasks[v].dependencies.Keys;
        PlaceLeaves(c, key, v, h, id);
      }
    } else {
      NoVisit(c, key, v);
    }
  }

  lemma NoVisit(c: Core, key: string, v: string)
    requires v !in c.tasks
    ensures DoneVisit(c, key, v) == c
  {
  }

  lemma {:induction false} SweepKeepsAssignment(c: Core, key: string, order: seq<string>, id: string)
    requires id in c.tasks
    ensures var c' := DoneSweep(c, key, order);
      && id in c'.tasks && SameAssignment(c.tasks[id], c'.tasks[id]) && QuietFor(c.log, c'.log, c.tasks[id], id)
    decreases |order|
  {
    hide DoneVisit, QuietFor;
    if order == [] {
      QuietItself(c.log, c.tasks[id], id);
    } else {
      var n := |order| - 1;
      var mid := DoneSweep(c, key, order[..n]);
      var last := DoneVisit(mid, key, order[n]);
      SweepKeepsAssignment(c, key, order[..n], id);
      VisitKeepsAssignment(mid, key, order[n], id);
      QuietFurther(c.log, mid.log, last.log, c.tasks[id], mid.tasks[id], id);
      SameAssignmentFurther(c.tasks[id], mid.tasks[id], last.tasks[id]);
    }
  }

  lemma DoneIsSweep(c: Core, key: string, order: seq<string>)
    requires key in c.tasks && c.tasks[key].task.status == DONE
    ensures Done(c, key, order).0 == DoneSweep(c.(log := c.log + [Completed(key)]), key, order)
  {
  }

  lemma RetryKeepsAssignment(c: Core, key: string, id: string)
    requires id in c.tasks
    ensures var c' := Retry(c, key).0;
      && id in c'.tasks && SameAssignment(c.tasks[id], c'.tasks[id]) && QuietFor(c.log, c'.log, c.tasks[id], id)
  {
    hide QuietFor, SameAssignment, Retry, RetriedHandler;
    QuietItself(c.log, c.tasks[id], id);
    QuietEnqueue(c.log, Enqueued(key, Retried), c.tasks[id], id);
    SameAsItself(c.tasks[id]);
    if key in c.tasks {
      RetryIs(c, key);
      RetriedAssignment(c.tasks[key]);
    } else {
      NothingToRetry(c, key);
    }
  }

  lemma SameAsItself(h: Handler)
    ensures SameAssignment(h, h)
  {
  }

  lemma RetriedAssignment(h: Handler)
    ensures SameAssignment(h, RetriedHandler(h))
  {
  }

  lemma NothingToRetry(c: Core, key: string)
    requires key !in c.tasks
    ensures Retry(c, key).0 == c
  {
  }

  lemma FailKeepsAssignment(c: Core, key: string, id: string)
    requires id in c.tasks
    ensures var c' := Fail(c, key).0;
      id in c'.tasks && SameAssignment(c.tasks[id], c'.tasks[id]) && c'.log == c.log
  {
  }

  lemma ReportKeepsAssignment(c: Core, action: Action, id: string)
    requires action.Report? && id in c.tasks
    ensures var c' := Update(c, action.task, action.order);
      && id in c'.tasks && SameAssignment(c.tasks[id], c'.tasks[id]) && QuietFor(Noted(c, action), c'.log, c.tasks[id], id)
  {
    hide Retry, Fail, Done, Update, DoneSweep, TaskIdOf, QuietFor;
    var task, order := action.task, action.order;
    var key := ReportKey(action);
    UpdateIs(c, task, order);
    QuietItself(c.log, c.tasks[id], id);
    if key in c.tasks {
      var c1 := c.(tasks := c.tasks[key := c.tasks[key].(task := task)]);
      assert SameAssignment(c.tasks[id], c1.tasks[id]);
      match task.status
      case RETRY => RetryKeepsAssignment(c1, key, id); QuietAs(c1.log, Retry(c1, key).0.log, c1.tasks[id], c.tasks[id], id);
      case FAILED => FailKeepsAssignment(c1, key, id);
      case DONE =>
        var c2 := c1.(log := c1.log + [Completed(key)]);
        DoneIsSweep(c1, key, order);
        SweepKeepsAssignment(c2, key, order, id);
        QuietAs(c2.log, DoneSweep(c2, key, order).log, c1.tasks[id], c.tasks[id], id);
      case _ =>
    }
  }

  lemma QuietAs(log: seq<Event>, log': seq<Event>, h: Handler, h0: Handler, id: string)
    requires QuietFor(log, log', h, id) && h.resourceRecruitment == h0.resourceRecruitment
    ensures QuietFor(log, log', h0, id)
  {
  }

  // ---------- Any step ----------

  lemma AcceptStepAdmits(s: System, jobId: string)
    requires Within(s.core, s.accepting, s.jobs, "", {}, None)
    ensures OnlyAdmissions(s.core.log, AcceptStep(s, jobId).core.log)
    ensures AcceptStep(s, jobId).accepting.Keys <= s.accepting.Keys && AcceptStep(s, jobId).jobs == s.jobs
    ensures forall id | id in s.core.tasks && s.core.tasks[id].jobId !in s.accepting ::
      id in AcceptStep(s, jobId).core.tasks && AcceptStep(s, jobId).core.tasks[id] == s.core.tasks[id]
  {
    hide *;
    AcceptNothing(s, jobId);
    NoAdmissions(s.core.log);
    if jobId in s.accepting {
      if s.accepting[jobId].rest == [] {
        PushedIds(s.core, s.accepting[jobId].ready);
        PushLog(s.core, s.core, s.accepting[jobId].ready);
      } else {
        AcceptNextTouches(s, jobId);
        AcceptNextAdmits(s, jobId);
      }
    }
  }

  lemma NoAdmissions(log: seq<Event>)
    ensures OnlyAdmissions(log, log)
  {
  }

  lemma AcceptNextAdmits(s: System, jobId: string)
    requires Within(s.core, s.accepting, s.jobs, "", {}, None)
    requires jobId in s.accepting && s.accepting[jobId].rest != []
    ensures OnlyAdmissions(s.core.log, AcceptStep(s, jobId).core.log)
    ensures AcceptStep(s, jobId).accepting.Keys <= s.accepting.Keys && AcceptStep(s, jobId).jobs == s.jobs
  {
    hide *;
    var c, sub := s.core, s.accepting[jobId].rest[0];
    var id := TaskIdOf(jobId, sub.req.name);
    Unfold(c, s.accepting, s.jobs, "", {}, None);
    StampedTasks(c.tasks, c.stamp, c.log);
    NextIsUnclaimed(c.tasks, c.stamp, jobId, s.accepting, s.jobs);
    AcceptStepIs(s, jobId);
    RemovedLog(c, jobId);
    NoAdmissions(c.log);
    if sub.timeout.Some? {
      ValidateLogs(c, id, jobId, sub.req, sub.timeout.value);
      var c1 := ValidateRest(c, id, NewHandler(jobId, sub.req, sub.timeout.value), jobId, sub.req).0;
      RemovedLog(c1, jobId);
      var more :| c1.log == c.log + more && |more| <= 1 && forall e | e in more :: e.Inserted?;
      AdmissionsAdd(c.log, c.log, more);
    }
  }

  lemma RemovedLog(c: Core, jobId: string)
    ensures RemoveJob(c, jobId).log == c.log
  {
  }

  lemma DeliverKeepsAssignment(c: Core, t: Ticket, id: string)
    requires id in c.tasks
    ensures var c' := Deliver(c, t);
      && id in c'.tasks && SameAssignment(c.tasks[id], c'.tasks[id]) && QuietFor(c.log, c'.log, c.tasks[id], id)
      && c'.tasks[id].task.output == c.tasks[id].task.output
  {
  }

  lemma StepKeepsAssignment(s: System, action: Action, id: string)
    requires Inv(s) && Allowed(s, action) && IsAccepted(s, id)
    ensures var s' := Step(s, action);
      && IsAccepted(s', id)
      && SameAssignment(s.core.tasks[id], s'.core.tasks[id])
      && QuietFor(Noted(s.core, action), s'.core.log, s.core.tasks[id], id)
  {
    InvIs(s);
    var c := s.core;
    hide Within, AcceptStep, Register, Deliver, Next, Update, Retry, IsOrder, TaskIdOf, Inv, QuietFor, OnlyAdmissions;
    QuietItself(c.log, c.tasks[id], id);
    match action
    case Submit(jobId, subs) =>
    case Accept(jobId) =>
      AcceptStepAdmits(s, jobId);
      QuietAdmissions(c.log, AcceptStep(s, jobId).core.log, c.tasks[id], id);
    case Join(node) =>
    case Receive(t) => DeliverKeepsAssignment(c, t, id);
    case Dispatch =>
      NextIs(c);
      if c.queue != [] { QuietEnqueue(c.log, Dispatched(c.queue[0], c.queue[0] in c.tasks), c.tasks[id], id); }
    case Interrupt =>
      if c.queue != [] { QuietEnqueue(c.log, Lost(c.queue[0]), c.tasks[id], id); }
    case Report(task, order) => ReportKeepsAssignment(c, action, id);
    case RetryTask(key) => RetryKeepsAssignment(c, key, id);
  }

  // ---------- Outputs ----------

  /** The output of a task after an action, if nothing but reports sets outputs. */
  function OutputAfter(output: Option<Any>, action: Action, id: string): Option<Any> {
    if action.Report? && ReportKey(action) == id then action.task.output else output
  }

  lemma RetryKeepsOutput(c: Core, key: string, id: string)
    requires id in c.tasks && Uncounted(c.tasks)
    ensures id in Retry(c, key).0.tasks && Retry(c, key).0.tasks[id].task.output == c.tasks[id].task.output
  {
    if key in c.tasks {
      RetryIs(c, key);
      hide Retry;
    }
  }

  lemma FailKeepsOutput(c: Core, key: string, id: string)
    requires id in c.tasks
    ensures id in Fail(c, key).0.tasks && Fail(c, key).0.tasks[id].task.output == c.tasks[id].task.output
  {
  }

  lemma ReportSetsOutput(c: Core, action: Action, id: string)
    requires action.Report? && id in c.tasks && c.tasks[id].dependencies == map[] && Uncounted(c.tasks)
    ensures var c' := Update(c, action.task, action.order);
      id in c'.tasks && c'.tasks[id].task.output == OutputAfter(c.tasks[id].task.output, action, id)
  {
    hide Retry, Fail, Done, Update, DoneSweep, TaskIdOf;
    var task, order := action.task, action.order;
    var key := ReportKey(action);
    UpdateIs(c, task, order);
    if key in c.tasks {
      var c1 := c.(tasks := c.tasks[key := c.tasks[key].(task := task)]);
      match task.status
      case RETRY => RetryKeepsOutput(c1, key, id);
      case FAILED => FailKeepsOutput(c1, key, id);
      case DONE =>
        DoneIsSweep(c1, key, order);
        SweepLeaves(c1.(log := c1.log + [Completed(key)]), key, order, id);
      case _ =>
    }
  }

  lemma StepSetsOutput(s: System, action: Action, id: string)
    requires Inv(s) && Allowed(s, action) && IsAccepted(s, id)
    requires s.core.tasks[id].dependencies == map[] && Uncounted(s.core.tasks)
    ensures var s' := Step(s, action);
      id in s'.core.tasks && s'.core.tasks[id].task.output == OutputAfter(s.core.tasks[id].task.output, action, id)
  {
    InvIs(s);
    var c := s.core;
    hide Within, AcceptStep, Register, Deliver, Next, Update, Retry, IsOrder, TaskIdOf, Inv, OnlyAdmissions, Uncounted;
    match action
    case Submit(jobId, subs) =>
    case Accept(jobId) => AcceptStepAdmits(s, jobId);
    case Join(node) =>
    case Receive(t) => DeliverKeepsAssignment(c, t, id);
    case Dispatch => NextIs(c);
    case Interrupt =>
    case Report(task, order) => ReportSetsOutput(c, action, id);
    case RetryTask(key) => RetryKeepsOutput(c, key, id);
  }

  /** What a task reported last, or `initial` if it has not reported. */
  function LastOutput(more: seq<Action>, id: string, initial: Option<Any>): Option<Any>
    decreases |more|
  {
    if more == [] then initial else OutputAfter(LastOutput(more[..|more| - 1], id, initial), more[|more| - 1], id)
  }

  lemma ExtendedRun(run: seq<Action>, more: seq<Action>)
    requires IsRun(run + more)
    ensures more == [] ==> run + more == run
    ensures more != [] ==>
      var n := |more| - 1;
      && IsRun(run + more[..n])
      && Allowed(AfterRun(run + more[..n]), more[n])
      && AfterRun(run + more) == Step(AfterRun(run + more[..n]), more[n])
  {
    hide Step, Allowed;
    if more != [] {
      var n := |more| - 1;
      assert (run + more)[..|run + more| - 1] == run + more[..n];
    }
  }

  /**
    The output of a task that needs nothing is the one it reported last, whatever else has happened
    since its job was accepted.
   */
  lemma {:induction false} OutputIsTheLastReported(run: seq<Action>, more: seq<Action>, id: string)
    requires IsRun(run + more) && IsRun(run) && IsAccepted(AfterRun(run), id)
    requires AfterRun(run).core.tasks[id].dependencies == map[]
    ensures var s := AfterRun(run + more);
      && IsAccepted(s, id) && s.core.tasks[id].dependencies == map[]
      && s.core.tasks[id].task.output == LastOutput(more, id, AfterRun(run).core.tasks[id].task.output)
    decreases |more|
  {
    hide *;
    AcceptedIs(AfterRun(run), id);
    ExtendedRun(run, more);
    LastOutputIs(more, id, AfterRun(run).core.tasks[id].task.output);
    if more != [] {
      var n := |more| - 1;
      var s := AfterRun(run + more[..n]);
      OutputIsTheLastReported(run, more[..n], id);
      RunKeeps(run + more[..n]);
      NoRetryIsCounted(run + more[..n]);
      StepKeepsAssignment(s, more[n], id);
      AcceptedIs(s, id);
      AcceptedIs(Step(s, more[n]), id);
      StepSetsOutput(s, more[n], id);
      NoDependencies(s.core.tasks[id], Step(s, more[n]).core.tasks[id]);
    }
  }

  lemma LastOutputIs(more: seq<Action>, id: string, initial: Option<Any>)
    ensures LastOutput(more, id, initial) ==
      if more == [] then initial else OutputAfter(LastOutput(more[..|more| - 1], id, initial), more[|more| - 1], id)
  {
  }

  lemma AcceptedIs(s: System, id: string)
    requires IsAccepted(s, id)
    ensures id in s.core.tasks && s.core.tasks[id].jobId !in s.accepting
  {
  }

  lemma NoDependencies(h: Handler, h': Handler)
    requires SameAssignment(h, h') && h.dependencies == map[]
    ensures h'.dependencies == map[]
  {
  }
}
