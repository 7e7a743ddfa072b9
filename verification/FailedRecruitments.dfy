/**
  What a recruitment that fails leaves to be seen: the task is marked, its error can be read back, and
  nobody waits for a node on its behalf.
 */
module FailedRecruitments {
  import opened Wrappers
  import opened Messages
  import opened Nodes
  import opened Orders
  import opened Scheduler
  import opened SchedulerInvariant
  import opened SchedulerSteps
  import opened SchedulerRuns
  import opened SchedulerProperties
  import opened DispatchedTasks
  import opened AcceptedJobs
  import opened AcceptedTasks
  import Codec

  /** Marked FAILED, with the error message, and without a request. */
  ghost predicate ShowsFailure(h: Handler) {
    && h.task.status == FAILED
    && h.nodeRequest.None?
    && Codec.SaysError(h.task.output, "Node not found: " + ("No nodes found for task: " + h.task.name))
  }

  /** The second log adds the failure of this recruitment. */
  ghost predicate FailsHere(log: seq<Event>, log': seq<Event>, id: string) {
    exists i | |log| <= i < |log'| :: log'[i] == RecruitFailed(id)
  }

  lemma PlaceFails(c: Core, v: string, h: Handler, id: string)
    requires v in c.tasks && FailsHere(c.log, PlaceDone(c, v, h).log, id)
    ensures id == v && v in PlaceDone(c, v, h).tasks && ShowsFailure(PlaceDone(c, v, h).tasks[v])
  {
    Codec.ErrorOutputSays("Node not found: " + ("No nodes found for task: " + h.task.name));
    hide Find, Request, TaskIdOf, Codec.ErrorOutput, Codec.SaysError;
    var log, log' := c.log, PlaceDone(c, v, h).log;
    var i :| |log| <= i < |log'| && log'[i] == RecruitFailed(id);
    assert |log'| <= |log| + 1;
    assert log'[|log|] == RecruitFailed(id);
  }

  lemma ClearedFlag(h: Handler, key: string)
    requires key in h.dependencies
    ensures Cleared(h, key).dependencies[key]
  {
  }

  lemma VisitFails(c: Core, key: string, v: string, id: string)
    requires FailsHere(c.log, DoneVisit(c, key, v).log, id)
    ensures var c' := DoneVisit(c, key, v);
      id in c'.tasks && ShowsFailure(c'.tasks[id]) && key in c'.tasks[id].dependencies && c'.tasks[id].dependencies[key]
  {
    hide PlaceDone, DoneVisit, ShowsFailure;
    if v in c.tasks {
      VisitIs(c, key, v);
      var h := Cleared(c.tasks[v], key);
      if key in c.tasks[v].dependencies && !c.tasks[v].dependencies[key] && h.inDegrees == 0 {
        PlaceFails(c, v, h, id);
        PlaceIs(c, v, h);
        ClearedFlag(c.tasks[v], key);
      }
    } else {
      NoVisit(c, key, v);
    }
  }

  lemma FailsInOneOf(log: seq<Event>, mid: seq<Event>, log': seq<Event>, id: string)
    requires FailsHere(log, log', id) && log <= mid <= log'
    ensures FailsHere(log, mid, id) || FailsHere(mid, log', id)
  {
    var i :| |log| <= i < |log'| && log'[i] == RecruitFailed(id);
    if i < |mid| { assert mid[i] == log'[i]; }
  }

  lemma FailsNowhere(log: seq<Event>, id: string)
    ensures !FailsHere(log, log, id)
  {
  }

  /** In the loop of a Done, whoever fails is left alone from then on. */
  lemma {:induction false} SweepFails(c: Core, key: string, order: seq<string>, id: string)
    requires FailsHere(c.log, DoneSweep(c, key, order).log, id)
    ensures var c' := DoneSweep(c, key, order);
      id in c'.tasks && ShowsFailure(c'.tasks[id]) && key in c'.tasks[id].dependencies && c'.tasks[id].dependencies[key]
    decreases |order|
  {
    hide DoneVisit, ShowsFailure, FailsHere, Grows;
    if order == [] {
      FailsNowhere(c.log, id);
    } else {
      var n := |order| - 1;
      var mid := DoneSweep(c, key, order[..n]);
      SweepGrows(c, key, order[..n]);
      VisitGrows(mid, key, order[n]);
      GrownLog(c, mid);
      GrownLog(mid, DoneVisit(mid, key, order[n]));
      FailsInOneOf(c.log, mid.log, DoneVisit(mid, key, order[n]).log, id);
      if FailsHere(mid.log, DoneVisit(mid, key, order[n]).log, id) {
        VisitFails(mid, key, order[n], id);
      } else {
        SweepFails(c, key, order[..n], id);
        VisitLeaves(mid, key, order[n], id);
      }
    }
  }

  lemma GrownLog(c: Core, c': Core)
    requires Grows(c, c')
    ensures c.log <= c'.log
  {
  }

  lemma RetryFailsNobody(c: Core, key: string, id: string)
    ensures !FailsHere(c.log, Retry(c, key).0.log, id)
  {
    FailsNowhere(c.log, id);
    if key in c.tasks {
      RetryIs(c, key);
      hide Retry;
    }
  }

  lemma AdmissionsFailNobody(log: seq<Event>, log': seq<Event>, id: string)
    requires OnlyAdmissions(log, log')
    ensures !FailsHere(log, log', id)
  {
  }

  lemma OneMoreEventFails(log: seq<Event>, e: Event, log': seq<Event>, id: string)
    requires !e.RecruitFailed? && FailsHere(log, log', id) && log + [e] <= log'
    ensures FailsHere(log + [e], log', id)
  {
    var i :| |log| <= i < |log'| && log'[i] == RecruitFailed(id);
    assert log'[|log|] == (log + [e])[|log|] == e;
  }

  lemma UpdateFails(c: Core, task: Task, order: seq<string>, id: string)
    requires FailsHere(c.log, Update(c, task, order).log, id)
    ensures var c' := Update(c, task, order); id in c'.tasks && ShowsFailure(c'.tasks[id])
  {
    hide Retry, Fail, Done, Update, DoneSweep, TaskIdOf, FailsHere, ShowsFailure, Grows;
    var key := TaskIdOf(task.jobId, task.name);
    UpdateIs(c, task, order);
    FailsNowhere(c.log, id);
    if key in c.tasks {
      var c1 := c.(tasks := c.tasks[key := c.tasks[key].(task := task)]);
      match task.status
      case RETRY => RetryFailsNobody(c1, key, id);
      case FAILED => FailLogs(c1, key);
      case DONE =>
        var c2 := c1.(log := c1.log + [Completed(key)]);
        DoneIsSweep(c1, key, order);
        SweepGrows(c2, key, order);
        GrownLog(c2, DoneSweep(c2, key, order));
        OneMoreEventFails(c1.log, Completed(key), DoneSweep(c2, key, order).log, id);
        SweepFails(c2, key, order, id);
      case _ =>
    }
  }

  lemma FailLogs(c: Core, key: string)
    ensures Fail(c, key).0.log == c.log
  {
    hide Reaches;
  }

  lemma EventFailsNobody(log: seq<Event>, e: Event, id: string)
    requires !e.RecruitFailed?
    ensures !FailsHere(log, log + [e], id)
  {
  }

  lemma DeliverFailsNobody(c: Core, t: Ticket, id: string)
    ensures !FailsHere(c.log, Deliver(c, t).log, id)
  {
  }

  /**
    Whenever, in a run, the recruitment for a task fails, the step leaves the task FAILED, with an error
    output that monitor_tasks can read and that names it, and nothing waits for a node on its behalf.
   */
  lemma FailedRecruitmentIsShown(run: seq<Action>, action: Action, id: string)
    requires IsRun(run) && Allowed(AfterRun(run), action)
    requires FailsHere(AfterRun(run).core.log, Step(AfterRun(run), action).core.log, id)
    ensures var tasks := Step(AfterRun(run), action).core.tasks;
      && id in tasks
      && tasks[id].task.status == FAILED
      && tasks[id].nodeRequest == None
      && Codec.SaysError(tasks[id].task.output, "Node not found: " + ("No nodes found for task: " + tasks[id].task.name))
  {
    RunKeeps(run);
    StepFails(AfterRun(run), action, id);
    hide AfterRun, Step, Inv;
  }

  lemma StepFails(s: System, action: Action, id: string)
    requires Inv(s) && Allowed(s, action) && FailsHere(s.core.log, Step(s, action).core.log, id)
    ensures id in Step(s, action).core.tasks && ShowsFailure(Step(s, action).core.tasks[id])
  {
    InvIs(s);
    var c := s.core;
    hide Within, AcceptStep, Register, Deliver, Next, Update, Retry, IsOrder, TaskIdOf, Inv, OnlyAdmissions, FailsHere, ShowsFailure;
    FailsNowhere(c.log, id);
    match action
    case Submit(jobId, subs) =>
    case Accept(jobId) =>
      AcceptStepAdmits(s, jobId);
      AdmissionsFailNobody(c.log, AcceptStep(s, jobId).core.log, id);
    case Join(node) =>
    case Receive(t) => DeliverFailsNobody(c, t, id);
    case Dispatch =>
      NextIs(c);
      if c.queue != [] { EventFailsNobody(c.log, Dispatched(c.queue[0], c.queue[0] in c.tasks), id); }
    case Interrupt =>
      if c.queue != [] { EventFailsNobody(c.log, Lost(c.queue[0]), id); }
    case Report(task, order) => UpdateFails(c, task, order, id);
    case RetryTask(key) => RetryFailsNobody(c, key, id);
  }
}
