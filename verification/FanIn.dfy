/**
  A task that waits for many others: whatever else happens in between, the last of their DONE reports
  places it, and nothing before that does.
 */
module FanIn {
  import opened Wrappers
  import opened Messages
  import opened Nodes
  import opened Orders
  import opened Scheduler
  import opened SchedulerInvariant
  import opened SchedulerSteps
  import opened SchedulerRuns
  import opened SchedulerProperties
  import opened AcceptedTasks
  import Codec

  /** The tasks reported as DONE. */
  function ReportedDone(more: seq<Action>): set<string>
    decreases |more|
  {
    if more == [] then {} else ReportedDone(more[..|more| - 1]) + DoneBy(more[|more| - 1])
  }

  /**
    `g` is an accepted task that needs exactly `needs`, and `done` of them are done. Only a task that may
    not wait for its node can have failed to get one.
   */
  ghost predicate Gathering(s: System, g: string, needs: set<string>, done: set<string>) {
    && Inv(s)
    && IsAccepted(s, g)
    && MayHaveFailed(s.core, g)
    && s.core.tasks[g].dependencies.Keys == needs
    && (forall d | d in needs :: s.core.tasks[g].dependencies[d] <==> d in done)
  }

  ghost predicate MayHaveFailed(c: Core, g: string)
    requires g in c.tasks
  {
    RecruitFailed(g) in c.log ==> c.tasks[g].resourceRecruitment.recruitmentPolicy == FAIL
  }

  lemma GatheringIs(s: System, g: string, needs: set<string>, done: set<string>)
    requires Gathering(s, g, needs, done)
    ensures Inv(s) && IsAccepted(s, g)
    ensures g in s.core.tasks && s.core.tasks[g].jobId !in s.accepting && MayHaveFailed(s.core, g)
    ensures s.core.tasks[g].dependencies.Keys == needs
    ensures forall d | d in needs :: s.core.tasks[g].dependencies[d] <==> d in done
  {
  }

  lemma GatheringFrom(s: System, g: string, needs: set<string>, done: set<string>)
    requires Inv(s) && IsAccepted(s, g)
    requires g in s.core.tasks && MayHaveFailed(s.core, g)
    requires s.core.tasks[g].dependencies.Keys == needs
    requires forall d | d in needs :: s.core.tasks[g].dependencies[d] <==> d in done
    ensures Gathering(s, g, needs, done)
  {
  }

  // ---------- One step ----------

  /** Between two logs that differ by the noted completion and quiet events, only the noted task completed. */
  lemma CompletedNow(log: seq<Event>, noted: seq<Event>, log': seq<Event>, key: string, from: nat, d: string)
    requires noted == log || noted == log + [Completed(key)]
    requires noted <= log' && from < |log|
    requires forall i | |noted| <= i < |log'| :: !log'[i].Completed?
    ensures CompletedIn(log', from, |log'|, d) <==> CompletedIn(log, from, |log|, d) || (noted != log && d == key)
  {
    if noted != log { assert log'[|log|] == noted[|log|] == Completed(key); }
    if q: int :| 0 <= from < q < |log'| && log'[q] == Completed(d) {
      assert q < |noted|;
      assert q < |log| ==> log[q] == noted[q] == log'[q];
    }
    if q: int :| 0 <= from < q < |log| && log[q] == Completed(d) {
      assert log'[q] == noted[q] == log[q];
    }
  }

  lemma FailsOnlyUnderItsPolicy(c: Core, action: Action, c': Core, g: string)
    requires g in c.tasks && g in c'.tasks && SameAssignment(c.tasks[g], c'.tasks[g])
    requires QuietFor(Noted(c, action), c'.log, c.tasks[g], g) && MayHaveFailed(c, g)
    ensures MayHaveFailed(c', g)
  {
  }

  lemma QuietIs(log: seq<Event>, log': seq<Event>, h: Handler, id: string)
    requires QuietFor(log, log', h, id)
    ensures log <= log' && forall i | |log| <= i < |log'| :: !log'[i].Completed?
  {
  }

  lemma StampIs(c: Core, g: string)
    requires Stamps(c.tasks, c.stamp, c.log) && g in c.tasks
    ensures g in c.stamp && c.stamp[g] < |c.log|
  {
  }

  lemma NeedsAreThere(c: Core, g: string, d: string)
    requires Graph(c.tasks, c.stamp) && g in c.tasks && d in c.tasks[g].dependencies
    ensures d in c.tasks
  {
  }

  /** A reported need is noted. */
  lemma NotedIs(c: Core, action: Action, d: string)
    requires d in c.tasks
    ensures Noted(c, action) == c.log || (action.Report? && Noted(c, action) == c.log + [Completed(ReportKey(action))])
    ensures d in DoneBy(action) <==> action.Report? && Noted(c, action) != c.log && d == ReportKey(action)
  {
  }

  predicate SameRequest(h: Handler, h': Handler) {
    h'.input == h.input && h'.resourceRecruitment == h.resourceRecruitment
  }

  lemma SameAssignmentIs(h: Handler, h': Handler)
    requires SameAssignment(h, h')
    ensures h'.dependencies.Keys == h.dependencies.Keys && SameRequest(h, h')
  {
  }

  /** A flag after any step: set before, or set by the DONE report that the step is. */
  lemma FlagCounts(s: System, action: Action, g: string, d: string)
    requires Inv(s) && Allowed(s, action) && IsAccepted(s, g) && g in s.core.tasks && d in s.core.tasks[g].dependencies
    ensures var s' := Step(s, action);
      && g in s'.core.tasks && d in s'.core.tasks[g].dependencies
      && (s'.core.tasks[g].dependencies[d] <==> s.core.tasks[g].dependencies[d] || d in DoneBy(action))
  {
    hide *;
    var s' := Step(s, action);
    StepKeeps(s, action);
    StepGrows(s, action);
    StepKeepsAssignment(s, action, g);
    AcceptedIs(s', g);
    SameAssignmentIs(s.core.tasks[g], s'.core.tasks[g]);
    InvIs(s);
    InvIs(s');
    Unfold(s.core, s.accepting, s.jobs, "", {}, None);
    Unfold(s'.core, s'.accepting, s'.jobs, "", {}, None);
    SameInsertion(s.core, s'.core, g);
    TaskFlags(s.core, g, s.accepting, s.jobs);
    TaskFlags(s'.core, g, s'.accepting, s'.jobs);
    QuietIs(Noted(s.core, action), s'.core.log, s.core.tasks[g], g);
    StampIs(s.core, g);
    NeedsAreThere(s.core, g, d);
    NotedIs(s.core, action, d);
    CompletedNow(s.core.log, Noted(s.core, action), s'.core.log, if action.Report? then ReportKey(action) else "", s.core.stamp[g], d);
  }

  /** Every step keeps the gathering, and a DONE report of a need counts. */
  lemma StepGathers(s: System, action: Action, g: string, needs: set<string>, done: set<string>)
    requires Gathering(s, g, needs, done) && Allowed(s, action)
    ensures Gathering(Step(s, action), g, needs, done + DoneBy(action))
    ensures g in s.core.tasks && g in Step(s, action).core.tasks && SameRequest(s.core.tasks[g], Step(s, action).core.tasks[g])
  {
    hide *;
    var s' := Step(s, action);
    GatheringIs(s, g, needs, done);
    StepKeeps(s, action);
    StepKeepsAssignment(s, action, g);
    AcceptedIs(s', g);
    SameAssignmentIs(s.core.tasks[g], s'.core.tasks[g]);
    FailsOnlyUnderItsPolicy(s.core, action, s'.core, g);
    forall d | d in needs
      ensures s'.core.tasks[g].dependencies[d] <==> d in done + DoneBy(action)
    {
      FlagCounts(s, action, g, d);
    }
    GatheringFrom(s', g, needs, done + DoneBy(action));
  }

  // ---------- Whole runs ----------

  lemma ReportedDoneIs(more: seq<Action>)
    ensures ReportedDone(more) == if more == [] then {} else ReportedDone(more[..|more| - 1]) + DoneBy(more[|more| - 1])
  {
  }

  lemma {:induction false} RunGathers(run: seq<Action>, more: seq<Action>, g: string, needs: set<string>)
    requires IsRun(run + more) && Gathering(AfterRun(run), g, needs, {})
    ensures Gathering(AfterRun(run + more), g, needs, ReportedDone(more))
    ensures var tasks, tasks' := AfterRun(run).core.tasks, AfterRun(run + more).core.tasks;
      g in tasks && g in tasks' && SameRequest(tasks[g], tasks'[g])
    decreases |more|
  {
    hide *;
    GatheringIs(AfterRun(run), g, needs, {});
    ExtendedRun(run, more);
    ReportedDoneIs(more);
    if more != [] {
      var n := |more| - 1;
      RunGathers(run, more[..n], g, needs);
      var tasks, mid, last := AfterRun(run).core.tasks, AfterRun(run + more[..n]).core.tasks, AfterRun(run + more).core.tasks;
      StepGathers(AfterRun(run + more[..n]), more[n], g, needs, ReportedDone(more[..n]));
      SameRequestFurther(tasks[g], mid[g], last[g]);
    } else {
      SameRequestItself(AfterRun(run).core.tasks[g]);
    }
  }

  lemma SameRequestItself(h: Handler)
    ensures SameRequest(h, h)
  {
  }

  lemma SameRequestFurther(h: Handler, h': Handler, h'': Handler)
    requires SameRequest(h, h') && SameRequest(h', h'')
    ensures SameRequest(h, h'')
  {
  }

  /** Where a gathering task stands, read off the needs that are done. */
  lemma PlacedIffAllDone(s: System, g: string, needs: set<string>, done: set<string>)
    requires Gathering(s, g, needs, done)
    ensures var c := s.core;
      && g in c.tasks
      && c.tasks[g].inDegrees == |needs - done|
      && (!(needs <= done) ==> NeverQueued(c.log, g) && c.tasks[g].nodeRequest.None?)
      && (needs <= done ==> Made(c.log, g) + Asking(c.tasks[g]) + multiset(c.log)[RecruitFailed(g)] == 1)
      && MayHaveFailed(c, g)
  {
    hide *;
    var c := s.core;
    GatheringIs(s, g, needs, done);
    InvIs(s);
    Unfold(c, s.accepting, s.jobs, "", {}, None);
    OpenAre(c, g, needs, done);
    if needs <= done {
      assert needs - done == {};
      PlacedOnce(c, s.accepting, g);
    } else {
      var d :| d in needs && d !in done;
      assert d in needs - done;
      WaitingIsUnplaced(c.tasks, c.log, s.accepting, None, g);
    }
  }

  lemma OpenAre(c: Core, g: string, needs: set<string>, done: set<string>)
    requires Degrees(c.tasks) && g in c.tasks && c.tasks[g].dependencies.Keys == needs
    requires forall d | d in needs :: c.tasks[g].dependencies[d] <==> d in done
    ensures c.tasks[g].inDegrees == |needs - done|
  {
    assert Open(c.tasks[g].dependencies) == needs - done;
  }

  lemma PlacedOnce(c: Core, accepting: map<string, Accepting>, g: string)
    requires Phase(c.tasks, c.log, accepting, None) && g in c.tasks && c.tasks[g].inDegrees == 0
    requires c.tasks[g].jobId !in accepting
    ensures Made(c.log, g) + Asking(c.tasks[g]) + multiset(c.log)[RecruitFailed(g)] == 1
  {
  }

  /**
    However a run goes on once a task and its needs are accepted, and whoever else is served in between:
    the task counts the needs not yet reported DONE; before the last such report it is neither queued
    nor has it asked for a node, and from that report on it has once done exactly one of the two, or failed
    to find a node, which only happens to a task that may not wait for one.
   */
  lemma FanInPlacesAtTheLastReport(run: seq<Action>, more: seq<Action>, g: string, needs: set<string>)
    requires IsRun(run + more) && Gathering(AfterRun(run), g, needs, {})
    ensures var c := AfterRun(run + more).core;
      && g in c.tasks
      && c.tasks[g].inDegrees == |needs - ReportedDone(more)|
      && (!(needs <= ReportedDone(more)) ==> NeverQueued(c.log, g) && c.tasks[g].nodeRequest.None?)
      && (needs <= ReportedDone(more) ==> Made(c.log, g) + Asking(c.tasks[g]) + multiset(c.log)[RecruitFailed(g)] == 1)
      && MayHaveFailed(c, g)
  {
    hide *;
    RunGathers(run, more, g, needs);
    PlacedIffAllDone(AfterRun(run + more), g, needs, ReportedDone(more));
  }

  // ---------- The status plays no part ----------

  lemma PlaceKeepsStatus(c: Core, v: string, h: Handler, id: string)
    requires v in c.tasks && id in c.tasks && h.task.status == c.tasks[v].task.status
    requires h.resourceRecruitment == c.tasks[v].resourceRecruitment && c.tasks[id].resourceRecruitment.recruitmentPolicy != FAIL
    ensures var c' := PlaceDone(c, v, h);
      && id in c'.tasks && c'.tasks[id].task.status == c.tasks[id].task.status
      && c'.tasks[id].resourceRecruitment == c.tasks[id].resourceRecruitment
  {
    hide Find, Request, TaskIdOf, Codec.ErrorOutput;
  }

  lemma VisitKeepsStatus(c: Core, key: string, v: string, id: string)
    requires id in c.tasks && c.tasks[id].resourceRecruitment.recruitmentPolicy != FAIL
    ensures var c' := DoneVisit(c, key, v);
      && id in c'.tasks && c'.tasks[id].task.status == c.tasks[id].task.status
      && c'.tasks[id].resourceRecruitment == c.tasks[id].resourceRecruitment
  {
    hide PlaceDone, DoneVisit;
    if v in c.tasks {
      VisitIs(c, key, v);
      PlaceKeepsStatus(c, v, Cleared(c.tasks[v], key), id);
    } else {
      NoVisit(c, key, v);
    }
  }

  lemma {:induction false} SweepKeepsStatus(c: Core, key: string, order: seq<string>, id: string)
    requires id in c.tasks && c.tasks[id].resourceRecruitment.recruitmentPolicy != FAIL
    ensures var c' := DoneSweep(c, key, order);
      && id in c'.tasks && c'.tasks[id].task.status == c.tasks[id].task.status
      && c'.tasks[id].resourceRecruitment == c.tasks[id].resourceRecruitment
    decreases |order|
  {
    hide DoneVisit;
    if order != [] {
      var n := |order| - 1;
      SweepKeepsStatus(c, key, order[..n], id);
      VisitKeepsStatus(DoneSweep(c, key, order[..n]), key, order[n], id);
    }
  }

  lemma DoneReportKeepsStatus(c: Core, action: Action, id: string)
    requires action.Report? && action.task.status == DONE && id in c.tasks && id != ReportKey(action)
    requires c.tasks[id].resourceRecruitment.recruitmentPolicy != FAIL
    ensures var c' := Update(c, action.task, action.order);
      id in c'.tasks && c'.tasks[id].task.status == c.tasks[id].task.status
  {
    hide Retry, Fail, Done, Update, DoneSweep, TaskIdOf;
    var key := ReportKey(action);
    UpdateIs(c, action.task, action.order);
    if key in c.tasks {
      var c1 := c.(tasks := c.tasks[key := c.tasks[key].(task := action.task)]);
      DoneIsSweep(c1, key, action.order);
      SweepKeepsStatus(c1.(log := c1.log + [Completed(key)]), key, action.order, id);
    }
  }

  /** The needs of a task that are done. */
  function DoneNeeds(h: Handler): set<string> {
    h.dependencies.Keys - Open(h.dependencies)
  }

  lemma GatheringNow(s: System, g: string)
    requires Inv(s) && IsAccepted(s, g) && MayHaveFailed(s.core, g)
    ensures Gathering(s, g, s.core.tasks[g].dependencies.Keys, DoneNeeds(s.core.tasks[g]))
  {
  }

  /**
    A task whose last open need completes is placed whatever its status is, and keeps that status: one
    that was marked FAILED together with its need is queued, or asks for a node, as a FAILED task once
    the need has been retried and is done.
   */
  lemma PlacedWhateverItsStatus(run: seq<Action>, report: Action, g: string)
    requires IsRun(run) && Allowed(AfterRun(run), report) && report.Report? && report.task.status == DONE
    requires IsAccepted(AfterRun(run), g) && MayHaveFailed(AfterRun(run).core, g)
    requires var h := AfterRun(run).core.tasks[g];
      h.resourceRecruitment.recruitmentPolicy != FAIL && Open(h.dependencies) == {ReportKey(report)} && g != ReportKey(report)
    ensures var c, c' := AfterRun(run).core, Step(AfterRun(run), report).core;
      && NeverQueued(c.log, g) && c.tasks[g].nodeRequest.None?
      && g in c'.tasks && c'.tasks[g].task.status == c.tasks[g].task.status
      && Made(c'.log, g) + Asking(c'.tasks[g]) == 1
  {
    hide *;
    var s, s' := AfterRun(run), Step(AfterRun(run), report);
    RunKeeps(run);
    AcceptedIs(s, g);
    var h := s.core.tasks[g];
    var needs, done := h.dependencies.Keys, DoneNeeds(h);
    GatheringNow(s, g);
    PlacedIffAllDone(s, g, needs, done);
    StepGathers(s, report, g, needs, done);
    PlacedIffAllDone(s', g, needs, done + DoneBy(report));
    LastNeed(h, report);
    ReportStep(s, report);
    DoneReportKeepsStatus(s.core, report, g);
    StepKeepsAssignment(s, report, g);
    NeverFailsToWait(s.core, s'.core, g);
  }

  lemma LastNeed(h: Handler, report: Action)
    requires report.Report? && report.task.status == DONE && Open(h.dependencies) == {ReportKey(report)}
    ensures !(h.dependencies.Keys <= DoneNeeds(h)) && h.dependencies.Keys <= DoneNeeds(h) + DoneBy(report)
  {
  }

  lemma ReportStep(s: System, report: Action)
    requires report.Report?
    ensures Step(s, report) == s.(core := Update(s.core, report.task, report.order))
  {
  }

  lemma NeverFailsToWait(c: Core, c': Core, g: string)
    requires g in c.tasks && g in c'.tasks && SameAssignment(c.tasks[g], c'.tasks[g])
    requires c.tasks[g].resourceRecruitment.recruitmentPolicy != FAIL && MayHaveFailed(c', g)
    ensures multiset(c'.log)[RecruitFailed(g)] == 0
  {
  }
}
