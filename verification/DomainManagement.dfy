/** core/examples/domain-manager/src/main.rs: the domain manager that owns the scheduler and the nodes. */
module DomainManagement {
  import opened Wrappers
  import opened Messages
  import opened Nodes
  import opened Orders
  import opened Scheduler
  import opened SchedulerInvariant
  import opened SchedulerRuns
  import opened SchedulerAdmission
  import opened WorkerNodes
  import opened TaskScheduler
  import Codec
  import DispatchedTasks
  import TaskActions
  import Framing
  import JobCodec
  import Reconstruction
  import RetryLimit

  datatype Code = Accepted | BadRequest

  /** Some order in which a hash map with these keys may be iterated. */
  method IterationOrder(keys: set<string>) returns (order: seq<string>)
    ensures IsOrder(order, keys)
  {
    order := [];
    var rest := keys;
    while rest != {}
      invariant rest <= keys
      invariant IsOrder(order, keys - rest)
      decreases |rest|
    {
      var key :| key in rest;
      assert key !in order;
      order := order + [key];
      rest := rest - {key};
    }
  }

  /** What run_task reports about a task it sent, or failed to send, to its worker. */
  function SentTask(th: Handler, own: bool, accessToken: string, failure: Option<string>): Task {
    var t := th.task.(status := PENDING, accessToken := if own then th.task.accessToken else Some(accessToken));
    match failure
    case None => t
    case Some(message) => t.(status := FAILED, output := Some(Codec.ErrorOutput(message)))
  }

  /** run_task on the scheduler: nothing without its input, else a report, and a retry after a failure. */
  ghost function AfterRunTask(c: Core, th: Handler, needs: seq<string>, own: bool, accessToken: string, failure: Option<string>,
                              order: seq<string>): Core {
    if Reconstruction.RunInput(th, c.tasks, needs).None? then c
    else
      var c1 := Update(c, SentTask(th, own, accessToken, failure), order);
      if failure.None? then c1 else Retry(c1, TaskIdOf(th.task.jobId, th.task.name)).0
  }

  /** The task is there, waits for nothing, can be retried, and its input is there. */
  ghost predicate IsSendable(c: Core, th: Handler, needs: seq<string>) {
    var id := TaskIdOf(th.task.jobId, th.task.name);
    && id in c.tasks && c.tasks[id].inDegrees == 0 && c.tasks[id].retries < 3 && th.task.receiver.Some?
    && Reconstruction.RunInput(th, c.tasks, needs).Some?
  }

  /**
    What a task that was sent, or failed to be, is left as: PENDING, with the token of its publication, and
    after a failure queued once more with the error as its output; then whatever needs it, directly or
    through others, is FAILED. Nothing else is different.
   */
  ghost predicate LeavesSent(c: Core, c': Core, th: Handler, own: bool, accessToken: string, failure: Option<string>) {
    var id := TaskIdOf(th.task.jobId, th.task.name);
    && c' == c.(tasks := c'.tasks, queue := c'.queue, log := c'.log)
    && c'.queue == (if failure.Some? then c.queue + [id] else c.queue)
    && c'.tasks.Keys == c.tasks.Keys && id in c.tasks
    && (forall other | other in c.tasks && other != id ::
          if failure.Some? && Reaches(c.tasks, id, other) then TaskActions.OnlyStatus(c.tasks[other], c'.tasks[other], FAILED)
          else c'.tasks[other] == c.tasks[other])
    && c'.tasks[id] == c.tasks[id].(task := c'.tasks[id].task)
    && var t := c'.tasks[id].task;
       && t == th.task.(status := PENDING, accessToken := t.accessToken, output := t.output)
       && t.accessToken == (if own then th.task.accessToken else Some(accessToken))
       && (if failure.Some? then Codec.SaysError(t.output, failure.value) else t.output == th.task.output)
  }

  lemma SentIsLeft(c: Core, th: Handler, needs: seq<string>, own: bool, accessToken: string, order: seq<string>)
    requires IsSendable(c, th, needs)
    ensures LeavesSent(c, AfterRunTask(c, th, needs, own, accessToken, None, order), th, own, accessToken, None)
  {
    hide Update, TaskIdOf, Reconstruction.RunInput, Reaches;
    TaskActions.ReportIsStored(c, SentTask(th, own, accessToken, None), order);
  }

  lemma FailedIsLeft(c: Core, th: Handler, needs: seq<string>, own: bool, accessToken: string, message: string, order: seq<string>)
    requires IsSendable(c, th, needs)
    ensures LeavesSent(c, AfterRunTask(c, th, needs, own, accessToken, Some(message), order), th, own, accessToken, Some(message))
  {
    var id, t := TaskIdOf(th.task.jobId, th.task.name), SentTask(th, own, accessToken, Some(message));
    var c1 := Update(c, t, order);
    TaskActions.ReportedFailureSpreads(c, t, order);
    ReachesItself(c.tasks, id);
    FailedTaskIs(th, own, accessToken, message);
    hide Update, Retry, TaskIdOf, Reconstruction.RunInput, SentTask, LeavesSent, TaskActions.OnlyStatus, Reaches;
    RetriedIsLeft(c, c1, th, own, accessToken, message, t);
  }

  lemma FailedTaskIs(th: Handler, own: bool, accessToken: string, message: string)
    ensures var t := SentTask(th, own, accessToken, Some(message));
      && t.status == FAILED && t.jobId == th.task.jobId && t.name == th.task.name && t.receiver == th.task.receiver
      && t == th.task.(status := FAILED, accessToken := if own then th.task.accessToken else Some(accessToken), output := t.output)
      && Codec.SaysError(t.output, message)
  {
    Codec.ErrorOutputSays(message);
    hide Codec.ErrorOutput, Codec.SaysError;
  }

  /** The retry after the report of a failure. */
  lemma RetriedIsLeft(c: Core, c1: Core, th: Handler, own: bool, accessToken: string, message: string, t: Task)
    requires var id := TaskIdOf(th.task.jobId, th.task.name);
      && id in c.tasks && c.tasks[id].inDegrees == 0 && c.tasks[id].retries < 3 && th.task.receiver.Some?
      && TaskActions.OnlyTasks(c, c1) && c1.tasks.Keys == c.tasks.Keys
      && Reaches(c.tasks, id, id)
      && forall other | other in c.tasks ::
           var stored := TaskActions.StoredIn(c.tasks, id, t)[other];
           if Reaches(c.tasks, id, other) then TaskActions.OnlyStatus(stored, c1.tasks[other], FAILED) else c1.tasks[other] == stored
    requires t == th.task.(status := FAILED, accessToken := if own then th.task.accessToken else Some(accessToken), output := t.output)
    requires Codec.SaysError(t.output, message)
    ensures LeavesSent(c, Retry(c1, TaskIdOf(th.task.jobId, th.task.name)).0, th, own, accessToken, Some(message))
  {
    var id := TaskIdOf(th.task.jobId, th.task.name);
    hide Retry, TaskIdOf, Codec.SaysError, TaskActions.SaysLimit, Reaches;
    TaskActions.RetryTable(c1, id);
  }

  lemma ReachesItself(tasks: map<string, Handler>, id: string)
    requires id in tasks
    ensures Reaches(tasks, id, id)
  {
    assert NeedsPath(tasks, [id]) && [id][0] == id;
  }

  /**
    What is dispatched in a run can be sent at any later time, as long as the task exists and its input is
    there: it waits for nothing, has its receiver and no retry counted.
   */
  lemma DispatchedIsSendable(run: seq<Action>, k: nat, needs: seq<string>)
    requires IsRun(run) && k < |run| && run[k] == Dispatch && Next(AfterRun(run[..k]).core).1.Some?
    requires var th := Next(AfterRun(run[..k]).core).1.value;
      TaskIdOf(th.task.jobId, th.task.name) in AfterRun(run).core.tasks && Reconstruction.RunInput(th, AfterRun(run).core.tasks, needs).Some?
    ensures IsSendable(AfterRun(run).core, Next(AfterRun(run[..k]).core).1.value, needs)
    ensures var th := Next(AfterRun(run[..k]).core).1.value;
      AfterRun(run[..k]).core.queue[0] == TaskIdOf(th.task.jobId, th.task.name)
  {
    hide *;
    var s, s' := AfterRun(run[..k]), AfterRun(run);
    DispatchedTasks.IsRunPrefix(run, k);
    RunKeeps(run[..k]);
    RunKeeps(run);
    InvIs(s);
    InvIs(s');
    QueueFront(s.core);
    var id := s.core.queue[0];
    var th := s.core.tasks[id];
    DispatchedTasks.SnapshotIs(s.core, s.accepting, s.jobs);
    KeyedIs(id, th);
    DispatchedTasks.QueuedWaitsForNothing(s.core, s.accepting, s.jobs, id);
    DispatchedTasks.ReceiverIsStable(run, k, id);
    DispatchedTasks.QueuedWaitsForNothing(s'.core, s'.accepting, s'.jobs, id);
    RetryLimit.NoRetryIsCounted(run);
    SendableIs(s'.core, th, needs);
  }

  lemma QueueFront(c: Core)
    requires Next(c).1.Some?
    ensures c.queue != [] && c.queue[0] in c.tasks && Next(c).1.value == c.tasks[c.queue[0]]
  {
  }

  lemma KeyedIs(id: string, h: Handler)
    requires Keyed(id, h)
    ensures id == TaskIdOf(h.task.jobId, h.task.name)
  {
  }

  lemma SendableIs(c: Core, th: Handler, needs: seq<string>)
    requires var id := TaskIdOf(th.task.jobId, th.task.name); id in c.tasks && c.tasks[id].Ready()
    requires RetryLimit.Uncounted(c.tasks) && th.Ready() && Reconstruction.RunInput(th, c.tasks, needs).Some?
    ensures IsSendable(c, th, needs)
  {
    hide Reconstruction.RunInput, TaskIdOf;
  }

  lemma TaskIsLeft(c: Core, th: Handler, needs: seq<string>, own: bool, accessToken: string, failure: Option<string>, order: seq<string>)
    ensures IsSendable(c, th, needs) ==>
      LeavesSent(c, AfterRunTask(c, th, needs, own, accessToken, failure, order), th, own, accessToken, failure)
  {
    hide LeavesSent, IsSendable, AfterRunTask;
    if IsSendable(c, th, needs) {
      if failure.Some? {
        FailedIsLeft(c, th, needs, own, accessToken, failure.value, order);
      } else {
        SentIsLeft(c, th, needs, own, accessToken, order);
      }
    }
  }

  class DomainManager {
    const nodeMgmt: NodesManagement
    const taskMgmt: TasksManagement

    ghost function View(): Core
      reads nodeMgmt, nodeMgmt.loadBalancer, taskMgmt
    {
      taskMgmt.View(nodeMgmt)
    }

    ghost predicate Ok()
      reads nodeMgmt, nodeMgmt.loadBalancer
    {
      Valid(nodeMgmt.View())
    }

    constructor ()
      ensures View() == EmptyCore() && Ok()
      ensures fresh(nodeMgmt) && fresh(nodeMgmt.loadBalancer) && fresh(taskMgmt)
    {
      nodeMgmt := new NodesManagement();
      taskMgmt := new TasksManagement();
    }

    method AcceptJob(jobId: string, subs: seq<Submission>) returns (code: Code)
      requires Ok()
      modifies nodeMgmt, nodeMgmt.loadBalancer, taskMgmt
      ensures (View(), code == Accepted) == SchedulerAdmission.AcceptJob(old(View()), jobId, subs)
      ensures Ok()
    {
      hide Valid, Validate, Scheduler.RemoveJob, Push, TaskIdOf, IsOrder;
      code := Accepted;
      var tasks: seq<string> := [];
      var k := 0;
      while k < |subs|
        invariant 0 <= k <= |subs|
        invariant AcceptAll(old(View()), jobId, subs, []) == AcceptAll(View(), jobId, subs[k..], tasks)
        invariant Ok()
      {
        assert subs[k..][0] == subs[k] && subs[k..][1..] == subs[k + 1..];
        var res := taskMgmt.ValidateTask(jobId, subs[k].req, subs[k].timeout, nodeMgmt);
        if res.Err? {
          code := BadRequest;
          var order := IterationOrder(taskMgmt.tasks.Keys);
          taskMgmt.RemoveJob(jobId, order, nodeMgmt);
          return;
        } else if res.value {
          tasks := tasks + [TaskIdOf(jobId, subs[k].req.name)];
        }
        k := k + 1;
      }
      taskMgmt.PushTasks(tasks, nodeMgmt);
    }

    /** The input for the worker; None when a dependency or its output is missing. */
    method SerializedInput(th: Handler, needs: seq<string>) returns (r: Option<seq<Byte>>)
      requires IsOrder(needs, th.dependencies.Keys)
      ensures r == Reconstruction.RunInput(th, taskMgmt.tasks, needs)
    {
      hide IsOrder, Reconstruction.GatherAll, JobCodec.GlobalBody, JobCodec.GlobalSize, Framing.Frame;
      if th.input.None? {
        return Some([]);
      }
      var input := th.input.value;
      if input.typeUrl == Reconstruction.GLOBAL_INPUT {
        if input.value == [] {
          var gathered := Reconstruction.GatherOutputs(taskMgmt.tasks, th.dependencies, needs);
          if !gathered.Gathered? {
            return None;
          }
          var g := GlobalRefinementInputV1(gathered.outputs);
          var serialized := Framing.PrefixSizeMessage(Codec.Delimited(JobCodec.GlobalSize(g), JobCodec.GlobalBody(g)));
          return Some(serialized);
        }
        var serialized := Framing.PrefixSizeMessage(input.value);
        return Some(serialized);
      }
      if input.typeUrl == Reconstruction.LOCAL_INPUT {
        var serialized := Framing.PrefixSizeMessage(input.value);
        return Some(serialized);
      }
      return Some([]);
    }

    /**
      Tasks that this peer asked for itself are sent directly and others published; `failure` is the error
      either way met, if any. A task that waits for nothing is PENDING afterwards, with the token of the
      publication; after a failure it is queued once more, and keeps the error as its output.
     */
    method RunTask(th: Handler, needs: seq<string>, peerId: string, accessToken: string, failure: Option<string>, order: seq<string>)
      requires Ok() && IsOrder(needs, th.dependencies.Keys) && IsOrder(order, taskMgmt.tasks.Keys)
      requires failure.Some? ==> WellKeyed(taskMgmt.tasks) && Graph(taskMgmt.tasks, taskMgmt.stamp)
      modifies nodeMgmt, nodeMgmt.loadBalancer, taskMgmt
      ensures View() == AfterRunTask(old(View()), th, needs, th.task.sender == peerId, accessToken, failure, order)
      ensures Reconstruction.RunInput(th, old(taskMgmt.tasks), needs).None? ==> View() == old(View())
      ensures IsSendable(old(View()), th, needs) ==>
        LeavesSent(old(View()), View(), th, th.task.sender == peerId, accessToken, failure)
      ensures Ok()
    {
      ghost var before, own := View(), th.task.sender == peerId;
      hide LeavesSent, IsSendable;
      TaskIsLeft(before, th, needs, own, accessToken, failure, order);
      hide Valid, IsOrder, Update, Retry, Reconstruction.RunInput, TaskIdOf, WellKeyed, Graph, Codec.ErrorOutput;
      var input := SerializedInput(th, needs);
      if input.None? {
        return;
      }
      var t := th.task.(status := PENDING);
      if t.sender != peerId {
        t := t.(accessToken := Some(accessToken));
      }
      if failure.Some? {
        t := t.(status := FAILED);
        t := t.(output := Some(Codec.ErrorOutput(failure.value)));
        taskMgmt.UpdateTask(t, order, nodeMgmt);
        taskMgmt.RetryTask(TaskIdOf(t.jobId, t.name), nodeMgmt);
        return;
      }
      taskMgmt.UpdateTask(t, order, nodeMgmt);
    }
  }
}
