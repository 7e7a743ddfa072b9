/** Transitive failure: the graph argument behind the recursion of the Fail action. */
module FailedTasks {
  import opened Wrappers
  import opened Messages
  import opened Orders
  import opened Scheduler
  import opened SchedulerInvariant

  /** The tasks at `ids` get the status FAILED; nothing else changes. */
  function Mark(tasks: map<string, Handler>, ids: set<string>): map<string, Handler> {
    map id | id in tasks :: if id in ids then tasks[id].WithStatus(FAILED) else tasks[id]
  }

  ghost function Dependents(tasks: map<string, Handler>, key: string): set<string> {
    set id | id in tasks && Reaches(tasks, key, id)
  }

  /** The same tasks needing the same tasks. */
  ghost predicate SameGraph(tasks: map<string, Handler>, tasks': map<string, Handler>) {
    tasks'.Keys == tasks.Keys && forall id | id in tasks :: tasks'[id].dependencies == tasks[id].dependencies
  }

  lemma MarkedGraph(tasks: map<string, Handler>, stamp: map<string, nat>, ids: set<string>)
    ensures SameGraph(tasks, Mark(tasks, ids))
    ensures Graph(tasks, stamp) ==> Graph(Mark(tasks, ids), stamp)
  {
  }

  lemma MarkFailedIs(tasks: map<string, Handler>, key: string)
    ensures MarkFailed(tasks, key) == Mark(tasks, Dependents(tasks, key))
  {
  }

  /** Marking the dependents of `v` after some other tasks were marked. */
  lemma MarkMore(tasks: map<string, Handler>, ids: set<string>, v: string)
    ensures MarkFailed(Mark(tasks, ids), v) == Mark(tasks, ids + Dependents(tasks, v))
  {
  }

  // ---------- Dependents, one step at a time ----------

  lemma KeyIsItsOwnDependent(tasks: map<string, Handler>, key: string)
    requires key in tasks
    ensures key in Dependents(tasks, key)
  {
    assert NeedsPath(tasks, [key]) && [key][0] == key;
  }

  /** Whoever depends on a dependent is a dependent. */
  lemma DependentsOfDependents(tasks: map<string, Handler>, key: string, v: string)
    requires key in tasks && v in tasks && key in tasks[v].dependencies
    ensures Dependents(tasks, v) <= Dependents(tasks, key)
  {
    forall id | id in Dependents(tasks, v)
      ensures Reaches(tasks, key, id)
    {
      var path :| NeedsPath(tasks, path) && path[0] == v && path[|path| - 1] == id;
      var longer := [key] + path;
      assert forall i | 0 < i < |longer| :: longer[i] == path[i - 1];
      assert NeedsPath(tasks, longer) && longer[0] == key && longer[|longer| - 1] == id;
    }
  }

  /** A dependent other than the task itself depends on one of its direct dependents. */
  lemma ThroughADirectDependent(tasks: map<string, Handler>, key: string, id: string) returns (v: string)
    requires id in Dependents(tasks, key) && id != key
    ensures v in tasks && key in tasks[v].dependencies && id in Dependents(tasks, v)
  {
    var path :| NeedsPath(tasks, path) && path[0] == key && path[|path| - 1] == id;
    v := path[1];
    var shorter := path[1..];
    assert forall i | 0 <= i < |shorter| :: shorter[i] == path[i + 1];
    assert path[0] in tasks[path[1]].dependencies;
    assert NeedsPath(tasks, shorter) && shorter[0] == v && shorter[|shorter| - 1] == id;
  }

  /** Whoever needs a dependent of the task is found under its own key. */
  ghost predicate DependentsKeyed(tasks: map<string, Handler>, key: string) {
    forall u, v | u in Dependents(tasks, key) && v in tasks && u in tasks[v].dependencies :: IsKeyed(tasks, v)
  }

  predicate IsKeyed(tasks: map<string, Handler>, v: string)
    requires v in tasks
  {
    v == TaskIdOf(tasks[v].jobId, tasks[v].task.name)
  }

  lemma KeyedFurther(tasks: map<string, Handler>, key: string, v: string)
    requires key in tasks && v in tasks && key in tasks[v].dependencies && DependentsKeyed(tasks, key)
    ensures v == TaskIdOf(tasks[v].jobId, tasks[v].task.name) && DependentsKeyed(tasks, v)
  {
    hide Dependents, TaskIdOf;
    KeyIsItsOwnDependent(tasks, key);
    DependentsOfDependents(tasks, key, v);
    assert IsKeyed(tasks, v);
  }

  lemma SameReaches(tasks: map<string, Handler>, tasks': map<string, Handler>, key: string)
    requires SameGraph(tasks, tasks')
    ensures Dependents(tasks', key) == Dependents(tasks, key)
  {
  }

  lemma MarkedKeyed(tasks: map<string, Handler>, ids: set<string>, key: string)
    requires DependentsKeyed(tasks, key)
    ensures DependentsKeyed(Mark(tasks, ids), key)
  {
    assert SameGraph(tasks, Mark(tasks, ids));
    SameReaches(tasks, Mark(tasks, ids), key);
    hide Dependents, TaskIdOf;
    forall u, v | u in Dependents(Mark(tasks, ids), key) && v in Mark(tasks, ids) && u in Mark(tasks, ids)[v].dependencies
      ensures IsKeyed(Mark(tasks, ids), v)
    {
      assert IsKeyed(tasks, v);
    }
  }

  // ---------- The loop of the Fail action ----------

  /** What has been marked after the first `k` handlers: the task itself and all that lies behind them. */
  ghost predicate MarkedSoFar(tasks: map<string, Handler>, key: string, order: seq<string>, k: nat, ids: set<string>) {
    && k <= |order|
    && key in ids
    && ids <= Dependents(tasks, key)
    && forall i | 0 <= i < k && order[i] in tasks && key in tasks[order[i]].dependencies :: Dependents(tasks, order[i]) <= ids
  }

  lemma MarkedAtStart(tasks: map<string, Handler>, key: string, order: seq<string>)
    requires key in tasks
    ensures MarkedSoFar(tasks, key, order, 0, {key})
    ensures Mark(tasks, {key}) == tasks[key := tasks[key].WithStatus(FAILED)]
  {
    KeyIsItsOwnDependent(tasks, key);
  }

  lemma MarkedOneMore(tasks: map<string, Handler>, key: string, order: seq<string>, k: nat, ids: set<string>)
    requires k < |order| && MarkedSoFar(tasks, key, order, k, ids) && key in tasks && order[k] in tasks
    ensures key in tasks[order[k]].dependencies ==> MarkedSoFar(tasks, key, order, k + 1, ids + Dependents(tasks, order[k]))
    ensures key !in tasks[order[k]].dependencies ==> MarkedSoFar(tasks, key, order, k + 1, ids)
  {
    hide Dependents;
    if key in tasks[order[k]].dependencies {
      DependentsOfDependents(tasks, key, order[k]);
    }
  }

  lemma MarkedAtEnd(tasks: map<string, Handler>, key: string, order: seq<string>, ids: set<string>)
    requires MarkedSoFar(tasks, key, order, |order|, ids) && IsOrder(order, tasks.Keys)
    ensures ids == Dependents(tasks, key)
  {
    forall id | id in Dependents(tasks, key)
      ensures id in ids
    {
      if id != key {
        var v := ThroughADirectDependent(tasks, key, id);
        hide Dependents;
        assert v in order;
        var i :| 0 <= i < |order| && order[i] == v;
        assert Dependents(tasks, order[i]) <= ids;
      }
    }
  }

  // ---------- Why the recursion ends ----------

  /** The tasks inserted after `key`: they shrink along every edge of the needs graph. */
  ghost function Later(tasks: map<string, Handler>, stamp: map<string, nat>, key: string): set<string> {
    set id | id in tasks && id in stamp && key in stamp && stamp[id] > stamp[key]
  }

  lemma LaterShrinks(tasks: map<string, Handler>, stamp: map<string, nat>, key: string, v: string)
    requires Graph(tasks, stamp) && v in tasks && key in tasks[v].dependencies
    ensures Later(tasks, stamp, v) < Later(tasks, stamp, key)
  {
    assert GraphAt(tasks, stamp, v);
    assert v in Later(tasks, stamp, key) && v !in Later(tasks, stamp, v);
  }

  // ---------- The recursion as it is written ----------

  /** The state machine's call for a dependent asks for the lock that its caller holds. */
  datatype Attempt = Finished(tasks: map<string, Handler>) | Blocked

  /** The Fail action with the lock on the task map held throughout, and its loop over the first handlers. */
  function FailLoop(tasks: map<string, Handler>, key: string, order: seq<string>): Attempt
    decreases |order|
  {
    if order == [] then Finished(tasks)
    else
      var before := FailLoop(tasks, key, order[..|order| - 1]);
      var id := order[|order| - 1];
      if before.Finished? && id in tasks && key in tasks[id].dependencies then Blocked else before
  }

  function FailHoldingTheLock(tasks: map<string, Handler>, key: string, order: seq<string>): Attempt {
    if key !in tasks then Finished(tasks)
    else FailLoop(tasks[key := tasks[key].WithStatus(FAILED)], key, order)
  }

  lemma {:induction false} FailLoopBlocks(tasks: map<string, Handler>, key: string, order: seq<string>)
    ensures FailLoop(tasks, key, order) ==
      if exists id :: id in order && id in tasks && key in tasks[id].dependencies then Blocked else Finished(tasks)
    decreases |order|
  {
    if order != [] {
      var n := |order| - 1;
      FailLoopBlocks(tasks, key, order[..n]);
      assert order == order[..n] + [order[n]];
    }
  }

  /**
    As written, Fail comes to an end exactly when no task needs the failed one, and then it does what
    it is meant to do; with any dependent it waits for itself.
   */
  lemma FailEndsIffNobodyDepends(tasks: map<string, Handler>, key: string, order: seq<string>)
    requires IsOrder(order, tasks.Keys) && key in tasks
    ensures FailHoldingTheLock(tasks, key, order).Finished? <==> forall id | id in tasks :: key !in tasks[id].dependencies
    ensures FailHoldingTheLock(tasks, key, order).Finished? ==>
      FailHoldingTheLock(tasks, key, order).tasks == MarkFailed(tasks, key)
  {
    var tasks1 := tasks[key := tasks[key].WithStatus(FAILED)];
    FailLoopBlocks(tasks1, key, order);
    if forall id | id in tasks :: key !in tasks[id].dependencies {
      MarkedAtStart(tasks, key, order);
      MarkFailedIs(tasks, key);
      forall id | id in Dependents(tasks, key)
        ensures id == key
      {
        if id != key {
          var v := ThroughADirectDependent(tasks, key, id);
        }
      }
      assert Dependents(tasks, key) == {key};
    } else {
      var id :| id in tasks && key in tasks[id].dependencies;
      assert id in order && id in tasks1 && key in tasks1[id].dependencies;
    }
  }
}
