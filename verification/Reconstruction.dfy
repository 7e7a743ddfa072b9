/**
  core/domain/src/spatial/reconstruction.rs and run_task of the domain manager: a job of one local
  refinement per scan and one global refinement that needs them all, and the gathering of the local
  outputs into the global refinement's input.
 */
module Reconstruction {
  import opened Wrappers
  import opened Messages
  import opened Nodes
  import opened Orders
  import opened Scheduler
  import opened SchedulerInvariant
  import SchedulerSteps
  import opened SchedulerRuns
  import opened SchedulerAdmission
  import opened AcceptedJobs
  import opened AcceptedTasks
  import opened AdmissionRuns
  import opened DispatchedTasks
  import opened FanIn
  import FailedTasks
  import Wire
  import Codec
  import DataCodec
  import JobCodec
  import Framing

  const LOCAL_INPUT := "LocalRefinementInputV1"
  const GLOBAL_INPUT := "GlobalRefinementInputV1"

  // ---------- The job ----------

  const LOCAL_PREFIX := "local_refinement_"

  function LocalName(scan: string): string {
    LOCAL_PREFIX + scan
  }

  const GLOBAL_NAME := "global_refinement"

  function LocalInput(scan: string): LocalRefinementInputV1 {
    LocalRefinementInputV1(Query([], Some(".*_" + scan), None, [], []))
  }

  function LocalRequest(scan: string, sender: string): (r: TaskRequest)
    ensures r.name == LocalName(scan) && r.needs == [] && r.resourceRecruitment.recruitmentPolicy == ALWAYS
  {
    TaskRequest(
      LocalName(scan), CapabilityFilters("/local-refinement/v1", Some(0), Some(0)), Some(1000), "10h", [],
      ResourceRecruitment(ALWAYS, TERMINATE), sender, None,
      Some(Any(LOCAL_INPUT, DataCodec.SerializeLocalInput(LocalInput(scan)))))
  }

  function GlobalRequest(needs: seq<string>, sender: string): (r: TaskRequest)
    ensures r.name == GLOBAL_NAME && r.needs == needs && r.resourceRecruitment.recruitmentPolicy == ALWAYS
    ensures r.data == Some(Any(GLOBAL_INPUT, []))
  {
    TaskRequest(
      GLOBAL_NAME, CapabilityFilters("/global-refinement/v1", Some(1), Some(1)), Some(1000), "10m", needs,
      ResourceRecruitment(ALWAYS, KEEP), sender, None, Some(Any(GLOBAL_INPUT, [])))
  }

  function LocalNames(scans: seq<string>): (names: seq<string>)
    ensures |names| == |scans| && forall i | 0 <= i < |scans| :: names[i] == LocalName(scans[i])
  {
    seq(|scans|, i requires 0 <= i < |scans| => LocalName(scans[i]))
  }

  /** The data of one scan: whatever name ends in it, and nothing else is asked. */
  ghost predicate AsksForScan(input: Option<LocalRefinementInputV1>, scan: string) {
    && input.Some?
    && input.value.query.nameRegexp == Some(".*_" + scan)
    && input.value.query.dataTypeRegexp == None
    && input.value.query.ids == [] && input.value.query.names == [] && input.value.query.dataTypes == []
  }

  ghost predicate IsLocalTask(r: TaskRequest, scan: string, sender: string) {
    && r.name == "local_refinement_" + scan && r.needs == []
    && r.capabilityFilters == CapabilityFilters("/local-refinement/v1", Some(0), Some(0))
    && r.resourceRecruitment == ResourceRecruitment(ALWAYS, TERMINATE)
    && r.maxBudget == Some(1000) && r.timeout == "10h" && r.sender == sender && r.receiver == None
    && r.data.Some? && r.data.value.typeUrl == "LocalRefinementInputV1"
    && (|r.data.value.value| < 0x1_0000_0000 ==> AsksForScan(DataCodec.DeserializeLocalInput(r.data.value.value), scan))
  }

  ghost predicate IsGlobalTask(r: TaskRequest, needs: seq<string>, sender: string) {
    && r.name == "global_refinement" && r.needs == needs
    && r.capabilityFilters == CapabilityFilters("/global-refinement/v1", Some(1), Some(1))
    && r.resourceRecruitment == ResourceRecruitment(ALWAYS, KEEP)
    && r.maxBudget == Some(1000) && r.timeout == "10m" && r.sender == sender && r.receiver == None
    && r.data == Some(Any("GlobalRefinementInputV1", []))
  }

  /** One local refinement per scan, in order, then the global refinement that needs all of them. */
  ghost predicate IsReconstruction(tasks: seq<TaskRequest>, scans: seq<string>, sender: string) {
    && |tasks| == |scans| + 1
    && (forall i | 0 <= i < |scans| :: IsLocalTask(tasks[i], scans[i], sender))
    && IsGlobalTask(tasks[|scans|], LocalNames(scans), sender)
  }

  lemma LocalRequestIs(scan: string, sender: string)
    ensures IsLocalTask(LocalRequest(scan, sender), scan, sender)
  {
    var value := DataCodec.SerializeLocalInput(LocalInput(scan));
    if |value| < Codec.TWO_32 {
      SmallInput(LocalInput(scan));
      DataCodec.LocalInputRoundTrip(LocalInput(scan));
    }
    hide DataCodec.SerializeLocalInput, DataCodec.DeserializeLocalInput;
  }

  lemma SmallInput(input: LocalRefinementInputV1)
    requires |DataCodec.SerializeLocalInput(input)| < Codec.TWO_32
    ensures |Wire.EncodeFields(DataCodec.LocalInputFields(input))| < Codec.TWO_32
  {
    hide Wire.EncodeFields, DataCodec.LocalInputFields, DataCodec.LocalInputSize, Wire.Varint;
  }

  lemma GlobalRequestIs(needs: seq<string>, sender: string)
    ensures IsGlobalTask(GlobalRequest(needs, sender), needs, sender)
  {
  }

  method ReconstructionJob(managerId: string, scans: seq<string>) returns (job: JobRequest)
    ensures job.name == "refinement job" && job.nonce == ""
    ensures IsReconstruction(job.tasks, scans, managerId)
  {
    hide LocalRequest, GlobalRequest, IsLocalTask, IsGlobalTask, LocalName;
    var uploaded: seq<TaskRequest> := [];
    var k := 0;
    while k < |scans|
      invariant 0 <= k <= |scans|
      invariant |uploaded| == k
      invariant forall i | 0 <= i < k :: IsLocalTask(uploaded[i], scans[i], managerId) && uploaded[i].name == LocalName(scans[i])
    {
      LocalRequestIs(scans[k], managerId);
      uploaded := uploaded + [LocalRequest(scans[k], managerId)];
      k := k + 1;
    }
    var dependencies := seq(|uploaded|, i requires 0 <= i < |uploaded| => uploaded[i].name);
    assert dependencies == LocalNames(scans);
    GlobalRequestIs(dependencies, managerId);
    uploaded := uploaded + [GlobalRequest(dependencies, managerId)];
    job := JobRequest("refinement job", uploaded, "");
  }

  // ---------- The job is accepted ----------

  /** The job's requests with timeouts that parse, as "10h" and "10m" do. */
  ghost predicate Submissions(subs: seq<Submission>, scans: seq<string>, sender: string) {
    && |subs| == |scans| + 1
    && (forall i | 0 <= i < |subs| :: subs[i].timeout.Some?)
    && (forall i | 0 <= i < |scans| :: IsLocalTask(subs[i].req, scans[i], sender))
    && IsGlobalTask(subs[|scans|].req, LocalNames(scans), sender)
  }

  lemma LocalTaskIs(r: TaskRequest, scan: string, sender: string)
    requires IsLocalTask(r, scan, sender)
    ensures r.name == LocalName(scan) && r.needs == [] && r.resourceRecruitment.recruitmentPolicy == ALWAYS
  {
    hide AsksForScan, DataCodec.DeserializeLocalInput;
  }

  lemma GlobalTaskIs(r: TaskRequest, needs: seq<string>, sender: string)
    requires IsGlobalTask(r, needs, sender)
    ensures r.name == GLOBAL_NAME && r.needs == needs && r.resourceRecruitment.recruitmentPolicy == ALWAYS
    ensures r.data == Some(Any(GLOBAL_INPUT, []))
  {
  }

  lemma SubmittedNames(subs: seq<Submission>, scans: seq<string>, sender: string)
    requires Submissions(subs, scans, sender)
    ensures |subs| == |scans| + 1 && forall i | 0 <= i < |subs| :: subs[i].timeout.Some?
    ensures forall i | 0 <= i < |scans| ::
      subs[i].req.name == LocalName(scans[i]) && subs[i].req.needs == [] && subs[i].req.resourceRecruitment.recruitmentPolicy == ALWAYS
    ensures var g := subs[|scans|].req;
      && g.name == GLOBAL_NAME && g.needs == LocalNames(scans) && g.resourceRecruitment.recruitmentPolicy == ALWAYS
      && g.data == Some(Any(GLOBAL_INPUT, []))
  {
    hide IsLocalTask, IsGlobalTask, LocalName;
    forall i | 0 <= i < |scans|
      ensures subs[i].req.name == LocalName(scans[i]) && subs[i].req.needs == []
      ensures subs[i].req.resourceRecruitment.recruitmentPolicy == ALWAYS
    {
      LocalTaskIs(subs[i].req, scans[i], sender);
    }
    GlobalTaskIs(subs[|scans|].req, LocalNames(scans), sender);
  }

  function LocalIds(jobId: string, scans: seq<string>): set<string> {
    set i | 0 <= i < |scans| :: TaskIdOf(jobId, LocalName(scans[i]))
  }

  lemma LocalNamesDiffer(scan1: string, scan2: string)
    ensures LocalName(scan1) == LocalName(scan2) <==> scan1 == scan2
    ensures LocalName(scan1) != GLOBAL_NAME
  {
    assert LocalName(scan1)[0] == 'l' && GLOBAL_NAME[0] == 'g';
    assert scan1 == LocalName(scan1)[|LOCAL_PREFIX|..] && scan2 == LocalName(scan2)[|LOCAL_PREFIX|..];
  }

  lemma ReconstructionNames(subs: seq<Submission>, scans: seq<string>, sender: string)
    requires Submissions(subs, scans, sender)
    ensures DistinctNames(subs) <==> NoDuplicates(scans)
  {
    SubmittedNames(subs, scans, sender);
    hide Submissions, LocalName;
    forall i, j | 0 <= i < j < |subs|
      ensures subs[i].req.name == subs[j].req.name <==> j < |scans| && scans[i] == scans[j]
    {
      LocalNamesDiffer(scans[i], if j < |scans| then scans[j] else "");
    }
    if DistinctNames(subs) {
      forall i, j | 0 <= i < j < |scans|
        ensures scans[i] != scans[j]
      {
        assert subs[i].req.name != subs[j].req.name;
      }
    }
  }

  lemma ReconstructionNeeds(jobId: string, subs: seq<Submission>, scans: seq<string>, sender: string)
    requires Submissions(subs, scans, sender)
    ensures NeedIds(jobId, LocalNames(scans)) == LocalIds(jobId, scans) == Ids(jobId, subs[..|scans|])
  {
    SubmittedNames(subs, scans, sender);
    hide TaskIdOf, Submissions, LocalName;
    var first := subs[..|scans|];
    assert forall i | 0 <= i < |scans| :: first[i].req.name == LocalNames(scans)[i];
  }

  lemma ReconstructionAcceptable(pool: NodesState, jobId: string, subs: seq<Submission>, scans: seq<string>, sender: string)
    requires Submissions(subs, scans, sender)
    ensures AllAcceptable(pool, jobId, subs)
  {
    ReconstructionNeeds(jobId, subs, scans, sender);
    forall i | 0 <= i < |subs|
      ensures Acceptable(pool, jobId, subs[i], Ids(jobId, subs[..i]))
    {
      if i < |scans| { NoNeeds(jobId); }
    }
  }

  /** The state after a fresh reconstruction job was accepted in a run. */
  ghost function AfterAccepting(run: seq<Action>, jobId: string, subs: seq<Submission>): System {
    AfterRun(run + AcceptRun(jobId, subs))
  }

  ghost predicate NewReconstruction(run: seq<Action>, jobId: string, subs: seq<Submission>, scans: seq<string>, sender: string) {
    && IsRun(run) && jobId !in AfterRun(run).jobs && NoDash(jobId)
    && Submissions(subs, scans, sender) && NoDuplicates(scans)
  }

  /** A task of an accepted job that needs nothing and has no output yet. */
  ghost predicate IsLeaf(s: System, d: string) {
    IsAccepted(s, d) && s.core.tasks[d].dependencies == map[] && s.core.tasks[d].task.output == None
  }

  ghost predicate Leaves(s: System, ids: set<string>) {
    forall d | d in ids :: IsLeaf(s, d)
  }

  /**
    Whatever the state of the domain manager, a reconstruction job of distinct scans is accepted; the
    global refinement then waits for exactly the local ones, none of which waits for anything.
   */
  lemma ReconstructionIsAccepted(run: seq<Action>, jobId: string, subs: seq<Submission>, scans: seq<string>, sender: string)
    requires NewReconstruction(run, jobId, subs, scans, sender)
    ensures IsRun(run + AcceptRun(jobId, subs))
    ensures var s, g := AfterAccepting(run, jobId, subs), TaskIdOf(jobId, GLOBAL_NAME);
      && Gathering(s, g, LocalIds(jobId, scans), {})
      && Leaves(s, LocalIds(jobId, scans))
      && s.core.tasks[g].input == Some(Any(GLOBAL_INPUT, []))
      && s.core.tasks[g].resourceRecruitment.recruitmentPolicy == ALWAYS
      && s.core.tasks[g].jobId == jobId && jobId in s.jobs && jobId !in s.accepting
      && s.core.tasks.Keys == AfterRun(run).core.tasks.Keys + LocalIds(jobId, scans) + {g}
  {
    hide *;
    NewReconstructionIs(run, jobId, subs, scans, sender);
    var s0, s := AfterRun(run), AfterAccepting(run, jobId, subs);
    RunKeeps(run);
    NewJobIsFresh(s0, jobId);
    ReconstructionNames(subs, scans, sender);
    ReconstructionAcceptable(s0.core.pool, jobId, subs, scans, sender);
    AcceptJobIsAllOrNothing(s0.core, jobId, subs);
    AcceptedAsRequested(s0.core, jobId, subs);
    AcceptRunIsAcceptJob(run, jobId, subs);
    RunKeeps(run + AcceptRun(jobId, subs));
    AfterAcceptingIs(run, jobId, subs);
    ReconstructionInserted(s, jobId, subs, scans, sender);
    GlobalInsertedIs(s, jobId, scans);
    ReconstructionIds(jobId, subs, scans, sender);
    NoFailureYet(s0, s.core, jobId);
    GatheringFrom(s, TaskIdOf(jobId, GLOBAL_NAME), LocalIds(jobId, scans), {});
  }

  lemma NewReconstructionIs(run: seq<Action>, jobId: string, subs: seq<Submission>, scans: seq<string>, sender: string)
    requires NewReconstruction(run, jobId, subs, scans, sender)
    ensures IsRun(run) && jobId !in AfterRun(run).jobs && NoDash(jobId)
    ensures Submissions(subs, scans, sender) && NoDuplicates(scans)
  {
  }

  lemma AfterAcceptingIs(run: seq<Action>, jobId: string, subs: seq<Submission>)
    ensures AfterAccepting(run, jobId, subs) == AfterRun(run + AcceptRun(jobId, subs))
  {
  }

  lemma ReconstructionIds(jobId: string, subs: seq<Submission>, scans: seq<string>, sender: string)
    requires Submissions(subs, scans, sender)
    ensures Ids(jobId, subs) == LocalIds(jobId, scans) + {TaskIdOf(jobId, GLOBAL_NAME)}
  {
    SubmittedNames(subs, scans, sender);
    hide TaskIdOf, Submissions, LocalName;
    ReconstructionNeeds(jobId, subs, scans, sender);
    IdsStep(jobId, subs, |scans|);
    assert subs[..|scans| + 1] == subs;
  }

  /** The recruitment of a task that was not there yet cannot have failed. */
  lemma NoFailureYet(s0: System, c: Core, jobId: string)
    requires Inv(s0) && jobId !in s0.jobs && NoDash(jobId) && OnlyAdmissions(s0.core.log, c.log)
    requires TaskIdOf(jobId, GLOBAL_NAME) in c.tasks
    ensures MayHaveFailed(c, TaskIdOf(jobId, GLOBAL_NAME))
  {
    hide Inv;
    NewJobIsFresh(s0, jobId);
    InvIs(s0);
    KnownIn(s0);
    var g := TaskIdOf(jobId, GLOBAL_NAME);
    forall i | 0 <= i < |c.log|
      ensures c.log[i] != RecruitFailed(g)
    {
      if i < |s0.core.log| { assert s0.core.log[i].id in s0.core.stamp && c.log[i] == s0.core.log[i]; }
    }
  }

  lemma KnownIn(s: System)
    requires Inv(s)
    ensures Known(s.core.stamp, s.core.log)
  {
  }

  lemma ReconstructionInserted(s: System, jobId: string, subs: seq<Submission>, scans: seq<string>, sender: string)
    requires Submissions(subs, scans, sender) && InsertedSoFar(s.core, jobId, subs, |subs|)
    requires jobId in s.jobs && jobId !in s.accepting
    ensures Leaves(s, LocalIds(jobId, scans))
    ensures GlobalInserted(s, jobId, scans)
  {
    SubmittedNames(subs, scans, sender);
    hide TaskIdOf, IsLocalTask, IsGlobalTask, LocalName, GlobalInserted, InsertedSoFar;
    forall i | 0 <= i < |scans|
      ensures var d := TaskIdOf(jobId, LocalName(scans[i])); IsLeaf(s, d)
    {
      LocalInserted(s, jobId, subs, scans, sender, i);
    }
    InsertedAt(s.core, jobId, subs, |scans|);
    RequestedGlobal(s, jobId, scans, subs[|scans|].req, subs[|scans|].timeout.value);
  }

  lemma InsertedAt(c: Core, jobId: string, subs: seq<Submission>, i: nat)
    requires i < |subs| && InsertedSoFar(c, jobId, subs, |subs|)
    ensures var id := TaskIdOf(jobId, subs[i].req.name);
      id in c.tasks && subs[i].timeout.Some? && AsRequested(c.tasks[id], jobId, subs[i].req, subs[i].timeout.value)
  {
    hide AsRequested, TaskIdOf;
  }

  lemma LocalInserted(s: System, jobId: string, subs: seq<Submission>, scans: seq<string>, sender: string, i: nat)
    requires Submissions(subs, scans, sender) && InsertedSoFar(s.core, jobId, subs, |subs|) && i < |scans|
    requires jobId in s.jobs && jobId !in s.accepting
    ensures IsLeaf(s, TaskIdOf(jobId, LocalName(scans[i])))
  {
    SubmittedNames(subs, scans, sender);
    hide InsertedSoFar, TaskIdOf, LocalName, Submissions;
    InsertedAt(s.core, jobId, subs, i);
    NoNeeds(jobId);
  }

  lemma RequestedGlobal(s: System, jobId: string, scans: seq<string>, req: TaskRequest, timeout: nat)
    requires jobId in s.jobs && jobId !in s.accepting && TaskIdOf(jobId, GLOBAL_NAME) in s.core.tasks
    requires AsRequested(s.core.tasks[TaskIdOf(jobId, GLOBAL_NAME)], jobId, req, timeout)
    requires req.needs == LocalNames(scans) && req.resourceRecruitment.recruitmentPolicy == ALWAYS && req.data == Some(Any(GLOBAL_INPUT, []))
    ensures GlobalInserted(s, jobId, scans)
  {
    hide TaskIdOf, LocalName;
    assert NeedIds(jobId, LocalNames(scans)) == LocalIds(jobId, scans);
  }

  ghost predicate GlobalInserted(s: System, jobId: string, scans: seq<string>) {
    var g, tasks := TaskIdOf(jobId, GLOBAL_NAME), s.core.tasks;
      && IsAccepted(s, g) && g in tasks && tasks[g].jobId == jobId
      && tasks[g].dependencies.Keys == LocalIds(jobId, scans)
      && (forall d | d in tasks[g].dependencies :: !tasks[g].dependencies[d])
      && tasks[g].resourceRecruitment.recruitmentPolicy == ALWAYS
      && tasks[g].input == Some(Any(GLOBAL_INPUT, []))
  }

  lemma GlobalInsertedIs(s: System, jobId: string, scans: seq<string>)
    requires GlobalInserted(s, jobId, scans)
    ensures var g, tasks := TaskIdOf(jobId, GLOBAL_NAME), s.core.tasks;
      && IsAccepted(s, g) && g in tasks && tasks[g].jobId == jobId
      && tasks[g].dependencies.Keys == LocalIds(jobId, scans)
      && (forall d | d in tasks[g].dependencies :: !tasks[g].dependencies[d])
      && tasks[g].resourceRecruitment.recruitmentPolicy == ALWAYS
      && tasks[g].input == Some(Any(GLOBAL_INPUT, []))
  {
    hide TaskIdOf, LocalIds, IsAccepted;
  }

  // ---------- run_task: the input of a dispatched task ----------

  datatype Gather =
    | Gathered(outputs: seq<LocalRefinementOutputV1>)
    | Stopped(dependency: string)
    | Malformed(dependency: string)

  /** What one dependency contributes; `Malformed` is where the source would panic. */
  function Contribution(tasks: map<string, Handler>, dependencies: map<string, bool>, d: string): Gather {
    if d !in dependencies || !dependencies[d] || d !in tasks then Stopped(d)
    else
      match tasks[d].task.output
      case None => Stopped(d)
      case Some(output) =>
        match JobCodec.DeserializeLocal(output.value)
        case None => Malformed(d)
        case Some(local) => Gathered([local])
  }

  /** The outputs of all dependencies in the map's iteration order, up to the first one that is not there. */
  function GatherAll(tasks: map<string, Handler>, dependencies: map<string, bool>, order: seq<string>): Gather
    decreases |order|
  {
    if order == [] then Gathered([])
    else
      var before := GatherAll(tasks, dependencies, order[..|order| - 1]);
      if !before.Gathered? then before
      else
        match Contribution(tasks, dependencies, order[|order| - 1])
        case Gathered(one) => Gathered(before.outputs + one)
        case other => other
  }

  method OutputOf(tasks: map<string, Handler>, dependencies: map<string, bool>, d: string) returns (r: Gather)
    requires d in dependencies
    ensures r == Contribution(tasks, dependencies, d)
  {
    hide JobCodec.DeserializeLocal;
    if !dependencies[d] {
      return Stopped(d);
    }
    if d !in tasks {
      return Stopped(d);
    }
    match tasks[d].task.output {
      case None => return Stopped(d);
      case Some(output) =>
        match JobCodec.DeserializeLocal(output.value) {
          case None => return Malformed(d);
          case Some(local) => return Gathered([local]);
        }
    }
  }

  /** The loop over the dependency list. */
  method GatherOutputs(tasks: map<string, Handler>, dependencies: map<string, bool>, order: seq<string>) returns (r: Gather)
    requires IsOrder(order, dependencies.Keys)
    ensures r == GatherAll(tasks, dependencies, order)
  {
    hide Contribution;
    var gathered: seq<LocalRefinementOutputV1> := [];
    var k := 0;
    while k < |order|
      invariant 0 <= k <= |order|
      invariant GatherAll(tasks, dependencies, order[..k]) == Gathered(gathered)
    {
      assert order[k] in order;
      assert order[..k + 1][..k] == order[..k];
      var one := OutputOf(tasks, dependencies, order[k]);
      if !one.Gathered? {
        StopsHere(tasks, dependencies, order, k);
        return one;
      }
      gathered := gathered + one.outputs;
      k := k + 1;
    }
    assert order[..k] == order;
    return Gathered(gathered);
  }

  /** A dependency that contributes nothing decides the whole result. */
  lemma {:induction false} StopsHere(tasks: map<string, Handler>, dependencies: map<string, bool>, order: seq<string>, k: nat)
    requires k < |order| && GatherAll(tasks, dependencies, order[..k]).Gathered?
    requires !Contribution(tasks, dependencies, order[k]).Gathered?
    ensures GatherAll(tasks, dependencies, order) == Contribution(tasks, dependencies, order[k])
    decreases |order|
  {
    hide Contribution;
    if k < |order| - 1 {
      assert order[..|order| - 1][..k] == order[..k];
      StopsHere(tasks, dependencies, order[..|order| - 1], k);
    }
  }

  /** The bytes run_task sends to the worker; None when it returns before sending anything. */
  function RunInput(h: Handler, tasks: map<string, Handler>, order: seq<string>): Option<seq<Byte>> {
    match h.input
    case None => Some([])
    case Some(input) =>
      if input.typeUrl == GLOBAL_INPUT then
        if input.value == [] then
          match GatherAll(tasks, h.dependencies, order)
          case Gathered(outputs) =>
            var g := GlobalRefinementInputV1(outputs);
            Some(Framing.Frame(Codec.Delimited(JobCodec.GlobalSize(g), JobCodec.GlobalBody(g))))
          case _ => None
        else Some(Framing.Frame(input.value))
      else if input.typeUrl == LOCAL_INPUT then Some(Framing.Frame(input.value))
      else Some([])
  }

  /** How a worker reads its input: one frame, and in it one length-prefixed message. */
  function ReadInput<M>(bytes: seq<Byte>, default: M, arm: (M, Wire.Field) -> Option<M>): Option<M> {
    match Framing.ReadFrame(bytes)
    case None => None
    case Some((payload, _)) => Codec.Undelimited(payload, default, arm)
  }

  lemma FramedMessage<M>(body: seq<Byte>, default: M, arm: (M, Wire.Field) -> Option<M>)
    requires |Codec.Delimited(|body|, body)| < Codec.TWO_32
    ensures ReadInput(Framing.Frame(Codec.Delimited(|body|, body)), default, arm) == Wire.Absorb(body, default, arm)
  {
    hide Framing.ReadFrame, Framing.Frame, Codec.Undelimited, Wire.Varint;
    var message := Codec.Delimited(|body|, body);
    Framing.FrameRoundTrip(message, []);
    assert Framing.Frame(message) + [] == Framing.Frame(message);
    Codec.DelimitedRoundTrip(body, [], default, arm);
    assert message + [] == message;
  }

  /** The worker of a local refinement reads a query for exactly the data of its scan. */
  lemma LocalWorkerGetsItsScan(r: TaskRequest, scan: string, sender: string, h: Handler, tasks: map<string, Handler>, order: seq<string>)
    requires IsLocalTask(r, scan, sender) && h.input == r.data && |r.data.value.value| < 0x1_0000_0000
    ensures RunInput(h, tasks, order).Some?
    ensures AsksForScan(ReadInput(RunInput(h, tasks, order).value, LocalRefinementInputV1(DataCodec.NO_QUERY), DataCodec.LocalInputArm), scan)
  {
    hide Framing.Frame, Framing.ReadFrame, Codec.Undelimited, AsksForScan;
    var payload := r.data.value.value;
    Framing.FrameRoundTrip(payload, []);
    assert Framing.Frame(payload) + [] == Framing.Frame(payload);
  }

  /** Workers of different scans are asked for different data. */
  lemma DifferentScansDifferentInputs(r1: TaskRequest, scan1: string, r2: TaskRequest, scan2: string, sender: string)
    requires IsLocalTask(r1, scan1, sender) && IsLocalTask(r2, scan2, sender) && scan1 != scan2
    requires |r1.data.value.value| < 0x1_0000_0000 && |r2.data.value.value| < 0x1_0000_0000
    ensures r1.data != r2.data
  {
    assert (".*_" + scan1)[3..] == scan1 && (".*_" + scan2)[3..] == scan2;
    hide DataCodec.DeserializeLocalInput;
  }

  /** What run_task sends, by the type of the input: nothing without one or for a type it does not know. */
  lemma InputTable(h: Handler, tasks: map<string, Handler>, order: seq<string>)
    ensures h.input == None ==> RunInput(h, tasks, order) == Some([])
    ensures h.input.Some? && h.input.value.typeUrl !in {"LocalRefinementInputV1", "GlobalRefinementInputV1"} ==> RunInput(h, tasks, order) == Some([])
    ensures h.input.Some? ==>
      var any := h.input.value;
      (any.typeUrl == "LocalRefinementInputV1" || (any.typeUrl == "GlobalRefinementInputV1" && any.value != [])) && |any.value| < 0x1_0000_0000 ==>
        RunInput(h, tasks, order).Some? && Framing.ReadFrame(RunInput(h, tasks, order).value) == Some((any.value, []))
  {
    hide Framing.Frame, Framing.ReadFrame, GatherAll, JobCodec.GlobalBody, JobCodec.GlobalSize;
    if h.input.Some? && |h.input.value.value| < 0x1_0000_0000 {
      Framing.FrameRoundTrip(h.input.value.value, []);
      assert Framing.Frame(h.input.value.value) + [] == Framing.Frame(h.input.value.value);
    }
  }

  // ---------- What is gathered ----------

  /** An output as a local refinement's. */
  function Decoded(output: Option<Any>): Option<LocalRefinementOutputV1> {
    match output
    case None => None
    case Some(any) => JobCodec.DeserializeLocal(any.value)
  }

  /** Each of `order` has an output that can be read. */
  ghost predicate AllRead(outputs: map<string, Option<Any>>, order: seq<string>) {
    forall d | d in order :: d in outputs && Decoded(outputs[d]).Some?
  }

  ghost function InOrder(outputs: map<string, Option<Any>>, order: seq<string>): (r: seq<LocalRefinementOutputV1>)
    requires AllRead(outputs, order)
    ensures |r| == |order| && forall i | 0 <= i < |order| :: r[i] == Decoded(outputs[order[i]]).value
  {
    seq(|order|, i requires 0 <= i < |order| => Decoded(outputs[order[i]]).value)
  }

  ghost predicate HaveOutputs(tasks: map<string, Handler>, outputs: map<string, Option<Any>>) {
    forall d | d in outputs :: d in tasks && tasks[d].task.output == outputs[d]
  }

  lemma ContributesItsOutput(tasks: map<string, Handler>, dependencies: map<string, bool>, outputs: map<string, Option<Any>>, d: string)
    requires HaveOutputs(tasks, outputs) && d in outputs && d in dependencies && dependencies[d]
    ensures Contribution(tasks, dependencies, d).Gathered? <==> Decoded(outputs[d]).Some?
    ensures Decoded(outputs[d]).Some? ==> Contribution(tasks, dependencies, d) == Gathered([Decoded(outputs[d]).value])
  {
    hide JobCodec.DeserializeLocal;
  }

  /** Once every flag is set, gathering gives one output per dependency, or stops at one that cannot be read. */
  lemma {:induction false} GathersIffAllRead(tasks: map<string, Handler>, dependencies: map<string, bool>, order: seq<string>,
                                             outputs: map<string, Option<Any>>)
    requires HaveOutputs(tasks, outputs)
    requires forall d | d in order :: d in outputs && d in dependencies && dependencies[d]
    ensures GatherAll(tasks, dependencies, order).Gathered? <==> AllRead(outputs, order)
    ensures AllRead(outputs, order) ==> GatherAll(tasks, dependencies, order) == Gathered(InOrder(outputs, order))
    decreases |order|
  {
    hide HaveOutputs, Contribution, Decoded;
    if order == [] {
      assert InOrder(outputs, order) == [];
    } else {
      var n := |order| - 1;
      assert order == order[..n] + [order[n]];
      GathersIffAllRead(tasks, dependencies, order[..n], outputs);
      ContributesItsOutput(tasks, dependencies, outputs, order[n]);
      if AllRead(outputs, order) {
        assert InOrder(outputs, order) == InOrder(outputs, order[..n]) + [Decoded(outputs[order[n]]).value];
      }
    }
  }

  /** The input for a global refinement: there once all is gathered, and then read as what was gathered. */
  lemma GatheredInputIsRead(h: Handler, tasks: map<string, Handler>, order: seq<string>)
    requires h.input == Some(Any(GLOBAL_INPUT, []))
    ensures RunInput(h, tasks, order).Some? <==> GatherAll(tasks, h.dependencies, order).Gathered?
    ensures var gathered := GatherAll(tasks, h.dependencies, order);
      gathered.Gathered? && Fits(gathered.outputs) ==>
        ReadInput(RunInput(h, tasks, order).value, GlobalRefinementInputV1([]), JobCodec.GlobalArm)
        == Some(GlobalRefinementInputV1(gathered.outputs))
  {
    var gathered := GatherAll(tasks, h.dependencies, order);
    hide Framing.Frame, Framing.ReadFrame, JobCodec.GlobalBody, JobCodec.GlobalSize, GatherAll, Codec.Undelimited, Wire.Varint;
    if gathered.Gathered? && Fits(gathered.outputs) {
      var g := GlobalRefinementInputV1(gathered.outputs);
      FramedMessage(JobCodec.GlobalBody(g), GlobalRefinementInputV1([]), JobCodec.GlobalArm);
      JobCodec.GlobalRoundTrip(g);
    }
  }

  /** The gathered outputs fit into one frame, whose size has 32 bits. */
  ghost predicate Fits(outputs: seq<LocalRefinementOutputV1>) {
    var body := JobCodec.GlobalBody(GlobalRefinementInputV1(outputs));
    |Codec.Delimited(|body|, body)| < Codec.TWO_32
  }

  // ---------- From the job to the global refinement's input ----------

  lemma IdsOfNames(jobId: string, name1: string, name2: string)
    ensures TaskIdOf(jobId, name1) == TaskIdOf(jobId, name2) <==> name1 == name2
  {
    if TaskIdOf(jobId, name1) == TaskIdOf(jobId, name2) { SameJobIds(jobId, name1, name2); }
  }

  lemma {:induction false} AsManyIdsAsScans(jobId: string, scans: seq<string>)
    requires NoDuplicates(scans)
    ensures |LocalIds(jobId, scans)| == |scans|
    decreases |scans|
  {
    hide TaskIdOf, LocalName;
    if scans == [] {
      assert LocalIds(jobId, scans) == {};
    } else {
      var n := |scans| - 1;
      var id := TaskIdOf(jobId, LocalName(scans[n]));
      AsManyIdsAsScans(jobId, scans[..n]);
      assert LocalIds(jobId, scans) == LocalIds(jobId, scans[..n]) + {id} by {
        assert forall i | 0 <= i < n :: scans[..n][i] == scans[i];
      }
      forall i | 0 <= i < n
        ensures TaskIdOf(jobId, LocalName(scans[i])) != id
      {
        IdsOfNames(jobId, LocalName(scans[i]), LocalName(scans[n]));
        LocalNamesDiffer(scans[i], scans[n]);
      }
    }
  }

  /** A run that goes on in any way after a reconstruction job was accepted. */
  ghost predicate GoesOn(run: seq<Action>, jobId: string, subs: seq<Submission>, scans: seq<string>, sender: string, more: seq<Action>) {
    NewReconstruction(run, jobId, subs, scans, sender) && IsRun(run + AcceptRun(jobId, subs) + more)
  }

  ghost function Later(run: seq<Action>, jobId: string, subs: seq<Submission>, more: seq<Action>): System {
    AfterRun(run + AcceptRun(jobId, subs) + more)
  }

  lemma LaterIs(run: seq<Action>, jobId: string, subs: seq<Submission>, more: seq<Action>)
    ensures Later(run, jobId, subs, more) == AfterRun(run + AcceptRun(jobId, subs) + more)
    ensures AfterAccepting(run, jobId, subs) == AfterRun(run + AcceptRun(jobId, subs))
  {
  }

  lemma GoesOnIs(run: seq<Action>, jobId: string, subs: seq<Submission>, scans: seq<string>, sender: string, more: seq<Action>)
    requires GoesOn(run, jobId, subs, scans, sender, more)
    ensures NewReconstruction(run, jobId, subs, scans, sender) && NoDuplicates(scans)
    ensures IsRun(run + AcceptRun(jobId, subs) + more)
  {
  }

  lemma NeverFails(c: Core, g: string)
    requires g in c.tasks && MayHaveFailed(c, g) && c.tasks[g].resourceRecruitment.recruitmentPolicy == ALWAYS
    ensures multiset(c.log)[RecruitFailed(g)] == 0
  {
  }

  /**
    For any number of distinct scans and any run, with other jobs, nodes, dispatches and reports in
    between and local refinements reporting in any order, repeatedly or not at all: before the last of
    them has reported DONE the global refinement is neither queued nor asks for a node, and from then on
    it has done exactly one of the two.
   */
  lemma GlobalRefinementIsPlacedAtTheLastReport(
    run: seq<Action>, jobId: string, subs: seq<Submission>, scans: seq<string>, sender: string, more: seq<Action>)
    requires GoesOn(run, jobId, subs, scans, sender, more)
    ensures var c, g, open := Later(run, jobId, subs, more).core, TaskIdOf(jobId, GLOBAL_NAME), LocalIds(jobId, scans) - ReportedDone(more);
      && g in c.tasks
      && c.tasks[g].inDegrees == |open|
      && (open != {} ==> SchedulerSteps.NeverQueued(c.log, g) && c.tasks[g].nodeRequest.None?)
      && (open == {} ==> Made(c.log, g) + Asking(c.tasks[g]) == 1)
    ensures |LocalIds(jobId, scans)| == |scans|
  {
    hide *;
    var run1, g, needs := run + AcceptRun(jobId, subs), TaskIdOf(jobId, GLOBAL_NAME), LocalIds(jobId, scans);
    GoesOnIs(run, jobId, subs, scans, sender, more);
    LaterIs(run, jobId, subs, more);
    ReconstructionIsAccepted(run, jobId, subs, scans, sender);
    AsManyIdsAsScans(jobId, scans);
    FanInPlacesAtTheLastReport(run1, more, g, needs);
    RunGathers(run1, more, g, needs);
    AfterAcceptingIs(run, jobId, subs);
    SameRequestIs(AfterRun(run1).core.tasks[g], AfterRun(run1 + more).core.tasks[g]);
    NeverFails(AfterRun(run1 + more).core, g);
    NothingOpen(needs, ReportedDone(more));
  }

  lemma NothingOpen(needs: set<string>, done: set<string>)
    ensures needs - done == {} <==> needs <= done
  {
    forall d | d in needs && d !in done
      ensures d in needs - done
    {
    }
  }

  lemma SameRequestIs(h: Handler, h': Handler)
    requires SameRequest(h, h')
    ensures h'.input == h.input && h'.resourceRecruitment == h.resourceRecruitment
  {
  }

  /**
    With the lock held as it is, reporting any local refinement as FAILED never comes to an end, in any
    later state: the global refinement depends on it.
   */
  lemma FailingALocalRefinementBlocks(
    run: seq<Action>, jobId: string, subs: seq<Submission>, scans: seq<string>, sender: string, more: seq<Action>, i: nat, order: seq<string>)
    requires GoesOn(run, jobId, subs, scans, sender, more) && i < |scans|
    requires IsOrder(order, Later(run, jobId, subs, more).core.tasks.Keys)
    ensures var tasks, d := Later(run, jobId, subs, more).core.tasks, TaskIdOf(jobId, LocalName(scans[i]));
      d in tasks && FailedTasks.FailHoldingTheLock(tasks, d, order) == FailedTasks.Blocked
  {
    hide *;
    var run1, g, needs := run + AcceptRun(jobId, subs), TaskIdOf(jobId, GLOBAL_NAME), LocalIds(jobId, scans);
    var d, tasks := TaskIdOf(jobId, LocalName(scans[i])), Later(run, jobId, subs, more).core.tasks;
    GoesOnIs(run, jobId, subs, scans, sender, more);
    LaterIs(run, jobId, subs, more);
    ReconstructionIsAccepted(run, jobId, subs, scans, sender);
    LocalIdIs(jobId, scans, i);
    RunGathers(run1, more, g, needs);
    GatheringIs(AfterRun(run1 + more), g, needs, ReportedDone(more));
    RunKeeps(run1 + more);
    ReportedOutputs(run1, more, needs);
    LastOutputsOf(more, needs);
    HasOutput(tasks, LastOutputs(more, needs), d);
    FailedTasks.FailEndsIffNobodyDepends(tasks, d, order);
    Unfinished(FailedTasks.FailHoldingTheLock(tasks, d, order));
  }

  lemma LocalIdIs(jobId: string, scans: seq<string>, i: nat)
    requires i < |scans|
    ensures TaskIdOf(jobId, LocalName(scans[i])) in LocalIds(jobId, scans)
  {
  }

  lemma HasOutput(tasks: map<string, Handler>, outputs: map<string, Option<Any>>, d: string)
    requires HaveOutputs(tasks, outputs) && d in outputs
    ensures d in tasks
  {
  }

  lemma Unfinished(attempt: FailedTasks.Attempt)
    requires !attempt.Finished?
    ensures attempt == FailedTasks.Blocked
  {
  }

  /**
    In every state after a reconstruction job was accepted, each local refinement has an input from which
    its worker reads a query for exactly the data of its scan.
   */
  lemma LocalRefinementIsAskedForItsScan(
    run: seq<Action>, jobId: string, subs: seq<Submission>, scans: seq<string>, sender: string, more: seq<Action>, i: nat, order: seq<string>)
    requires GoesOn(run, jobId, subs, scans, sender, more) && i < |scans|
    requires i < |subs| && subs[i].req.data.Some? && |subs[i].req.data.value.value| < 0x1_0000_0000
    ensures var tasks, id := Later(run, jobId, subs, more).core.tasks, TaskIdOf(jobId, "local_refinement_" + scans[i]);
      && id in tasks && RunInput(tasks[id], tasks, order).Some?
      && AsksForScan(ReadInput(RunInput(tasks[id], tasks, order).value, LocalRefinementInputV1(DataCodec.NO_QUERY), DataCodec.LocalInputArm), scans[i])
  {
    hide *;
    var run1, accepts := run + AcceptRun(jobId, subs), seq(|subs| + 1, _ => Accept(jobId));
    GoesOnIs(run, jobId, subs, scans, sender, more);
    LaterIs(run, jobId, subs, more);
    ReconstructionIsAccepted(run, jobId, subs, scans, sender);
    DecidedForGood(run1, jobId, more);
    InJobTasks(AfterRun(run1).core.tasks, jobId, TaskIdOf(jobId, GLOBAL_NAME));
    AcceptRunParts(jobId, subs);
    assert run1 + more == run + [Submit(jobId, subs)] + (accepts + more);
    AcceptedWholeOrNotAtAll(run, jobId, subs, accepts + more);
    AllOrNothingIs(AfterRun(run1 + more), jobId, subs);
    NewReconstructionIs(run, jobId, subs, scans, sender);
    SubmittedLocal(subs, scans, sender, i);
    var tasks := AfterRun(run1 + more).core.tasks;
    HeldInput(tasks, jobId, subs, i);
    var id := TaskIdOf(jobId, subs[i].req.name);
    LocalWorkerGetsItsScan(subs[i].req, scans[i], sender, tasks[id], tasks, order);
  }

  lemma InJobTasks(tasks: map<string, Handler>, jobId: string, id: string)
    requires id in tasks && tasks[id].jobId == jobId
    ensures JobTasks(tasks, jobId) != {}
  {
    assert id in JobTasks(tasks, jobId);
  }

  lemma AcceptRunParts(jobId: string, subs: seq<Submission>)
    ensures AcceptRun(jobId, subs) == [Submit(jobId, subs)] + seq(|subs| + 1, _ => Accept(jobId))
  {
  }

  lemma SubmittedLocal(subs: seq<Submission>, scans: seq<string>, sender: string, i: nat)
    requires Submissions(subs, scans, sender) && i < |scans|
    ensures i < |subs| && IsLocalTask(subs[i].req, scans[i], sender) && subs[i].req.name == "local_refinement_" + scans[i]
  {
    hide AsksForScan;
  }

  lemma HeldInput(tasks: map<string, Handler>, jobId: string, subs: seq<Submission>, i: nat)
    requires Holds(tasks, jobId, subs, |subs|) && i < |subs|
    ensures var id := TaskIdOf(jobId, subs[i].req.name); id in tasks && tasks[id].input == subs[i].req.data
  {
    hide TaskIdOf, Ids;
    assert AssignedAt(tasks, jobId, subs[i]);
  }

  /** What the local refinements reported last. */
  ghost function LastOutputs(more: seq<Action>, ids: set<string>): map<string, Option<Any>> {
    map d | d in ids :: LastOutput(more, d, None)
  }

  lemma ReportedOutputs(run: seq<Action>, more: seq<Action>, ids: set<string>)
    requires IsRun(run) && IsRun(run + more) && Leaves(AfterRun(run), ids)
    ensures HaveOutputs(AfterRun(run + more).core.tasks, LastOutputs(more, ids))
  {
    hide IsRun, AfterRun, IsAccepted, LastOutput;
    forall d | d in ids
      ensures var tasks := AfterRun(run + more).core.tasks; d in tasks && tasks[d].task.output == LastOutput(more, d, None)
    {
      LeafIs(AfterRun(run), ids, d);
      OutputIsTheLastReported(run, more, d);
      AcceptedIs(AfterRun(run + more), d);
    }
  }

  lemma LeafIs(s: System, ids: set<string>, d: string)
    requires Leaves(s, ids) && d in ids
    ensures IsAccepted(s, d) && d in s.core.tasks
    ensures s.core.tasks[d].dependencies == map[] && s.core.tasks[d].task.output == None
  {
  }

  /** The k-th step dispatches the global refinement. */
  ghost predicate DispatchesGlobal(run: seq<Action>, jobId: string, subs: seq<Submission>, more: seq<Action>, k: nat) {
    && k < |more| && more[k] == Dispatch
    && var queue := Later(run, jobId, subs, more[..k]).core.queue;
       queue != [] && queue[0] == TaskIdOf(jobId, GLOBAL_NAME)
  }

  /** The snapshot that get_next_task hands to run_task: the global refinement with every flag set. */
  lemma DispatchedGlobal(run: seq<Action>, jobId: string, subs: seq<Submission>, scans: seq<string>, sender: string, more: seq<Action>, k: nat)
    requires GoesOn(run, jobId, subs, scans, sender, more) && DispatchesGlobal(run, jobId, subs, more, k)
    ensures var h := Next(Later(run, jobId, subs, more[..k]).core).1;
      && h.Some? && h.value.input == Some(Any(GLOBAL_INPUT, []))
      && h.value.dependencies.Keys == LocalIds(jobId, scans)
      && forall d | d in LocalIds(jobId, scans) :: h.value.dependencies[d]
  {
    hide *;
    var run1, g, needs := run + AcceptRun(jobId, subs), TaskIdOf(jobId, GLOBAL_NAME), LocalIds(jobId, scans);
    DispatchesGlobalIs(run, jobId, subs, more, k);
    var s := AfterRun(run1 + more[..k]);
    GoesOnIs(run, jobId, subs, scans, sender, more);
    assert (run1 + more)[..|run1| + k] == run1 + more[..k];
    IsRunPrefix(run1 + more, |run1| + k);
    ReconstructionIsAccepted(run, jobId, subs, scans, sender);
    AfterAcceptingIs(run, jobId, subs);
    RunGathers(run1, more[..k], g, needs);
    GatheringIs(s, g, needs, ReportedDone(more[..k]));
    SameRequestIs(AfterRun(run1).core.tasks[g], s.core.tasks[g]);
    InvIs(s);
    SnapshotIs(s.core, s.accepting, s.jobs);
    QueuedWaitsForNothing(s.core, s.accepting, s.jobs, g);
    NextGives(s.core);
  }

  lemma DispatchesGlobalIs(run: seq<Action>, jobId: string, subs: seq<Submission>, more: seq<Action>, k: nat)
    requires DispatchesGlobal(run, jobId, subs, more, k)
    ensures k < |more|
    ensures Later(run, jobId, subs, more[..k]) == AfterRun(run + AcceptRun(jobId, subs) + more[..k])
    ensures var queue := Later(run, jobId, subs, more[..k]).core.queue; queue != [] && queue[0] == TaskIdOf(jobId, GLOBAL_NAME)
  {
    hide AfterRun, TaskIdOf;
  }

  lemma NextGives(c: Core)
    requires c.queue != [] && c.queue[0] in c.tasks
    ensures Next(c).1 == Some(c.tasks[c.queue[0]])
  {
  }

  /**
    run_task for a dispatched global refinement, at any later moment: it finds an input exactly when
    what each local refinement last reported has an output that can be read, and its worker then reads
    exactly one output per scan. No flag is ever open; the only obstacle is a task stored without its output.
   */
  lemma GlobalRefinementRunsIffAllRead(
    run: seq<Action>, jobId: string, subs: seq<Submission>, scans: seq<string>, sender: string, more: seq<Action>, k: nat, order: seq<string>)
    requires GoesOn(run, jobId, subs, scans, sender, more) && DispatchesGlobal(run, jobId, subs, more, k)
    requires IsOrder(order, LocalIds(jobId, scans))
    ensures var h, tasks := Next(Later(run, jobId, subs, more[..k]).core).1, Later(run, jobId, subs, more).core.tasks;
      var outputs := LastOutputs(more, LocalIds(jobId, scans));
      && h.Some?
      && (RunInput(h.value, tasks, order).Some? <==> AllRead(outputs, order))
      && (AllRead(outputs, order) && Fits(InOrder(outputs, order)) ==>
            ReadInput(RunInput(h.value, tasks, order).value, GlobalRefinementInputV1([]), JobCodec.GlobalArm)
            == Some(GlobalRefinementInputV1(InOrder(outputs, order))))
  {
    hide *;
    DispatchesGlobalIs(run, jobId, subs, more, k);
    var run1, needs := run + AcceptRun(jobId, subs), LocalIds(jobId, scans);
    var h, tasks := Next(Later(run, jobId, subs, more[..k]).core).1, Later(run, jobId, subs, more).core.tasks;
    GoesOnIs(run, jobId, subs, scans, sender, more);
    ReconstructionIsAccepted(run, jobId, subs, scans, sender);
    LaterIs(run, jobId, subs, more);
    ReportedOutputs(run1, more, needs);
    LastOutputsOf(more, needs);
    DispatchedGlobal(run, jobId, subs, scans, sender, more, k);
    OrderIsWithin(order, needs);
    GathersIffAllRead(tasks, h.value.dependencies, order, LastOutputs(more, needs));
    GatheredInputIsRead(h.value, tasks, order);
  }

  lemma LastOutputsOf(more: seq<Action>, ids: set<string>)
    ensures LastOutputs(more, ids).Keys == ids && forall d | d in ids :: LastOutputs(more, ids)[d] == LastOutput(more, d, None)
  {
  }

  /** Each local refinement last reported its result, serialized. */
  ghost predicate Reported(more: seq<Action>, ids: set<string>, outs: map<string, LocalRefinementOutputV1>) {
    forall d | d in ids ::
      && d in outs && |JobCodec.LocalBody(outs[d])| < Codec.TWO_32
      && LastOutput(more, d, None).Some?
      && LastOutput(more, d, None).value.value == JobCodec.SerializeLocal(outs[d])
  }

  lemma ReportedAreRead(more: seq<Action>, ids: set<string>, outs: map<string, LocalRefinementOutputV1>, d: string)
    requires Reported(more, ids, outs) && d in ids
    ensures d in outs && Decoded(LastOutput(more, d, None)) == Some(outs[d])
  {
    JobCodec.LocalRoundTrip(outs[d]);
    hide JobCodec.SerializeLocal, JobCodec.DeserializeLocal, JobCodec.LocalBody, LastOutput;
  }

  /** run_task finds an input for the snapshot, and its worker reads these results from it. */
  ghost predicate WorkerReads(h: Option<Handler>, tasks: map<string, Handler>, order: seq<string>, results: seq<LocalRefinementOutputV1>) {
    && h.Some? && RunInput(h.value, tasks, order).Some?
    && (Fits(results) ==>
          ReadInput(RunInput(h.value, tasks, order).value, GlobalRefinementInputV1([]), JobCodec.GlobalArm)
          == Some(GlobalRefinementInputV1(results)))
  }

  ghost predicate AreResults(results: seq<LocalRefinementOutputV1>, outs: map<string, LocalRefinementOutputV1>, order: seq<string>) {
    |results| == |order| && forall i | 0 <= i < |order| :: order[i] in outs && results[i] == outs[order[i]]
  }

  /**
    When each local refinement's last report carries its result, the global refinement's worker reads
    exactly one result per scan, in the order in which the dependencies are iterated.
   */
  lemma GlobalRefinementGetsEveryOutput(
    run: seq<Action>, jobId: string, subs: seq<Submission>, scans: seq<string>, sender: string, more: seq<Action>, k: nat, order: seq<string>,
    outs: map<string, LocalRefinementOutputV1>, results: seq<LocalRefinementOutputV1>)
    requires GoesOn(run, jobId, subs, scans, sender, more) && DispatchesGlobal(run, jobId, subs, more, k)
    requires IsOrder(order, LocalIds(jobId, scans)) && Reported(more, LocalIds(jobId, scans), outs) && AreResults(results, outs, order)
    ensures |results| == |scans|
    ensures WorkerReads(Next(Later(run, jobId, subs, more[..k]).core).1, Later(run, jobId, subs, more).core.tasks, order, results)
  {
    hide *;
    var needs := LocalIds(jobId, scans);
    GoesOnIs(run, jobId, subs, scans, sender, more);
    DispatchesGlobalIs(run, jobId, subs, more, k);
    AsManyIdsAsScans(jobId, scans);
    AsManyInOrder(order, needs);
    LastOutputsOf(more, needs);
    OrderIsWithin(order, needs);
    ReadInOrder(more, needs, outs, order, results);
    GlobalRefinementRunsIffAllRead(run, jobId, subs, scans, sender, more, k, order);
    ReadsThem(Next(Later(run, jobId, subs, more[..k]).core).1, Later(run, jobId, subs, more).core.tasks, LastOutputs(more, needs), order, results);
  }

  lemma ReadsThem(h: Option<Handler>, tasks: map<string, Handler>, outputs: map<string, Option<Any>>, order: seq<string>,
                  results: seq<LocalRefinementOutputV1>)
    requires h.Some? && AllRead(outputs, order) && results == InOrder(outputs, order) && RunInput(h.value, tasks, order).Some?
    requires Fits(results) ==>
      ReadInput(RunInput(h.value, tasks, order).value, GlobalRefinementInputV1([]), JobCodec.GlobalArm) == Some(GlobalRefinementInputV1(results))
    ensures WorkerReads(h, tasks, order, results)
  {
    hide RunInput, ReadInput, Fits, AllRead, InOrder;
  }

  lemma ReadInOrder(more: seq<Action>, ids: set<string>, outs: map<string, LocalRefinementOutputV1>, order: seq<string>,
                    results: seq<LocalRefinementOutputV1>)
    requires Reported(more, ids, outs) && AreResults(results, outs, order) && forall d :: d in order <==> d in ids
    ensures AllRead(LastOutputs(more, ids), order) && InOrder(LastOutputs(more, ids), order) == results
  {
    hide Reported, LastOutput, LastOutputs, Decoded;
    LastOutputsOf(more, ids);
    forall d | d in order
      ensures d in LastOutputs(more, ids) && d in outs && Decoded(LastOutputs(more, ids)[d]) == Some(outs[d])
    {
      ReportedAreRead(more, ids, outs, d);
    }
  }

  lemma {:induction false} AsManyInOrder(order: seq<string>, ids: set<string>)
    requires IsOrder(order, ids)
    ensures |order| == |ids|
    decreases |order|
  {
    if order == [] {
      assert ids == {};
    } else {
      var n := |order| - 1;
      assert order == order[..n] + [order[n]];
      AsManyInOrder(order[..n], ids - {order[n]});
    }
  }

  /**
    A report without an output, such as the one that run_task itself makes after sending a task, wipes
    out the result of a local refinement that had already reported DONE. The global refinement, once
    dispatched, is then dropped without a word.
   */
  lemma LateReportStopsTheGlobalRefinement(
    run: seq<Action>, jobId: string, subs: seq<Submission>, scans: seq<string>, sender: string, more: seq<Action>, k: nat, order: seq<string>,
    late: Action)
    requires GoesOn(run, jobId, subs, scans, sender, more + [late]) && DispatchesGlobal(run, jobId, subs, more + [late], k)
    requires IsOrder(order, LocalIds(jobId, scans))
    requires late.Report? && late.task.output.None? && ReportKey(late) in LocalIds(jobId, scans)
    ensures var h, tasks := Next(Later(run, jobId, subs, (more + [late])[..k]).core).1, Later(run, jobId, subs, more + [late]).core.tasks;
      h.Some? && RunInput(h.value, tasks, order).None?
  {
    hide *;
    var needs, all := LocalIds(jobId, scans), more + [late];
    DispatchesGlobalIs(run, jobId, subs, all, k);
    LateIsLast(more, late);
    LastOutputsOf(all, needs);
    OrderIsWithin(order, needs);
    NotAllRead(LastOutputs(all, needs), order, ReportKey(late));
    GlobalRefinementRunsIffAllRead(run, jobId, subs, scans, sender, all, k, order);
  }

  lemma LateIsLast(more: seq<Action>, late: Action)
    requires late.Report? && late.task.output.None?
    ensures LastOutput(more + [late], ReportKey(late), None) == None
  {
    hide ReportKey;
  }

  lemma NotAllRead(outputs: map<string, Option<Any>>, order: seq<string>, d: string)
    requires d in order && d in outputs && outputs[d] == None
    ensures !AllRead(outputs, order)
  {
  }
}
