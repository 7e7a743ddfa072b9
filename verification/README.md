# Verified model of the posemesh domain services

A Dafny model of the parts of the repository whose behaviour is hardest to see from the code, with
proofs. `dafny verify dfyconfig.toml` checks the whole project.

**The domain manager's task scheduler.** Tasks wait for dependencies, recruit a node, enter a FIFO
queue and are dispatched; Done, Fail and Retry reports change them. `Scheduler` has the state and one
function per locked section; `log` and `stamp` are its history, from which the properties of whole runs
are read. A run is a sequence of `Action`s, each taking effect at once, in any interleaving: submitting a
job, one request of accept_job's loop, a node that joins, a recruitment that receives its node, a
dispatch or one that is interrupted between its locks, a status report, a retry. `SchedulerInvariant`,
`SchedulerSteps` and `SchedulerRuns` prove the invariant of every run; `SchedulerProperties`,
`SchedulerAdmission`, `AcceptedJobs`, `AcceptedTasks`, `AdmissionRuns`, `DispatchedTasks`, `RetryLimit`,
`FanIn`, `Reconstruction`, `Recruitments`, `FailedRecruitments` and `Receivers` draw the promises from it, and
`ReachableFailures` has runs in which some are not kept. `TaskActions` says branch by branch, on the fields, what
the actions on one task do. `Nodes` and `NodesProperties` are about the pool of worker nodes. `WorkerNodes`,
`TaskScheduler` and `DomainManagement` are the objects whose fields are updated in place, each method proved
to do what its function says.

What a run is assumed to do is stated in `Scheduler.Allowed`: a job id is used once and has no '-', task
names within a job are distinct, and a report names its job by such an id and repeats the task's
receiver, which update_task overwrites with the rest of the task. For the domain manager's own reports
the last one is proved, not assumed. Where the order of a hash map matters it is a parameter.

**The message codec and the data path.** `Wire`, `Codec`, `TaskCodec`, `JobCodec` and `DataCodec` are the
generated readers and writers as folds over fields, following the Protocol Buffers Encoding specification
("Base 128 Varints", "Length-Delimited Records", "Maps"); `MessageWriter` has the writers as they append
to a buffer, `FieldNumbers` what given bytes mean by the numbers of the .proto files. `Framing` is the
4-byte size in front of every message. `Transfer`, `TransferProperties` and `DataStreams` follow records
from a producer into a data node's files and on to a consumer; `Producer` counts the acknowledgements. A
data id is taken to be a single path component, as the generated ones are, and somebody is taken to read
a producer's progress.

**The interface generator and the C lists.** `GeneratedOps` is the meaning of the generated operator==,
std::hash and copy constructor, `NameStyles` the conversion of names. `ConfigLists` is the packing of the
C binding's string lists into one buffer and back, `JoinedLists` their validation and their way, joined,
cut and split, to the network layer.

Some things one would expect do not hold of the code; each is proved with its exact condition and, where
that alone does not show it, with an input or a run in which it fails:

- `Fail` asks for the lock on the task map that its caller holds, so as written it only ends when nobody
  depends on the failed task (`FailedTasks.FailEndsIffNobodyDepends`); for the local refinements of a
  reconstruction it never does (`Reconstruction.FailingALocalRefinementBlocks`). Everywhere else `Fail`
  is the recursion as it is meant, over the map that is already locked.
- `retries` is tested but never incremented (`RetryLimit.RetryLimitIsNeverReached`), and the output meant
  for the limit could not be read by monitor_tasks (`Scheduler.RetryLimitOutputIsUnreadable`).
- A completion from before a task was inserted is not seen by it (`SchedulerProperties.MissedCompletionsBlock`),
  and accept_job leaves room for one (`ReachableFailures.CompletionBeforeInsertionIsLost`).
- get_next_task, a branch of the event loop's select, loses the id it has popped when it is dropped between
  its two locks (`SchedulerProperties.QueueIsFifo`).
- A report without an output, such as run_task's own after sending, wipes out the output of a task that had
  reported DONE before it; the global refinement is then dropped
  (`Reconstruction.LateReportStopsTheGlobalRefinement`).
- Round robin is fair across the counter's wrap-around only for pools whose size divides 2^64
  (`NodesProperties.AlwaysFairIffPoolDividesRange`), and an aborted request can leave a live one waiting
  beside a pool (`NodesProperties.OfferStarvesIffFrontIsDead`, `ReachableFailures.RefusedJobStarvesAnother`).
- Content uploaded under an id that is used again is appended to what the id's file holds
  (`TransferProperties.RepeatedIdsAppend`), and of a content that is cut off whole chunks stay behind
  (`TransferProperties.CutContentIsStoredInChunks`).
- Frames carry sizes modulo 2^32 (`Framing.FrameRoundTrip`).
- Acknowledgements that come before registration, twice or for unknown ids distort the progress, and the first
  one that comes before every registration or after a close ends the counting for good
  (`Producer.ProgressIsSoundIff`, `Producer.EndedIffFatal`, `Producer.EarlyAcknowledgementIsLost`,
  `Producer.FirstAcknowledgementDividesByZero`, `Producer.AcknowledgementAfterCloseIsFatal`,
  `Producer.PushAfterCloseIsLost`).
- A configured list reaches the network layer cut at its first NUL and without its empty string, and is a
  panic if it is not UTF-8 (`JoinedLists.AcceptedListsSurvive`, `JoinedLists.NulLosesTheRest`); the buffer of
  the C binding is overrun by 2^32 - 1 strings (`ConfigLists.OverrunAt`).
- Names lose their words in the camel styles (`NameStyles.WordsSurviveIff`), and objects with null pointers
  cannot be copied (`GeneratedOps.CopyExistsIffNoNull`).

## Model

| member | source | states |
|---|---|---|
| SchedulerProperties.QueuedAfterItsDependencies | core/examples/domain-manager/src/tasks_management.rs:387-414 | In every run, an id enters the queue only after its task was inserted and each of the dependencies it was inserted with went through a Done action after that |
| SchedulerProperties.DispatchOrderIsTopological | core/examples/domain-manager/src/tasks_management.rs:229-234 | If workers report DONE only for tasks dispatched to them, every task is dispatched after all its needs: dispatch order is a topological order of the needs graph |
| SchedulerProperties.QueuedTasksAreReady | core/examples/domain-manager/src/tasks_management.rs:58-60 | Whatever was ever queued has in-degree 0 and a receiver for as long as it lives, so unwrapping the receiver in run_task cannot fail |
| SchedulerProperties.QueueIsFifo | core/examples/domain-manager/src/tasks_management.rs:229-234 | What was queued is, in order, what left the queue and then what is still in it: nothing is reordered or invented. What left the queue was all dispatched exactly when no get_next_task was dropped between its two locks by the event loop's select; each one that was loses an id |
| SchedulerProperties.ReadyTasksHaveExactlyOnePlace | core/examples/domain-manager/src/tasks_management.rs:387-414 | A live task with in-degree 0 has exactly one of: its first enqueue made, a node request outstanding, a failed recruitment, a slot in accept_job's list; any other live task has none |
| SchedulerProperties.AtMostOneEnqueueBesidesRetries | core/examples/domain-manager/src/tasks_management.rs:340-351 | A live task enters the queue at most once more than it was queued by a Retry |
| SchedulerProperties.RecruitmentsAreNotLost | core/examples/domain-manager/src/tasks_management.rs:436-461 | Every outstanding node request names a task that is still in the map, and its ticket waits in its endpoint's queue or has been sent a node |
| SchedulerProperties.ReadyIffDependenciesCompletedSinceInsertion | core/examples/domain-manager/src/tasks_management.rs:395-399 | in_degrees is the number of false flags; a flag is set exactly when its dependency completed after the task was inserted, and the in-degree is 0 exactly when all did |
| SchedulerProperties.MissedCompletionsBlock | core/examples/domain-manager/src/tasks_management.rs:395-399 | A completion from before a task's insertion does not count: until the dependency completes again the task is not queued and asks for no node |
| ReachableFailures.CompletionBeforeInsertionIsLost | core/examples/domain-manager/src/main.rs:159-180 | A run with honest workers in which the first task of a job completes between two steps of accept_job: the second, which needs it, stays blocked in every continuation until the first is reported DONE once more |
| SchedulerProperties.FlagsOnlyRise | core/examples/domain-manager/src/tasks_management.rs:395-398 | Over any step of a run a dependency flag of a surviving task only goes from false to true |
| SchedulerProperties.DecrementNeverUnderflows | core/examples/domain-manager/src/tasks_management.rs:397-398 | At every iteration of the Done loop that decrements, in_degrees is positive, whatever the map iteration order |
| SchedulerProperties.DoneForNobodyIsIdle | core/examples/domain-manager/src/tasks_management.rs:394-413 | A Done for a key that no flag waits for changes no dependency, no pool and queues nothing |
| SchedulerProperties.NobodyWaitsAfterDone | core/examples/domain-manager/src/tasks_management.rs:394-413 | After a Done for a key no flag of any task waits for it, so repeating it is idle |
| SchedulerProperties.NeedsAreEarlierTasksOfTheSameJob | core/examples/domain-manager/src/tasks_management.rs:178-204 | In every reachable state each dependency of a task is in the map, belongs to the same job and was inserted earlier |
| SchedulerProperties.NeedsGraphIsAcyclic | core/examples/domain-manager/src/tasks_management.rs:178-204 | In every reachable state no path of needs leads from a task back to itself |
| SchedulerInvariant.TaskIdIsInjective | core/examples/domain-manager/src/tasks_management.rs:96-98 | For job ids without '-', such as hexadecimal digests, a task id determines the job id and the task name |
| SchedulerRuns.StepKeeps | core/examples/domain-manager/src/main.rs:73-138 | Every step of the domain manager's event loop keeps the scheduler's whole invariant |
| SchedulerRuns.RunKeeps | core/examples/domain-manager/src/main.rs:73-138 | The whole invariant holds after every run, for any interleaving of steps and any map iteration orders |
| FailedRecruitments.FailedRecruitmentIsShown | core/examples/domain-manager/src/tasks_management.rs:398-403 | Whenever in a run the recruitment for a task fails, the step leaves the task FAILED, without a node request, and with an output of type Error that monitor_tasks reads as the reason with the task's name |
| Receivers.QueuedTasksGoToOfferingNodes | core/examples/domain-manager/src/tasks_management.rs:428-461 | In every run, a task that was queued, other than by a retry alone, has as its receiver a node that joined and offered the endpoint the task asks for, whether it was found in a pool, received later, or recruited when the last need was done |
| RetryLimit.RetryQueuesExactlyTheReady | core/examples/domain-manager/src/tasks_management.rs:328-361 | A Retry succeeds exactly on a RETRY or FAILED task below the limit; it queues the task, as PENDING, exactly when it is ready, and touches no other task |
| TaskActions.RetryTable | core/examples/domain-manager/src/tasks_management.rs:328-361 | Retry, branch by branch on the fields: refused unless RETRY or FAILED, FAILED for good from three retries on, else PENDING and queued when nothing is waited for and there is a receiver, else WAITING_FOR_RESOURCE |
| TaskActions.KnownTaskTable | core/examples/domain-manager/src/tasks_management.rs:150-176 | validate_task for a task that exists, by its status: as it is for WAITING_FOR_RESOURCE, ready for DONE, refused while it is PENDING, STARTED or PROCESSING, and past the retry limit |
| TaskActions.KnownTaskWaitsAgain | core/examples/domain-manager/src/tasks_management.rs:150-204 | A RETRY or FAILED task that is requested again with needs waits for all of them again, even when the retry has queued it |
| TaskActions.ReportIsStored | core/examples/domain-manager/src/tasks_management.rs:237-266 | A report about an unknown task changes nothing; one of PENDING, STARTED, PROCESSING or WAITING_FOR_RESOURCE is stored and changes nothing else |
| TaskActions.ReportedRetry | core/examples/domain-manager/src/tasks_management.rs:237-266 | A RETRY report is stored as PENDING and queues the task if it waits for nothing and names a receiver, and as WAITING_FOR_RESOURCE otherwise |
| TaskActions.ReportedFailureSpreads | core/examples/domain-manager/src/tasks_management.rs:415-425 | A FAILED report marks the task and exactly its transitive dependents, and leaves every other task, the queue and the pool alone |
| TaskActions.DoneTable | core/examples/domain-manager/src/tasks_management.rs:387-394 | Done is accepted for PROCESSING, STARTED and DONE, makes the task DONE and notes its completion once before the loop; otherwise nothing changes |
| RetryLimit.RetryLimitIsNeverReached | core/examples/domain-manager/src/tasks_management.rs:331-338 | Since retries is never incremented, in no run does the limit refuse a retry |
| Scheduler.RetryLimitOutputIsUnreadable | core/examples/domain-manager/src/tasks_management.rs:284-289 | The literal output of a task past the retry limit does not decode as the message monitor_tasks expects |
| Codec.ErrorRoundTrip | core/examples/domain-manager/src/tasks_management.rs:61-73 | monitor_tasks reads back the message that a failed task was given |
| TaskScheduler.TasksManagement.RecruitNode | core/examples/domain-manager/src/tasks_management.rs:428-465 | A found node becomes the receiver; without one the task fails under the FAIL policy and otherwise opens a node request; pool, requests and handler are exactly those of `Recruit` |
| TaskScheduler.TasksManagement.HandlerFailed | core/examples/domain-manager/src/tasks_management.rs:61-73 | The handler is FAILED, has no node request and an output of type Error that monitor_tasks reads as the message, unless it is near 4 GiB; everything else in it is as before, and the request it had is aborted |
| TaskScheduler.TasksManagement.RetryAction | core/examples/domain-manager/src/tasks_management.rs:328-361 | In place, the state and result of `Retry` |
| TaskScheduler.TasksManagement.AddAction | core/examples/domain-manager/src/tasks_management.rs:318-327 | In place, the state and result of `Add` |
| TaskScheduler.TasksManagement.DoneAction | core/examples/domain-manager/src/tasks_management.rs:387-414 | The loop over the map, in any iteration order, leaves the state and result of `Done` |
| TaskScheduler.TasksManagement.DoneHandler | core/examples/domain-manager/src/tasks_management.rs:395-411 | One handler of the loop: the flag is set, the in-degree decremented, and at 0 the task recruits and is queued or failed |
| TaskScheduler.TasksManagement.FailAction | core/examples/domain-manager/src/tasks_management.rs:415-425 | The recursion over the locked map ends and sets FAILED on exactly the task and its transitive dependents, whatever the iteration order and with diamonds, leaving every other task unchanged |
| FailedTasks.FailEndsIffNobodyDepends | core/examples/domain-manager/src/tasks_management.rs:415-425 | With the task lock held as written, Fail comes to an end exactly when no task depends on the failed one, and then does what the recursion is meant to do |
| TaskScheduler.TasksManagement.DependenciesOf | core/examples/domain-manager/src/tasks_management.rs:178-191 | The loop over the needs gives a false flag for each, or the first need that names no task |
| TaskScheduler.TasksManagement.ValidateTask | core/examples/domain-manager/src/tasks_management.rs:132-206 | Every branch of validate_task, known and new tasks, leaves the state and result of `Validate` |
| TaskScheduler.TasksManagement.RemoveJob | core/examples/domain-manager/src/tasks_management.rs:208-221 | Exactly the job's tasks leave the map and exactly their node requests are aborted, whatever the iteration order |
| TaskScheduler.TasksManagement.PushTasks | core/examples/domain-manager/src/tasks_management.rs:268-272 | The ids are appended to the queue in order |
| TaskScheduler.TasksManagement.GetNextTask | core/examples/domain-manager/src/tasks_management.rs:229-234 | The front id leaves the queue even when its task is gone, or when the future is dropped before its second lock |
| TaskScheduler.TasksManagement.UpdateTask | core/examples/domain-manager/src/tasks_management.rs:237-266 | For any published task, whatever its job id: the whole task is overwritten and the action of its status is taken, as in `Update` |
| TaskScheduler.TasksManagement.RetryTask | core/examples/domain-manager/src/tasks_management.rs:274-277 | The state of a Retry, whose result is dropped |
| TaskScheduler.TasksManagement.ReceiveNode | core/examples/domain-manager/src/tasks_management.rs:442-461 | A woken continuation sets the receiver, clears the request and queues the task |
| SchedulerAdmission.AcceptJobIsAllOrNothing | core/examples/domain-manager/src/main.rs:157-180 | A fresh job is accepted exactly when every request parses, needs only earlier tasks of the job and finds a node if it may not wait; it is then inserted whole and exactly its ready tasks are queued once, in the order of the requests; otherwise map and queue are what they were |
| SchedulerAdmission.AcceptTouchesOnlyItsJob | core/examples/domain-manager/src/main.rs:157-180 | With other steps in between, a step of accept_job changes no task of another job, and a refusal leaves no task of its own job |
| AdmissionRuns.AcceptedWholeOrNotAtAll | core/examples/domain-manager/src/main.rs:157-180 | In every state of every run after a job was submitted, whatever happens between the steps of accept_job: while it is at work the map has exactly the tasks of the requests validated so far, each with the assignment requested, and once it is through those of all requests or none |
| AdmissionRuns.DecidedForGood | core/examples/domain-manager/src/main.rs:157-180 | Once accept_job is through with a job, the set of its tasks never changes again |
| AdmissionRuns.NextIsTakenIff | core/examples/domain-manager/src/tasks_management.rs:132-206 | In any run the next request of a job is taken exactly when its timeout parses, its needs are among the job's tasks so far, and a node can be found now if it needs none and may not wait |
| DomainManagement.DomainManager.AcceptJob | core/examples/domain-manager/src/main.rs:141-181 | The loop leaves the state of `AcceptJob` and answers Accepted or BadRequest accordingly |
| AcceptedJobs.AcceptRunIsAcceptJob | core/examples/domain-manager/src/main.rs:157-180 | In any run, submitting a new job and letting accept_job run through is an allowed continuation that ends in the state of `AcceptJob` |
| AcceptedJobs.AcceptedAsRequested | core/examples/domain-manager/src/tasks_management.rs:132-205 | Each task of an accepted job is in the map with every field as requested and no need met yet; only one without needs has been recruited for, and no recruitment failed |
| DispatchedTasks.ReceiverIsStable | core/examples/domain-manager/src/tasks_management.rs:237-246 | From its first enqueue on, a task keeps its receiver in every later state in which it exists, and it does not come back once removed |
| DispatchedTasks.DispatchedSnapshotMayReport | core/examples/domain-manager/src/main.rs:239-281 | Whatever happened since a task was dispatched, a report of the dispatched snapshot with a new status, output or token names the current receiver |
| DomainManagement.DomainManager.SerializedInput | core/examples/domain-manager/src/main.rs:184-237 | The bytes for the worker, or none when a dependency or its output is missing, as in `RunInput` |
| DomainManagement.DomainManager.RunTask | core/examples/domain-manager/src/main.rs:239-280 | Without an input nothing happens. For a snapshot that can be sent, on the fields of the state: without a failure the queue stays and the task is PENDING; with one its id is queued once more and it is PENDING again with an output that reads as the failure, while its dependents are FAILED; the token is the publication's exactly when the task is another peer's |
| DomainManagement.DispatchedIsSendable | core/examples/domain-manager/src/main.rs:239-281 | A snapshot dispatched in a run can be sent in that sense in any later state that has its task and an input for it, and its id was the front of the queue |
| Reconstruction.InputTable | core/examples/domain-manager/src/main.rs:189-233 | What the worker is sent, by the type of the input: nothing without one or for an unknown type, and otherwise a frame with the bytes of the input if it has any |
| Reconstruction.GatherOutputs | core/examples/domain-manager/src/main.rs:197-223 | The loop over the dependency list gathers all outputs or stops at the first dependency that has none |
| Reconstruction.ReconstructionJob | core/domain/src/spatial/reconstruction.rs:6-67 | One local refinement per scan, in order, each with the expression for its scan as its input, then a global refinement that needs exactly those; endpoints, minima, timeouts, budgets, policies and sender as in the source, field by field |
| Reconstruction.ReconstructionIsAccepted | core/domain/src/spatial/reconstruction.rs:6-67 | In every state of every run a reconstruction job of distinct scans is accepted; the global refinement then waits for exactly the local ones |
| Reconstruction.LocalWorkerGetsItsScan | core/examples/domain-manager/src/main.rs:227-233 | The input sent to a local refinement's worker decodes to a query whose name expression is .*_ and its scan, with no data type, ids, names or types |
| Reconstruction.DifferentScansDifferentInputs | core/domain/src/spatial/reconstruction.rs:9-17 | The local refinements of two scans have different inputs |
| Reconstruction.LocalRefinementIsAskedForItsScan | core/examples/domain-manager/src/main.rs:227-233 | In every state of every run after a reconstruction job was accepted, the worker of each local refinement reads the query for its own scan |
| Reconstruction.GlobalRefinementIsPlacedAtTheLastReport | core/examples/domain-manager/src/tasks_management.rs:387-413 | For any number of distinct scans and any continuation of the run, with dispatches, nodes, other jobs and reports in between: before the last local refinement has reported DONE global_refinement is neither queued nor asks for a node, and from then on it has done exactly one of the two, once |
| Reconstruction.GlobalRefinementRunsIffAllRead | core/examples/domain-manager/src/main.rs:194-226 | For a dispatched snapshot of global_refinement, at any later moment of any run: every flag is set, and run_task finds an input exactly when what each local refinement reported last has an output that decodes; the worker then reads exactly these outputs |
| Reconstruction.GlobalRefinementGetsEveryOutput | core/examples/domain-manager/src/main.rs:194-226 | When each local refinement's last report carries its serialized result, the worker of the dispatched global refinement reads exactly one result per scan |
| Reconstruction.LateReportStopsTheGlobalRefinement | core/examples/domain-manager/src/main.rs:250-281 | A report without an output that comes after the DONE report of a local refinement, as run_task's own does when it is late, leaves the dispatched global refinement without an input: it is dropped |
| Reconstruction.FailingALocalRefinementBlocks | core/examples/domain-manager/src/tasks_management.rs:415-425 | In every state after a reconstruction job was accepted, Fail as written never comes to an end for any of its local refinements |
| FanIn.FanInPlacesAtTheLastReport | core/examples/domain-manager/src/tasks_management.rs:387-413 | The same for any accepted task: in any continuation its in-degree is the number of needs not yet reported DONE, it has no place before that number is 0, and then exactly one of a first enqueue, an outstanding node request and, only under the FAIL policy, a failed recruitment |
| FanIn.PlacedWhateverItsStatus | core/examples/domain-manager/src/tasks_management.rs:387-413 | A task whose last open need completes is placed whatever its status, and keeps it: one marked FAILED with its need is queued or asks for a node as FAILED once the need has been retried and is done |
| AcceptedTasks.OutputIsTheLastReported | core/examples/domain-manager/src/tasks_management.rs:237-246 | In any continuation of a run, the output of an accepted task without needs is that of the last report about it |
| WorkerNodes.RoundRobin.FindKey | core/examples/domain-manager/src/nodes_management.rs:31-49 | A node is found exactly when the endpoint has a pool, namely the one at the counter modulo the pool's size, and the counter moves on, wrapping as a usize |
| WorkerNodes.RoundRobin.AddKey | core/examples/domain-manager/src/nodes_management.rs:51-61 | A new endpoint starts with a counter of 0, a known one gains a slot at the end |
| WorkerNodes.NodesManagement.RegisterNode | core/examples/domain-manager/src/nodes_management.rs:81-111 | The loop over the capabilities leaves the state of `Register` and keeps the pool's invariant |
| WorkerNodes.NodesManagement.FindNode | core/examples/domain-manager/src/nodes_management.rs:113-118 | A node is found exactly when the endpoint's pool is not empty |
| WorkerNodes.NodesManagement.RequestNode | core/examples/domain-manager/src/nodes_management.rs:120-131 | A new receiver is queued behind the others of its endpoint |
| NodesProperties.FindIsTotal | core/examples/domain-manager/src/nodes_management.rs:31-49 | With the invariant that every operation keeps, find_key meets no empty pool, no missing counter and no unknown node |
| NodesProperties.ServedSlotsFollowCounter | core/examples/domain-manager/src/nodes_management.rs:38-42 | Calls without a registration in between serve the slots counter, counter + 1, and so on, modulo the pool's size |
| NodesProperties.FairUntilWrap | core/examples/domain-manager/src/nodes_management.rs:38-42 | Over any m calls without registration and without the counter wrapping, each slot is chosen floor(m/len) or ceil(m/len) times |
| NodesProperties.AlwaysFairIffPoolDividesRange | core/examples/domain-manager/src/nodes_management.rs:42-42 | Counting the wrap-around of the counter, that holds for all starts and m exactly when the pool's size divides 2^64 |
| NodesProperties.RegisterConservesOffers | core/examples/domain-manager/src/nodes_management.rs:92-110 | Each capability of a registered node goes to exactly one of the oldest requesters, first come first served, or to the end of the pool of a new node; dead requesters are skipped at one offer each |
| NodesProperties.RegistrationKeepsCounters | core/examples/domain-manager/src/nodes_management.rs:51-61 | A registration leaves the counter of every known endpoint as it is and starts that of a new one at 0 |
| NodesProperties.FindThenRequestNeverStarves | core/examples/domain-manager/src/tasks_management.rs:428-445 | Asking for a node only after a search found none does not leave a requester waiting beside a pool |
| NodesProperties.OfferStarvesIffFrontIsDead | core/examples/domain-manager/src/nodes_management.rs:93-110 | An offer leaves a live requester beside a new pool exactly when the requester at the front had gone while a live one waits behind it |
| Recruitments.NoStarvationWithoutAborts | core/examples/domain-manager/src/nodes_management.rs:81-131 | In every run of the scheduler in which no job is refused while one of its tasks waits, no endpoint has both a queued ticket and a node in its pool, and a task that waits for a node is really without one |
| ReachableFailures.RefusedJobStarvesAnother | core/examples/domain-manager/src/nodes_management.rs:93-110 | A run in which a refused job's request is still in the queue when a node joins: the node goes to the pool, and the task of a live job that asked for it keeps waiting |
| Wire.ReadWrittenField | core/domain/src/protobuf/task.rs:110-122 | Tags, varints and length-delimited payloads under 4 GiB are read back exactly, leaving the rest (Protocol Buffers Encoding, Base 128 Varints and Length-Delimited Records) |
| Wire.ReadWrittenFieldIff | core/domain/src/protobuf/task.rs:110-122 | A written field is read back exactly when its tag has its wire type and its payload is under 4 GiB |
| Wire.VarintSize | core/domain/src/protobuf/task.rs:126-130 | A varint takes exactly as many bytes as sizeof_varint says, at most ten |
| Wire.VarintDigits | core/domain/src/protobuf/task.rs:126-130 | A varint is its number in base 128, the lowest digit first, with the high bit set in all bytes but the last (Protocol Buffers Encoding, Base 128 Varints) |
| Wire.FromReader | core/domain/src/protobuf/task.rs:148-160 | The loop of every generated reader absorbs the fields one by one until the end or the first error |
| Utf8.RoundTrip | core/domain/src/protobuf/task.rs:115-115 | Every string is read back from its bytes |
| Utf8.DecodingIsCanonical | core/domain/src/protobuf/task.rs:115-115 | Only its own encoding is read as a string |
| Utf8.CharBytes | core/domain/src/protobuf/task.rs:115-115 | The bytes of a character: as many as its range asks for, with the marker bits of that number, and the code point six bits at a time |
| JobCodec.JobSizeIsExact | core/domain/src/protobuf/task.rs:164-169 | The bytes written for a JobRequest number exactly get_size, nested length prefixes included |
| JobCodec.JobRoundTrip | core/domain/src/protobuf/task.rs:147-177 | from_reader gives back every JobRequest under 4 GiB from what write_message wrote |
| JobCodec.RequestSizeIsExact | core/domain/src/protobuf/task.rs:296-307 | The same for TaskRequest sizes |
| JobCodec.RequestRoundTrip | core/domain/src/protobuf/task.rs:273-321 | from_reader gives back every TaskRequest under 4 GiB, repeated needs and optional fields included |
| TaskCodec.TaskSizeIsExact | core/domain/src/protobuf/task.rs:609-619 | The bytes written for a Task number exactly get_size |
| TaskCodec.TaskRoundTrip | core/domain/src/protobuf/task.rs:587-632 | from_reader gives back every Task under 4 GiB |
| TaskCodec.FiltersRoundTrip | core/domain/src/protobuf/task.rs:331-361 | CapabilityFilters survive, negative minima in their ten-byte form too |
| TaskCodec.RecruitmentRoundTrip | core/domain/src/protobuf/task.rs:370-396 | ResourceRecruitment survives with both enums |
| TaskCodec.AnyRoundTrip | core/domain/src/protobuf/task.rs:110-137 | Any survives under 4 GiB |
| FieldNumbers.TaskFieldNumbers | core/domain/src/protobuf/task.rs:587-605 | After any bytes that read as a Task, field 2 sets the name, 3 the receiver, 4 the endpoint, 5 the token, 6 the job id, 7 the sender, 9 the status by its number and 10 the output; what does not decode fails the message, any other field is passed over, and no bytes are the default |
| FieldNumbers.StatusNumbers | core/domain/src/protobuf/task.rs:58-90 | The bytes 72 and n are a Task whose status is the n-th of PENDING, STARTED, DONE, FAILED, WAITING_FOR_RESOURCE, RETRY, PROCESSING, and PENDING for any other n |
| FieldNumbers.AnyFieldNumbers | core/domain/src/protobuf/task.rs:110-122 | The same for Any |
| FieldNumbers.FiltersFieldNumbers | core/domain/src/protobuf/task.rs:331-345 | The same for CapabilityFilters; the minima are the low 32 bits in two's complement |
| FieldNumbers.RecruitmentFieldNumbers | core/domain/src/protobuf/task.rs:370-383 | The same for ResourceRecruitment, with the numbers of both policies and their defaults for any other number |
| FieldNumbers.RequestFieldNumbers | core/domain/src/protobuf/task.rs:273-293 | The same for TaskRequest; a need is added behind those read before |
| FieldNumbers.JobFieldNumbers | core/domain/src/protobuf/task.rs:147-161 | The same for JobRequest; the tasks keep their order |
| FieldNumbers.HandlerFieldNumbers | core/domain/src/protobuf/task.rs:774-795 | The same for TaskHandler |
| FieldNumbers.DependencyFieldNumbers | core/domain/src/protobuf/task.rs:780-783 | A dependency's key is field 1 and its flag field 2, and no other field is accepted |
| FieldNumbers.MetadataFieldNumbers | core/domain/src/protobuf/domain_data.rs:28-47 | The same for Metadata |
| FieldNumbers.EntryFieldNumbers | core/domain/src/protobuf/domain_data.rs:37-40 | A property's key is field 1 and its value field 2, and no other field is accepted |
| FieldNumbers.QueryFieldNumbers | core/domain/src/protobuf/domain_data.rs:79-95 | The same for Query |
| FieldNumbers.ConsumeFieldNumbers | core/domain/src/protobuf/task.rs:481-494 | The same for ConsumeDataInputV1 |
| FieldNumbers.LocalFieldNumbers | core/domain/src/protobuf/task.rs:548-559 | The same for LocalRefinementOutputV1, behind its length prefix |
| FieldNumbers.GlobalFieldNumbers | core/domain/src/protobuf/task.rs:704-715 | The same for GlobalRefinementInputV1 |
| FieldNumbers.LocalInputFieldNumbers | core/domain/src/protobuf/task.rs:640-651 | The same for LocalRefinementInputV1, behind its length prefix |
| FieldNumbers.ErrorFieldNumbers | core/domain/src/protobuf/task.rs:736-747 | The same for Error, behind its length prefix |
| FieldNumbers.TaskBytes | core/domain/src/protobuf/task.rs:621-631 | A written Task byte by byte: its fields in order behind their keys, and 72 and the number of its status |
| FieldNumbers.FiltersBytes | core/domain/src/protobuf/task.rs:355-360 | Written filters: a negative minimum is the 64-bit two's complement |
| FieldNumbers.RecruitmentBytes | core/domain/src/protobuf/task.rs:392-396 | A written ResourceRecruitment is 8, the number of the first policy, 16, the number of the second |
| FieldNumbers.ConsumeBytes | core/domain/src/protobuf/task.rs:503-507 | A written ConsumeDataInputV1: the query, and 16 with 1 or 0 |
| JobCodec.HandlerSizeIsExact | core/domain/src/protobuf/task.rs:798-807 | The bytes written for a TaskHandler number exactly get_size, for any iteration order of its map |
| JobCodec.HandlerRoundTrip | core/domain/src/protobuf/task.rs:774-819 | from_reader gives back every TaskHandler under 4 GiB for any iteration order of its map (Protocol Buffers Encoding, Maps) |
| JobCodec.LocalRoundTrip | core/domain/src/protobuf/task.rs:548-571 | LocalRefinementOutputV1 survives, also behind its length prefix |
| JobCodec.GlobalRoundTrip | core/domain/src/protobuf/task.rs:704-727 | GlobalRefinementInputV1 survives, and its size is exact |
| DataCodec.QuerySizeIsExact | core/domain/src/protobuf/domain_data.rs:98-105 | The bytes written for a Query number exactly get_size |
| DataCodec.QueryRoundTrip | core/domain/src/protobuf/domain_data.rs:79-114 | from_reader gives back every Query under 4 GiB |
| DataCodec.MetadataSizeIsExact | core/domain/src/protobuf/domain_data.rs:50-57 | The bytes written for Metadata number exactly get_size, for any iteration order of the properties |
| DataCodec.MetadataRoundTrip | core/domain/src/protobuf/domain_data.rs:28-67 | from_reader gives back every Metadata under 4 GiB for any iteration order of the properties |
| DataCodec.ConsumeSizeIsExact | core/domain/src/protobuf/task.rs:497-501 | The bytes written for ConsumeDataInputV1 number exactly get_size |
| DataCodec.ConsumeRoundTrip | core/domain/src/protobuf/task.rs:481-507 | ConsumeDataInputV1 survives |
| DataCodec.LocalInputRoundTrip | core/domain/src/protobuf/task.rs:640-663 | LocalRefinementInputV1 survives behind its length prefix |
| MessageWriter.Writer.WriteVarint | core/domain/src/protobuf/task.rs:132-136 | The loop appends exactly the varint |
| MessageWriter.Writer.WriteRequest | core/domain/src/protobuf/task.rs:309-320 | write_message appends exactly the fields of the request; each announced size is the length of what follows it |
| MessageWriter.Writer.WriteJob | core/domain/src/protobuf/task.rs:171-176 | The same for JobRequest, with the loop over its tasks |
| MessageWriter.Writer.WriteTask | core/domain/src/protobuf/task.rs:621-631 | The same for Task |
| MessageWriter.Writer.WriteHandler | core/domain/src/protobuf/task.rs:809-818 | The same for TaskHandler, with the loop over its dependency map |
| MessageWriter.Writer.WriteQuery | core/domain/src/protobuf/domain_data.rs:107-114 | The same for Query, with its three loops |
| MessageWriter.Writer.WriteMetadata | core/domain/src/protobuf/domain_data.rs:59-66 | The same for Metadata, with the loop over its properties |
| MessageWriter.SerializeJob | core/examples/domain-manager/src/main.rs:145-146 | A serialized job decodes to the job |
| Framing.FrameRoundTrip | core/domain/src/message.rs:10-28 | A framed message is read back exactly, with the exact remainder, if and only if it is under 4 GiB |
| Framing.ReadWrittenFrame | core/domain/src/message.rs:13-14 | What a reader takes is the size modulo 2^32 |
| Framing.FramesRoundTrip | core/domain/src/message.rs:10-28 | Framed messages under 4 GiB parse back one by one from their concatenation, leaving the exact remainder |
| Framing.PrefixSizeMessage | core/domain/src/message.rs:10-19 | The message behind four bytes which, read in base 256 with the highest digit first, are its length modulo 2^32 |
| Framing.ReadPrefixSizeMessage | core/domain/src/message.rs:21-28 | The first four bytes are read in base 256, the highest digit first; exactly that many bytes after them are taken and the rest is left, or the read fails because there are fewer |
| DataStreams.UploadContent | core/domain/src/datastore/remote.rs:146-170 | For any partial writes, refusals and failures the chunk loop stays in bounds and ends; it puts exactly the content on the wire if and only if no write fails, and else a proper prefix |
| DataStreams.WriteToStream | core/domain/src/datastore/remote.rs:135-179 | Without failing writes the stream carries exactly the records up to the first whose size does not match its content, where the loop panics; after a failed write the next record follows the cut content |
| DataStreams.ReadFromStream | core/domain/src/datastore/remote.rs:72-105 | The download loop reads record by record, as `DownloadAll`, until the end or its first panic |
| DataStreams.ReadAcknowledgements | core/domain/src/datastore/remote.rs:112-134 | The acknowledgement reader hands on the echoed metadata in order |
| DataStreams.DataNode.StoreContent | core/examples/data-node/src/main.rs:65-90 | The chunk loop stores exactly the content, and of a content that is cut off its whole chunks |
| DataStreams.DataNode.StoreData | core/examples/data-node/src/main.rs:30-93 | The record loop leaves the files, echoes and ids of `StoreAll`, and ends well exactly at the end of the stream |
| DataStreams.DataNode.ServeContent | core/examples/data-node/src/main.rs:137-150 | Whatever part of a chunk each file read gives, exactly the content is served |
| DataStreams.DataNode.ServeFile | core/examples/data-node/src/main.rs:117-151 | One directory entry, as `ServeFile`: skipped by either filter, an error without the id that a list asks for, or served as framed metadata and content |
| TransferProperties.ServedEntry | core/examples/data-node/src/main.rs:117-151 | By what the metadata says: an error if it does not decode, skipped if the name does not match or ids are listed and its own is not among them, an error if it then has no id, and else served |
| DataStreams.DataNode.ServeData | core/examples/data-node/src/main.rs:117-152 | The directory loop serves `ServeAll` |
| TransferProperties.StoreAndForward | core/examples/data-node/src/main.rs:30-168 | Whatever is uploaded under distinct ids comes back from an empty data node, in any directory order, each once, metadata and content unchanged: exactly the records whose name matches and whose id is listed, or all whose name matches when none is listed |
| TransferProperties.EverythingComesBack | core/examples/data-node/src/main.rs:117-151 | A query that matches every name and lists no id brings every upload back |
| TransferProperties.RepeatedIdsAppend | core/examples/data-node/src/main.rs:60-90 | Ids that are used again, which distinct ids exclude above: each file holds the contents of all uploads under its id, one after the other |
| TransferProperties.CutContentIsStoredInChunks | core/examples/data-node/src/main.rs:65-90 | Of a record whose content is cut off, the whole chunks of 10240 bytes are stored, and there is no echo |
| TransferProperties.StoreUploads | core/examples/data-node/src/main.rs:36-92 | The whole upload is stored with no byte lost between records, and the stream ends cleanly |
| TransferProperties.EchoesAreTheUploadedMetadata | core/examples/data-node/src/main.rs:70-81 | The echoes read back as the uploaded metadata, in order |
| TransferProperties.OneEchoPerWholeRecord | core/examples/data-node/src/main.rs:36-92 | Wherever the upload is cut off, there is exactly one echo per record read as a whole, in order, and none for the other |
| Producer.PendingIffOutstanding | core/domain/src/datastore/common.rs:66-121 | After any events in any order, an id is pending exactly when it was registered and since then neither dropped by a close nor acknowledged while the loop was running; an acknowledgement that comes first does not count, nor does any after the loop has ended |
| Producer.EndedIffFatal | core/domain/src/datastore/common.rs:66-121 | After any events, the acknowledgement loop has ended exactly when some acknowledgement came before every registration or after a close |
| Producer.NothingIsSettledAfterTheEnd | core/domain/src/datastore/common.rs:66-110 | Once the loop has ended, whatever is pushed stays pending until a close, and no progress is reported any more |
| Producer.TotalIsPendingAndAcknowledged | core/domain/src/datastore/common.rs:65-110 | In every run with distinct ids and acknowledgements after registration, the pending ids are those registered and not acknowledged, and total is their number plus that of the acknowledgements, exactly as long as fewer than 2^31 ids are registered |
| Producer.ProgressIsThePercentage | core/domain/src/datastore/common.rs:72-75 | In such runs each progress value is 100 * acknowledged / total rounded down, at most 100, and 100 exactly when nothing is pending |
| Producer.ProgressIsSoundIff | core/domain/src/datastore/common.rs:70-76 | After any events, an acknowledgement of any id that reaches a running loop ends it and reports nothing exactly when nothing was registered or the producer was closed before; else it reports one more progress, which is in range and 100 exactly at the end if and only if the id was outstanding, or two others were, or none was and the total is past 100 |
| Producer.RegisteringKeepsTheCountIff | core/domain/src/datastore/common.rs:98-102 | Registering keeps total = pending + acknowledged exactly when the id was not pending already |
| Producer.EarlyAcknowledgementIsLost | core/domain/src/datastore/common.rs:66-105 | Two pushed records, one acknowledged before it is registered: both are registered and acknowledged, progress went from 100 to 50, and one is pending for ever |
| Producer.FirstAcknowledgementDividesByZero | core/domain/src/datastore/common.rs:73-75 | An acknowledgement that overtakes the first registration ends the loop in a division by zero |
| Producer.AcknowledgementAfterCloseIsFatal | core/domain/src/datastore/common.rs:74-76 | A record registered, the producer closed, the record acknowledged: no progress is reported, and the loop has ended at the closed channel |
| Producer.PushAfterCloseIsLost | core/domain/src/datastore/common.rs:66-121 | Two records pushed by a clone after a close: the acknowledgement of the first ends the loop, and the second, acknowledged too, is pending for ever |
| Producer.ReliableDataProducer.Push | core/domain/src/datastore/common.rs:90-110 | A sent record is pending and counted under its own or the generated id, unless the 32-bit total overflows; a failed send changes nothing |
| Producer.ReliableDataProducer.Acknowledge | core/domain/src/datastore/common.rs:66-82 | One message for the acknowledgement loop: an error changes nothing, a loop that has ended reads nothing, and a running one takes the id, or its stand-in, off the pending ones and reports the rounded percentage, or panics, and ends, exactly when nothing was registered or the producer was closed |
| Producer.ReliableDataProducer.IsCompleted | core/domain/src/datastore/common.rs:112-115 | True exactly when every registration since the beginning has been followed by a close or by its acknowledgement to a running loop; in an orderly history, exactly when the acknowledged ids are the registered ones |
| Producer.ReliableDataProducer.Close | core/domain/src/datastore/common.rs:117-121 | No id is outstanding afterwards, although in an orderly history the total exceeds the acknowledgements by the ids that were dropped; and the next acknowledgement, whatever it is of, finds the progress receiver closed and ends the loop |
| GeneratedOps.MakeEqualityOperatorComparedProperties | sdk/gentool/util.js:1911-1937 | Compared are exactly the non-static properties of the identity that have a member variable or a getter, each once and in order, through the getter when there is no member variable |
| GeneratedOps.HashOperator | sdk/gentool/generator-cxx.js:1223-1262 | The emitted hasher, run over the two lists that the generator makes, computes `HashOf`: the compared properties in order, each hashed by its type's hasher, or the address |
| GeneratedOps.HashTakesInEach | sdk/gentool/generator-cxx.js:1223-1262 | The hash is the address's for a class that cannot be copied, and else starts at 0 and takes in one compared property after the other by the emitted formula, on 64 bits |
| GeneratedOps.EqualIffPropertiesAre | sdk/gentool/generator-cxx.js:927-960 | operator== compares addresses when the class cannot be copied, and else holds exactly when each non-static property of the identity is equal: numbers as numbers, members by their operator, pointers by what they point to |
| GeneratedOps.ReflexiveIffNoNaN | sdk/gentool/generator-cxx.js:927-960 | Generated operator== is reflexive on exactly the objects in which, through members and pointers, it meets no NaN |
| GeneratedOps.Symmetric | sdk/gentool/util.js:811-831 | Generated operator== is symmetric on all objects |
| GeneratedOps.Transitive | sdk/gentool/util.js:811-831 | Generated operator== is transitive on all objects |
| GeneratedOps.EqualHashEqual | sdk/gentool/generator-cxx.js:1223-1262 | Equal objects hash equal, if the library's hashes of scalars agree with == |
| GeneratedOps.CopyEqualsIffNoNaN | sdk/gentool/util.js:767-786 | A generated copy equals its source exactly when operator== meets no NaN in it and, where a compared property has only a getter, the getters of both agree |
| GeneratedOps.CopySharesNothing | sdk/gentool/util.js:774-776 | What a copy points to, at any depth, is disjoint from what its source points to |
| GeneratedOps.CopyExistsIffNoNull | sdk/gentool/util.js:774-776 | A copy with newly allocated pointer targets exists exactly for objects of copyable classes none of whose pointers, at any depth, is null |
| NameStyles.ConvertNameStyle | sdk/gentool/util.js:897-987 | The checks and the loops of the seven styles give `Converted`, or nothing for an invalid name |
| NameStyles.ConvertedIsIdentifier | sdk/gentool/util.js:897-987 | Every converted name is a valid identifier |
| NameStyles.ConvertedLetters | sdk/gentool/util.js:897-987 | What each style does to the letters: the five with underscores keep every character in its place and make capitals of all, none, or those that begin the first word, the later words or every word; the camel styles are two of these without the underscores |
| NameStyles.ConvertingTwiceIsConvertingOnce | sdk/gentool/util.js:897-987 | Converting to a style that keeps the underscores and then to any style is converting to that style |
| NameStyles.WordsSurviveIff | sdk/gentool/util.js:897-987 | Followed by a style with underscores, that holds exactly when the first style keeps them or the name is one word |
| ConfigLists.GetList | sdk/src/C/Config.cpp:47-78 | One buffer: the stored pointers, the null and the strings with their NULs, each pointer being the address of its string; null from 2^32 strings on, and an overrun at exactly 2^32 - 1 |
| ConfigLists.SegmentsFillTheBuffer | sdk/src/C/Config.cpp:58-73 | The strings lie behind the table, disjoint and in order, and fill the rest of the buffer exactly |
| ConfigLists.TableIsApartIff | sdk/src/C/Config.cpp:58-71 | All pointers are stored in front of the content exactly when their number, the null included, fits 32 bits |
| ConfigLists.OverrunAt | sdk/src/C/Config.cpp:58-73 | With 2^32 - 1 strings the content begins where the first pointer is stored, and the pointers pass the end of the buffer unless the content is as long as all of them |
| ConfigLists.ReadList | sdk/src/C/Config.cpp:91-109 | With a count or up to the null, the strings up to their NULs, or failure exactly at a null pointer |
| ConfigLists.PackedIsReadable | sdk/src/C/Config.cpp:47-111 | What the getters hand out is a table that the setters can read, with or without the count |
| ConfigLists.PackedRoundTrip | sdk/src/C/Config.cpp:47-111 | Setting what was got, with or without the count, restores the list exactly when it has fewer than 2^32 - 1 strings and none holds a NUL |
| JoinedLists.Config.SetBootstraps | sdk/src/Config.cpp:58-81 | A list is taken exactly when its strings are distinct and free of ';'; otherwise the old one stays |
| JoinedLists.Config.SetRelays | sdk/src/Config.cpp:88-111 | The same for relays |
| JoinedLists.Join | sdk/src/Posemesh.cpp:16-28 | The loop with its first flag joins the strings with ';' |
| JoinedLists.AcceptedListsSurvive | core/networking/src/c.rs:20-28 | An accepted list arrives cut at its first NUL and without its empty string, or as a panic when what is left is not UTF-8; it arrives unchanged exactly when no string is empty, holds a NUL or is not UTF-8 |
| JoinedLists.TwoArrive | core/networking/src/c.rs:20-28 | Two texts are joined with the byte 0x3B and arrive as they were |
| JoinedLists.NulLosesTheRest | core/networking/src/c.rs:20-24 | An accepted list of two strings of which half of the first and all of the second are lost |

## Left out

- Interleavings inside one step: validate_task, which locks and unlocks the map several times, and recruit_node's search and request each take effect at once, and so does the abort of a recruitment.
- Lock order: task map, queue and node pool are locked in different orders by different operations; only the lock that Fail asks for twice is modelled.
- The wake-up of a recruitment whose sender was dropped: every sender is kept until it sends.
- Resubmission of a job id and repeated task names in a job: the code does not keep the natural properties there; the branches of validate_task for known tasks are modelled, but runs do not take them.
- The Queue and Start actions, which no caller constructs, and TaskHandler::done, which none calls.
- Task handlers are values written back to the map, not objects of their own: aliasing of their node_request handle is not captured.
- The parsing of timeouts: a request comes with the milliseconds or the failure; JSON web tokens, SHA-256 ids, clocks, tracing and the response text of accept_job are opaque or absent.
- run_task reads all dependency outputs in one state, although it asks for them one by one.
- The runtime of quick_protobuf, which is not part of the repository, is modelled after the Protocol Buffers Encoding specification: readers refuse groups and invalid UTF-8, serialize_into_vec puts the size in front as a varint. How malformed bytes that run past a nested message are treated is not promised.
- FieldNumbers.EntryFieldNumbers: a key or a value of a map entry with another wire type, at which the runtime does not look, is refused in the model; the same holds for dependencies.
- DataCodec.ConsumeRoundTrip: of the messages under 4 GiB, like the other round trips; every message travels behind a size of 32 bits, and for the fields inside it the condition is exact (`Wire.ReadWrittenFieldIff`).
- The codecs of Job, SubmitJobResponse, StoreDataOutputV1, DomainClusterHandshake and Data, which add nothing to those of the same shape.
- DataStreams.WriteToStream: refused writes are finitely many, since the loop has no other way to end.
- DataStreams.ReadFromStream: a read of the 4-byte header gives all of it, or what is left of the stream.
- File system errors, regular expressions (a filter says which names match), the handshake, the closing task update of serve_data_v1, and libp2p.
- Producer.ReliableDataProducer.Push: what happens after the 32-bit total has overflowed, which depends on how the code is built, is not followed; the channel and its capacity are a yes or no of sending.
- Producer.ReliableDataProducer.Acknowledge: one turn of the loop at a time, since pushes come in between; that the loop, with about 100 values in the progress channel and nobody reading them, waits while it holds both locks, and push, is_completed and close with it, is not modelled, nor is that close waits for a reader that holds the lock on progress.
- TransferProperties.StoreAndForward: of ids that are single path components; the data node makes a directory of each, so that an empty id, `..` or one with a separator would fail, or be stored where it is not listed.
- Custom comparators, hashers and initializers of generated classes, and the text of the emitted code.
- ConfigLists.GetList: what an overrun buffer holds, which is undefined in the original; pointers have 64 bits, lowest byte first, and allocations do not fail.
- NameStyles.ConvertNameStyle: ASCII letters only, which its checks enforce; the kind of error is not distinguished.
- Key files, Kademlia, relays, OpenCV wrappers, the other bindings and generators, build scripts and user interfaces: foreign calls and plumbing.
