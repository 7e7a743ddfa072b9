/** The message types of core/protobuf/task.proto and core/protobuf/domain_data.proto. */
module Messages {
  import opened Wrappers

  type Byte = b: int | 0 <= b < 0x100

  type UInt32 = n: int | 0 <= n < 0x1_0000_0000

  type UInt64 = n: int | 0 <= n < 0x1_0000_0000_0000_0000

  type Int32 = n: int | -0x8000_0000 <= n < 0x8000_0000

  datatype Status = PENDING | STARTED | DONE | FAILED | WAITING_FOR_RESOURCE | RETRY | PROCESSING

  datatype RecruitmentPolicy = ALWAYS | IF_NOT_PRESENT | NEVER | FAIL

  datatype TerminationPolicy = KEEP | TERMINATE

  datatype Any = Any(typeUrl: string, value: seq<Byte>)

  datatype CapabilityFilters = CapabilityFilters(endpoint: string, minGpu: Option<Int32>, minCpu: Option<Int32>)

  datatype ResourceRecruitment = ResourceRecruitment(recruitmentPolicy: RecruitmentPolicy,
                                                     terminationPolicy: TerminationPolicy)

  datatype TaskRequest = TaskRequest(
    name: string,
    capabilityFilters: CapabilityFilters,
    maxBudget: Option<UInt64>,
    timeout: string,
    needs: seq<string>,
    resourceRecruitment: ResourceRecruitment,
    sender: string,
    receiver: Option<string>,
    data: Option<Any>)

  datatype JobRequest = JobRequest(name: string, tasks: seq<TaskRequest>, nonce: string)

  datatype Task = Task(
    name: string,
    receiver: Option<string>,
    endpoint: string,
    accessToken: Option<string>,
    jobId: string,
    sender: string,
    status: Status,
    output: Option<Any>)

  /** The monitoring record the domain manager streams out for every task. */
  datatype TaskHandler = TaskHandler(
    task: Task,
    dependencies: map<string, bool>,
    jobId: string,
    errMsg: string,
    retries: UInt32,
    updatedAt: UInt64,
    createdAt: UInt64)

  datatype LocalRefinementOutputV1 = LocalRefinementOutputV1(resultIds: seq<string>)

  datatype GlobalRefinementInputV1 = GlobalRefinementInputV1(localRefinementResults: seq<LocalRefinementOutputV1>)

  datatype ErrorMessage = ErrorMessage(message: string)

  datatype Metadata = Metadata(
    name: string,
    dataType: string,
    size: UInt32,
    id: Option<string>,
    properties: map<string, string>)

  datatype Query = Query(
    ids: seq<string>,
    nameRegexp: Option<string>,
    dataTypeRegexp: Option<string>,
    names: seq<string>,
    dataTypes: seq<string>)

  datatype Data = Data(domainId: string, metadata: Metadata, content: seq<Byte>)

  datatype ConsumeDataInputV1 = ConsumeDataInputV1(query: Query, keepAlive: bool)

  datatype LocalRefinementInputV1 = LocalRefinementInputV1(query: Query)
}
