/** The messages of core/domain/src/protobuf/task.rs with repeated fields, nested lists and a map. */
module JobCodec {
  import opened Wrappers
  import opened Messages
  import opened Orders
  import opened Wire
  import opened Codec
  import opened TaskCodec
  import Utf8

  // ---------- TaskRequest ----------

  const NO_REQUEST: TaskRequest := TaskRequest("", NO_FILTERS, None, "", [], NO_RECRUITMENT, "", None, None)

  function OptionalBudget(n: Option<UInt64>): seq<Field> {
    match n
    case None => []
    case Some(v) => [VarintField(24, v)]
  }

  function OptionalBudgetSize(n: Option<UInt64>): nat {
    match n
    case None => 0
    case Some(v) => 1 + SizeofVarint(v)
  }

  /** The fields from resource_recruitment on. */
  function RequestTail(r: TaskRequest): seq<Field> {
    [BytesField(50, RecruitmentBody(r.resourceRecruitment))] + ([Text(58, r.sender)]
      + (OptionalText(66, r.receiver) + OptionalAny(74, r.data)))
  }

  function RequestFields(r: TaskRequest): seq<Field> {
    [Text(10, r.name)] + ([BytesField(18, FiltersBody(r.capabilityFilters))] + (OptionalBudget(r.maxBudget)
      + ([Text(34, r.timeout)] + (Texts(42, r.needs) + RequestTail(r)))))
  }

  function WithRequestText(r: TaskRequest, tag: UInt32, s: string): TaskRequest {
    if tag == 10 then r.(name := s)
    else if tag == 34 then r.(timeout := s)
    else if tag == 42 then r.(needs := r.needs + [s])
    else if tag == 58 then r.(sender := s)
    else r.(receiver := Some(s))
  }

  function RequestArm(r: TaskRequest, f: Field): Option<TaskRequest> {
    if f.BytesField? && f.tag in {10, 34, 42, 58, 66} then
      match Utf8.Decode(f.payload)
      case None => None
      case Some(s) => Some(WithRequestText(r, f.tag, s))
    else if f.BytesField? && f.tag == 18 then
      match ReadFilters(f.payload)
      case None => None
      case Some(c) => Some(r.(capabilityFilters := c))
    else if f.VarintField? && f.tag == 24 then Some(r.(maxBudget := Some(f.value)))
    else if f.BytesField? && f.tag == 50 then
      match ReadRecruitmentMessage(f.payload)
      case None => None
      case Some(p) => Some(r.(resourceRecruitment := p))
    else if f.BytesField? && f.tag == 74 then
      match ReadAny(f.payload)
      case None => None
      case Some(a) => Some(r.(data := Some(a)))
    else Some(r)
  }

  function RequestBody(r: TaskRequest): seq<Byte> {
    EncodeFields(RequestFields(r))
  }

  function RequestSize(r: TaskRequest): nat {
    TextSize(r.name) + (1 + SizeofLen(FiltersSize(r.capabilityFilters))) + OptionalBudgetSize(r.maxBudget)
      + TextSize(r.timeout) + TextsSize(r.needs) + (1 + SizeofLen(RecruitmentSize(r.resourceRecruitment)))
      + TextSize(r.sender) + OptionalTextSize(r.receiver) + OptionalAnySize(r.data)
  }

  function ReadRequest(b: seq<Byte>): Option<TaskRequest> {
    Absorb(b, NO_REQUEST, RequestArm)
  }

  lemma RequestPartsFit(r: TaskRequest)
    ensures |FiltersBody(r.capabilityFilters)| < |RequestBody(r)|
    ensures r.data.Some? ==> |AnyBody(r.data.value)| < |RequestBody(r)|
  {
    hide EncodeFields, FiltersBody, AnyBody, RecruitmentBody, Text, Texts;
    var f9 := OptionalAny(74, r.data);
    var f8 := OptionalText(66, r.receiver) + f9;
    var f7 := [Text(58, r.sender)] + f8;
    var f5 := Texts(42, r.needs) + RequestTail(r);
    var f4 := [Text(34, r.timeout)] + f5;
    var f3 := OptionalBudget(r.maxBudget) + f4;
    var f2 := [BytesField(18, FiltersBody(r.capabilityFilters))] + f3;
    if r.data.Some? { FieldFits(f9, 0); }
    FieldFits(f2, 0);
    SuffixFits(OptionalText(66, r.receiver), f9);
    SuffixFits([Text(58, r.sender)], f8);
    SuffixFits([BytesField(50, RecruitmentBody(r.resourceRecruitment))], f7);
    SuffixFits(Texts(42, r.needs), RequestTail(r));
    SuffixFits([Text(34, r.timeout)], f5);
    SuffixFits(OptionalBudget(r.maxBudget), f4);
    SuffixFits([BytesField(18, FiltersBody(r.capabilityFilters))], f3);
    SuffixFits([Text(10, r.name)], f2);
  }

  /** The written bytes number exactly get_size. */
  lemma RequestSizeIsExact(r: TaskRequest)
    requires |RequestBody(r)| < TWO_64
    ensures |RequestBody(r)| == RequestSize(r)
  {
    RequestPartsFit(r);
    RecordSize(RequestFields(r));
    FiltersSizeIsExact(r.capabilityFilters);
    RecruitmentSizeIsExact(r.resourceRecruitment);
    RequestHeadSize(r);
    RequestTailSize(r);
  }

  lemma BudgetFieldSize(n: Option<UInt64>)
    ensures SizeOfFields(OptionalBudget(n)) == OptionalBudgetSize(n)
  {
  }

  lemma BytesFieldSize(tag: UInt32, payload: seq<Byte>)
    requires tag < 0x80
    ensures SizeOfFields([BytesField(tag, payload)]) == 1 + SizeofLen(|payload|)
  {
  }

  lemma RequestHeadSize(r: TaskRequest)
    ensures SizeOfFields(RequestFields(r)) ==
      TextSize(r.name) + (1 + SizeofLen(|FiltersBody(r.capabilityFilters)|)) + OptionalBudgetSize(r.maxBudget)
      + TextSize(r.timeout) + TextsSize(r.needs) + SizeOfFields(RequestTail(r))
  {
    hide Text, TextSize, Texts, TextsSize, SizeOfFields, SizeOfField, FiltersBody, OptionalBudget, OptionalBudgetSize, RequestTail, SizeofLen;
    var f6 := RequestTail(r);
    var f5 := Texts(42, r.needs) + f6;
    var f4 := [Text(34, r.timeout)] + f5;
    var f3 := OptionalBudget(r.maxBudget) + f4;
    var f2 := [BytesField(18, FiltersBody(r.capabilityFilters))] + f3;
    SizeAppend(Texts(42, r.needs), f6);
    SizeAppend([Text(34, r.timeout)], f5);
    SizeAppend(OptionalBudget(r.maxBudget), f4);
    SizeAppend([BytesField(18, FiltersBody(r.capabilityFilters))], f3);
    SizeAppend([Text(10, r.name)], f2);
    TextFieldSize(10, r.name);
    BytesFieldSize(18, FiltersBody(r.capabilityFilters));
    BudgetFieldSize(r.maxBudget);
    TextFieldSize(34, r.timeout);
    TextsFieldsSize(42, r.needs);
  }

  lemma RequestTailSize(r: TaskRequest)
    requires r.data.Some? ==> |AnyBody(r.data.value)| < TWO_64
    ensures SizeOfFields(RequestTail(r)) ==
      (1 + SizeofLen(|RecruitmentBody(r.resourceRecruitment)|)) + TextSize(r.sender) + OptionalTextSize(r.receiver) + OptionalAnySize(r.data)
  {
    hide Text, TextSize, OptionalText, OptionalTextSize, SizeOfFields, SizeOfField, RecruitmentBody, OptionalAny, OptionalAnySize, SizeofLen, AnyBody;
    var f9 := OptionalAny(74, r.data);
    var f8 := OptionalText(66, r.receiver) + f9;
    var f7 := [Text(58, r.sender)] + f8;
    SizeAppend(OptionalText(66, r.receiver), f9);
    SizeAppend([Text(58, r.sender)], f8);
    SizeAppend([BytesField(50, RecruitmentBody(r.resourceRecruitment))], f7);
    BytesFieldSize(50, RecruitmentBody(r.resourceRecruitment));
    TextFieldSize(58, r.sender);
    OptionalTextFieldSize(66, r.receiver);
    OptionalAnyFieldSize(74, r.data);
  }

  lemma FoldRequestText(r: TaskRequest, tag: UInt32, s: string, gs: seq<Field>)
    requires tag in {10, 34, 42, 58, 66}
    ensures FoldFields([Text(tag, s)] + gs, r, RequestArm) == FoldFields(gs, WithRequestText(r, tag, s), RequestArm)
  {
    Utf8.RoundTrip(s);
    FoldOne(Text(tag, s), gs, r, RequestArm);
  }

  lemma {:induction false} FoldNeeds(needs: seq<string>, gs: seq<Field>, r: TaskRequest)
    ensures FoldFields(Texts(42, needs) + gs, r, RequestArm) == FoldFields(gs, r.(needs := r.needs + needs), RequestArm)
    decreases |needs|
  {
    hide RequestArm, Text, FoldFields;
    if needs == [] {
      assert Texts(42, needs) + gs == gs && r.needs + needs == r.needs;
    } else {
      assert Texts(42, needs) + gs == [Text(42, needs[0])] + (Texts(42, needs[1..]) + gs);
      FoldRequestText(r, 42, needs[0], Texts(42, needs[1..]) + gs);
      FoldNeeds(needs[1..], gs, r.(needs := r.needs + [needs[0]]));
      assert r.needs + [needs[0]] + needs[1..] == r.needs + needs;
    }
  }

  lemma FoldFilters(r: TaskRequest, c: CapabilityFilters, gs: seq<Field>)
    requires |FiltersBody(c)| < TWO_32
    ensures FoldFields([BytesField(18, FiltersBody(c))] + gs, r, RequestArm) == FoldFields(gs, r.(capabilityFilters := c), RequestArm)
  {
    FiltersRoundTrip(c);
    hide FiltersBody, ReadFilters;
    FoldOne(BytesField(18, FiltersBody(c)), gs, r, RequestArm);
  }

  lemma FoldBudget(r: TaskRequest, n: Option<UInt64>, gs: seq<Field>)
    requires r.maxBudget.None?
    ensures FoldFields(OptionalBudget(n) + gs, r, RequestArm) == FoldFields(gs, r.(maxBudget := n), RequestArm)
  {
    match n
    case None => assert OptionalBudget(n) + gs == gs;
    case Some(v) => FoldOne(VarintField(24, v), gs, r, RequestArm);
  }

  lemma FoldRecruitment(r: TaskRequest, p: ResourceRecruitment, gs: seq<Field>)
    ensures FoldFields([BytesField(50, RecruitmentBody(p))] + gs, r, RequestArm) == FoldFields(gs, r.(resourceRecruitment := p), RequestArm)
  {
    RecruitmentRoundTrip(p);
    hide RecruitmentBody, ReadRecruitmentMessage;
    FoldOne(BytesField(50, RecruitmentBody(p)), gs, r, RequestArm);
  }

  lemma FoldReceiverAndData(r: TaskRequest, receiver: Option<string>, data: Option<Any>)
    requires r.receiver.None? && r.data.None? && (data.Some? ==> |AnyBody(data.value)| < TWO_32)
    ensures FoldFields(OptionalText(66, receiver) + OptionalAny(74, data), r, RequestArm)
         == Some(r.(receiver := receiver, data := data))
  {
    var r1 := r.(receiver := receiver);
    if receiver.Some? {
      FoldRequestText(r, 66, receiver.value, OptionalAny(74, data));
    } else {
      assert [] + OptionalAny(74, data) == OptionalAny(74, data);
    }
    if data.Some? {
      AnyRoundTrip(data.value);
      hide AnyBody, ReadAny;
      LastField(BytesField(74, AnyBody(data.value)), r1, RequestArm);
    }
  }

  /** from_reader gives back every task request under 4 GiB. */
  lemma RequestRoundTrip(r: TaskRequest)
    requires |RequestBody(r)| < TWO_32
    ensures ReadRequest(RequestBody(r)) == Some(r)
  {
    RequestPartsFit(r);
    RequestTags(r);
    FoldRequest(r);
    RecordRoundTrip(RequestFields(r), NO_REQUEST, RequestArm, r);
  }

  lemma FoldRequest(r: TaskRequest)
    requires |FiltersBody(r.capabilityFilters)| < TWO_32 && (r.data.Some? ==> |AnyBody(r.data.value)| < TWO_32)
    ensures FoldFields(RequestFields(r), NO_REQUEST, RequestArm) == Some(r)
  {
    hide Text, Texts, OptionalText, OptionalAny, OptionalBudget, FiltersBody, AnyBody, RecruitmentBody, RequestArm, FoldFields, EncodeFields;
    var f8 := OptionalText(66, r.receiver) + OptionalAny(74, r.data);
    var f7 := [Text(58, r.sender)] + f8;
    var f6 := RequestTail(r);
    var f5 := Texts(42, r.needs) + f6;
    var f4 := [Text(34, r.timeout)] + f5;
    var f3 := OptionalBudget(r.maxBudget) + f4;
    var f2 := [BytesField(18, FiltersBody(r.capabilityFilters))] + f3;
    var r1 := NO_REQUEST.(name := r.name);
    var r2 := r1.(capabilityFilters := r.capabilityFilters);
    var r3 := r2.(maxBudget := r.maxBudget);
    var r4 := r3.(timeout := r.timeout);
    var r5 := r4.(needs := [] + r.needs);
    var r6 := r5.(resourceRecruitment := r.resourceRecruitment);
    FoldRequestText(NO_REQUEST, 10, r.name, f2);
    FoldFilters(r1, r.capabilityFilters, f3);
    FoldBudget(r2, r.maxBudget, f4);
    FoldRequestText(r3, 34, r.timeout, f5);
    FoldNeeds(r.needs, f6, r4);
    FoldRecruitment(r5, r.resourceRecruitment, f7);
    FoldRequestText(r6, 58, r.sender, f8);
    FoldReceiverAndData(r6.(sender := r.sender), r.receiver, r.data);
    assert [] + r.needs == r.needs;
  }

  lemma RequestTags(r: TaskRequest)
    ensures TagsOk(RequestFields(r))
  {
    hide EncodeFields, Utf8.Encode, RecruitmentBody, FiltersBody, AnyBody;
    var f9 := OptionalAny(74, r.data);
    var f8 := OptionalText(66, r.receiver) + f9;
    var f7 := [Text(58, r.sender)] + f8;
    var f5 := Texts(42, r.needs) + RequestTail(r);
    var f4 := [Text(34, r.timeout)] + f5;
    TagsOkAppend(OptionalText(66, r.receiver), f9);
    TagsOkAppend([Text(58, r.sender)], f8);
    TagsOkAppend([BytesField(50, RecruitmentBody(r.resourceRecruitment))], f7);
    TagsOkAppend(Texts(42, r.needs), RequestTail(r));
    TagsOkAppend([Text(34, r.timeout)], f5);
    TagsOkAppend(OptionalBudget(r.maxBudget), f4);
  }

  // ---------- JobRequest ----------

  const NO_JOB: JobRequest := JobRequest("", [], "")

  function Requests(rs: seq<TaskRequest>): (fs: seq<Field>)
    ensures |fs| == |rs| && forall i | 0 <= i < |rs| :: fs[i] == BytesField(18, RequestBody(rs[i]))
  {
    seq(|rs|, i requires 0 <= i < |rs| => BytesField(18, RequestBody(rs[i])))
  }

  function JobFields(j: JobRequest): seq<Field> {
    [Text(10, j.name)] + (Requests(j.tasks) + [Text(26, j.nonce)])
  }

  function JobArm(j: JobRequest, f: Field): Option<JobRequest> {
    if f.BytesField? && (f.tag == 10 || f.tag == 26) then
      match Utf8.Decode(f.payload)
      case None => None
      case Some(s) => Some(if f.tag == 10 then j.(name := s) else j.(nonce := s))
    else if f.BytesField? && f.tag == 18 then
      match ReadRequest(f.payload)
      case None => None
      case Some(r) => Some(j.(tasks := j.tasks + [r]))
    else Some(j)
  }

  function JobBody(j: JobRequest): seq<Byte> {
    EncodeFields(JobFields(j))
  }

  function RequestsSize(rs: seq<TaskRequest>): nat {
    if rs == [] then 0 else (1 + SizeofLen(RequestSize(rs[0]))) + RequestsSize(rs[1..])
  }

  function JobSize(j: JobRequest): nat {
    TextSize(j.name) + RequestsSize(j.tasks) + TextSize(j.nonce)
  }

  function ReadJob(b: seq<Byte>): Option<JobRequest> {
    Absorb(b, NO_JOB, JobArm)
  }

  lemma RequestsFit(j: JobRequest, limit: nat)
    requires |JobBody(j)| < limit
    ensures forall i | 0 <= i < |j.tasks| :: |RequestBody(j.tasks[i])| < limit
  {
    var rs := Requests(j.tasks);
    EncodeAppend(rs, [Text(26, j.nonce)]);
    SuffixFits([Text(10, j.name)], rs + [Text(26, j.nonce)]);
    hide EncodeFields, RequestBody;
    forall i | 0 <= i < |j.tasks|
      ensures |RequestBody(j.tasks[i])| < limit
    {
      FieldFits(rs, i);
    }
  }

  lemma {:induction false} RequestsFieldsSize(rs: seq<TaskRequest>)
    requires forall i | 0 <= i < |rs| :: |RequestBody(rs[i])| < TWO_64
    ensures SizeOfFields(Requests(rs)) == RequestsSize(rs)
    decreases |rs|
  {
    hide RequestBody, RequestSize, SizeOfField, SizeofLen;
    if rs != [] {
      assert Requests(rs) == [BytesField(18, RequestBody(rs[0]))] + Requests(rs[1..]);
      SizeAppend([BytesField(18, RequestBody(rs[0]))], Requests(rs[1..]));
      BytesFieldSize(18, RequestBody(rs[0]));
      RequestSizeIsExact(rs[0]);
      RequestsFieldsSize(rs[1..]);
    }
  }

  /** The written bytes number exactly get_size. */
  lemma JobSizeIsExact(j: JobRequest)
    requires |JobBody(j)| < TWO_64
    ensures |JobBody(j)| == JobSize(j)
  {
    RequestsFit(j, TWO_64);
    RecordSize(JobFields(j));
    RequestsFieldsSize(j.tasks);
    hide Text, TextSize, Requests, SizeOfField, SizeOfFields, RequestsSize, EncodeFields;
    SizeAppend(Requests(j.tasks), [Text(26, j.nonce)]);
    SizeAppend([Text(10, j.name)], Requests(j.tasks) + [Text(26, j.nonce)]);
    TextFieldSize(10, j.name);
    TextFieldSize(26, j.nonce);
  }

  lemma AbsorbRequest(j: JobRequest, r: TaskRequest)
    requires |RequestBody(r)| < TWO_32
    ensures JobArm(j, BytesField(18, RequestBody(r))) == Some(j.(tasks := j.tasks + [r]))
  {
    RequestRoundTrip(r);
    hide RequestBody, ReadRequest;
  }

  lemma {:induction false} FoldRequests(rs: seq<TaskRequest>, gs: seq<Field>, j: JobRequest)
    requires forall i | 0 <= i < |rs| :: |RequestBody(rs[i])| < TWO_32
    ensures FoldFields(Requests(rs) + gs, j, JobArm) == FoldFields(gs, j.(tasks := j.tasks + rs), JobArm)
    decreases |rs|
  {
    hide RequestBody, JobArm, FoldFields;
    if rs == [] {
      assert Requests(rs) + gs == gs && j.tasks + rs == j.tasks;
    } else {
      assert Requests(rs) + gs == [BytesField(18, RequestBody(rs[0]))] + (Requests(rs[1..]) + gs);
      AbsorbRequest(j, rs[0]);
      FoldOne(BytesField(18, RequestBody(rs[0])), Requests(rs[1..]) + gs, j, JobArm);
      FoldRequests(rs[1..], gs, j.(tasks := j.tasks + [rs[0]]));
      assert j.tasks + [rs[0]] + rs[1..] == j.tasks + rs;
    }
  }

  /** The job that the domain manager reads is the job that was submitted. */
  lemma JobRoundTrip(j: JobRequest)
    requires |JobBody(j)| < TWO_32
    ensures ReadJob(JobBody(j)) == Some(j)
  {
    RequestsFit(j, TWO_32);
    JobTexts(j);
    var j1 := NO_JOB.(name := j.name);
    assert [] + j.tasks == j.tasks;
    hide Text, Requests, JobArm, FoldFields, EncodeFields, RequestBody;
    FoldOne(Text(10, j.name), Requests(j.tasks) + [Text(26, j.nonce)], NO_JOB, JobArm);
    FoldRequests(j.tasks, [Text(26, j.nonce)], j1);
    LastField(Text(26, j.nonce), j1.(tasks := j.tasks), JobArm);
    RecordRoundTrip(JobFields(j), NO_JOB, JobArm, j);
  }

  lemma JobTexts(j: JobRequest)
    ensures TagsOk(JobFields(j))
    ensures forall x: JobRequest :: JobArm(x, Text(10, j.name)) == Some(x.(name := j.name))
    ensures forall x: JobRequest :: JobArm(x, Text(26, j.nonce)) == Some(x.(nonce := j.nonce))
  {
    Utf8.RoundTrip(j.name);
    Utf8.RoundTrip(j.nonce);
    TagsOkAppend(Requests(j.tasks), [Text(26, j.nonce)]);
    TagsOkAppend([Text(10, j.name)], Requests(j.tasks) + [Text(26, j.nonce)]);
  }

  // ---------- LocalRefinementOutputV1 and GlobalRefinementInputV1 ----------

  function LocalFields(l: LocalRefinementOutputV1): seq<Field> {
    Texts(10, l.resultIds)
  }

  function LocalArm(l: LocalRefinementOutputV1, f: Field): Option<LocalRefinementOutputV1> {
    if f.BytesField? && f.tag == 10 then
      match Utf8.Decode(f.payload)
      case None => None
      case Some(s) => Some(l.(resultIds := l.resultIds + [s]))
    else Some(l)
  }

  function LocalBody(l: LocalRefinementOutputV1): seq<Byte> {
    EncodeFields(LocalFields(l))
  }

  function LocalSize(l: LocalRefinementOutputV1): nat {
    TextsSize(l.resultIds)
  }

  function SerializeLocal(l: LocalRefinementOutputV1): seq<Byte> {
    Delimited(LocalSize(l), LocalBody(l))
  }

  function DeserializeLocal(b: seq<Byte>): Option<LocalRefinementOutputV1> {
    Undelimited(b, LocalRefinementOutputV1([]), LocalArm)
  }

  lemma LocalText(l: LocalRefinementOutputV1, s: string)
    ensures LocalArm(l, Text(10, s)) == Some(l.(resultIds := l.resultIds + [s]))
  {
    Utf8.RoundTrip(s);
  }

  lemma {:induction false} FoldResultIds(ids: seq<string>, l: LocalRefinementOutputV1)
    ensures FoldFields(Texts(10, ids), l, LocalArm) == Some(l.(resultIds := l.resultIds + ids))
    decreases |ids|
  {
    hide *;
    TextsCons(10, ids);
    if ids == [] {
      assert l.resultIds + ids == l.resultIds;
      FoldNothing(l, LocalArm);
    } else {
      LocalText(l, ids[0]);
      FoldOne(Text(10, ids[0]), Texts(10, ids[1..]), l, LocalArm);
      FoldResultIds(ids[1..], l.(resultIds := l.resultIds + [ids[0]]));
      assert l.resultIds + [ids[0]] + ids[1..] == l.resultIds + ids;
    }
  }

  lemma LocalIs(l: LocalRefinementOutputV1)
    ensures LocalBody(l) == EncodeFields(LocalFields(l)) && LocalFields(l) == Texts(10, l.resultIds) && TagsOk(LocalFields(l))
    ensures LocalSize(l) == TextsSize(l.resultIds)
    ensures SerializeLocal(l) == Delimited(LocalSize(l), LocalBody(l))
    ensures forall b :: DeserializeLocal(b) == Undelimited(b, LocalRefinementOutputV1([]), LocalArm)
    ensures TWO_32 < TWO_64
  {
  }

  lemma LocalRoundTrip(l: LocalRefinementOutputV1)
    requires |LocalBody(l)| < TWO_32
    ensures |LocalBody(l)| == LocalSize(l)
    ensures Absorb(LocalBody(l), LocalRefinementOutputV1([]), LocalArm) == Some(l)
    ensures DeserializeLocal(SerializeLocal(l)) == Some(l)
  {
    hide *;
    var start := LocalRefinementOutputV1([]);
    LocalIs(l);
    RecordSize(LocalFields(l));
    TextsFieldsSize(10, l.resultIds);
    FoldResultIds(l.resultIds, start);
    assert [] + l.resultIds == l.resultIds;
    RecordRoundTrip(LocalFields(l), start, LocalArm, l);
    DelimitedRoundTrip(LocalBody(l), [], start, LocalArm);
    assert SerializeLocal(l) + [] == SerializeLocal(l);
  }

  function Locals(ls: seq<LocalRefinementOutputV1>): (fs: seq<Field>)
    ensures |fs| == |ls| && forall i | 0 <= i < |ls| :: fs[i] == BytesField(10, LocalBody(ls[i]))
  {
    seq(|ls|, i requires 0 <= i < |ls| => BytesField(10, LocalBody(ls[i])))
  }

  function GlobalArm(g: GlobalRefinementInputV1, f: Field): Option<GlobalRefinementInputV1> {
    if f.BytesField? && f.tag == 10 then
      match Absorb(f.payload, LocalRefinementOutputV1([]), LocalArm)
      case None => None
      case Some(l) => Some(g.(localRefinementResults := g.localRefinementResults + [l]))
    else Some(g)
  }

  function GlobalBody(g: GlobalRefinementInputV1): seq<Byte> {
    EncodeFields(Locals(g.localRefinementResults))
  }

  function LocalsSize(ls: seq<LocalRefinementOutputV1>): nat {
    if ls == [] then 0 else (1 + SizeofLen(LocalSize(ls[0]))) + LocalsSize(ls[1..])
  }

  function GlobalSize(g: GlobalRefinementInputV1): nat {
    LocalsSize(g.localRefinementResults)
  }

  function ReadGlobal(b: seq<Byte>): Option<GlobalRefinementInputV1> {
    Absorb(b, GlobalRefinementInputV1([]), GlobalArm)
  }

  lemma LocalsFit(ls: seq<LocalRefinementOutputV1>, limit: nat)
    requires |EncodeFields(Locals(ls))| < limit
    ensures forall i | 0 <= i < |ls| :: |LocalBody(ls[i])| < limit
  {
    hide EncodeFields, LocalBody;
    forall i | 0 <= i < |ls|
      ensures |LocalBody(ls[i])| < limit
    {
      FieldFits(Locals(ls), i);
    }
  }

  lemma {:induction false} LocalsFieldsSize(ls: seq<LocalRefinementOutputV1>)
    requires forall i | 0 <= i < |ls| :: |LocalBody(ls[i])| < TWO_32
    ensures SizeOfFields(Locals(ls)) == LocalsSize(ls)
    decreases |ls|
  {
    hide LocalBody, LocalSize, SizeOfField, SizeofLen;
    if ls != [] {
      assert Locals(ls) == [BytesField(10, LocalBody(ls[0]))] + Locals(ls[1..]);
      SizeAppend([BytesField(10, LocalBody(ls[0]))], Locals(ls[1..]));
      BytesFieldSize(10, LocalBody(ls[0]));
      LocalRoundTrip(ls[0]);
      LocalsFieldsSize(ls[1..]);
    }
  }

  lemma AbsorbLocal(g: GlobalRefinementInputV1, l: LocalRefinementOutputV1)
    requires |LocalBody(l)| < TWO_32
    ensures GlobalArm(g, BytesField(10, LocalBody(l))) == Some(g.(localRefinementResults := g.localRefinementResults + [l]))
  {
    LocalRoundTrip(l);
    hide LocalBody, Absorb;
  }

  lemma {:induction false} FoldLocals(ls: seq<LocalRefinementOutputV1>, done: seq<LocalRefinementOutputV1>)
    requires forall i | 0 <= i < |ls| :: |LocalBody(ls[i])| < TWO_32
    ensures FoldFields(Locals(ls), GlobalRefinementInputV1(done), GlobalArm) == Some(GlobalRefinementInputV1(done + ls))
    decreases |ls|
  {
    hide *;
    var g := GlobalRefinementInputV1(done);
    if ls == [] {
      assert done + ls == done && Locals(ls) == [];
      FoldNothing(g, GlobalArm);
    } else {
      var first, rest := BytesField(10, LocalBody(ls[0])), ls[1..];
      AbsorbLocal(g, ls[0]);
      LocalsCons(ls);
      FoldOne(first, Locals(rest), g, GlobalArm);
      FoldLocals(rest, done + [ls[0]]);
      assert done + [ls[0]] + rest == done + ls;
    }
  }

  lemma LocalsCons(ls: seq<LocalRefinementOutputV1>)
    requires ls != []
    ensures Locals(ls) == [BytesField(10, LocalBody(ls[0]))] + Locals(ls[1..])
  {
  }

  lemma GlobalIs(g: GlobalRefinementInputV1)
    ensures var fs := Locals(g.localRefinementResults);
      && TagsOk(fs)
      && GlobalBody(g) == EncodeFields(fs)
      && GlobalSize(g) == LocalsSize(g.localRefinementResults)
      && ReadGlobal(GlobalBody(g)) == Absorb(GlobalBody(g), GlobalRefinementInputV1([]), GlobalArm)
    ensures TWO_32 < TWO_64
  {
  }

  /** The worker reads back the outputs that run_task gathered, and the size it was told is right. */
  lemma GlobalRoundTrip(g: GlobalRefinementInputV1)
    requires |GlobalBody(g)| < TWO_32
    ensures |GlobalBody(g)| == GlobalSize(g)
    ensures ReadGlobal(GlobalBody(g)) == Some(g)
  {
    hide *;
    var ls, start := g.localRefinementResults, GlobalRefinementInputV1([]);
    GlobalIs(g);
    LocalsFit(ls, TWO_32);
    RecordSize(Locals(ls));
    LocalsFieldsSize(ls);
    FoldLocals(ls, []);
    assert [] + ls == ls;
    RecordRoundTrip(Locals(ls), start, GlobalArm, g);
  }

  // ---------- TaskHandler ----------

  const NO_HANDLER: TaskHandler := TaskHandler(NO_TASK, map[], "", "", 0, 0, 0)

  function DependencyFields(key: string, done: bool): seq<Field> {
    [Text(10, key), Flag(16, done)]
  }

  function Dependency(key: string, done: bool): Field {
    BytesField(18, EncodeFields(DependencyFields(key, done)))
  }

  function DependencyArm(e: (string, bool), f: Field): Option<(string, bool)> {
    if f.BytesField? && f.tag / 8 == 1 then
      match Utf8.Decode(f.payload)
      case None => None
      case Some(s) => Some((s, e.1))
    else if f.VarintField? && f.tag / 8 == 2 then Some((e.0, ReadBool(f.value)))
    else None
  }

  function ReadDependency(b: seq<Byte>): Option<(string, bool)> {
    Absorb(b, ("", false), DependencyArm)
  }

  function Dependencies(dependencies: map<string, bool>, order: seq<string>): (fs: seq<Field>)
    requires forall k | k in order :: k in dependencies
    ensures |fs| == |order|
  {
    seq(|order|, i requires 0 <= i < |order| => Dependency(order[i], dependencies[order[i]]))
  }

  function HandlerTail(h: TaskHandler): seq<Field> {
    [Text(26, h.jobId), Text(34, h.errMsg), VarintField(40, h.retries), VarintField(48, h.updatedAt), VarintField(56, h.createdAt)]
  }

  /** `order` is the order in which the dependencies are iterated. */
  function HandlerFields(h: TaskHandler, order: seq<string>): seq<Field>
    requires IsOrder(order, h.dependencies.Keys)
  {
    [BytesField(10, TaskBody(h.task))] + (Dependencies(h.dependencies, order) + HandlerTail(h))
  }

  function HandlerArm(h: TaskHandler, f: Field): Option<TaskHandler> {
    if f.BytesField? && f.tag == 10 then
      match ReadTask(f.payload)
      case None => None
      case Some(t) => Some(h.(task := t))
    else if f.BytesField? && f.tag == 18 then
      match ReadDependency(f.payload)
      case None => None
      case Some((k, done)) => Some(h.(dependencies := h.dependencies[k := done]))
    else if f.BytesField? && (f.tag == 26 || f.tag == 34) then
      match Utf8.Decode(f.payload)
      case None => None
      case Some(s) => Some(if f.tag == 26 then h.(jobId := s) else h.(errMsg := s))
    else if f.VarintField? && f.tag == 40 then Some(h.(retries := f.value % 0x1_0000_0000))
    else if f.VarintField? && f.tag == 48 then Some(h.(updatedAt := f.value))
    else if f.VarintField? && f.tag == 56 then Some(h.(createdAt := f.value))
    else Some(h)
  }

  function HandlerBody(h: TaskHandler, order: seq<string>): seq<Byte>
    requires IsOrder(order, h.dependencies.Keys)
  {
    EncodeFields(HandlerFields(h, order))
  }

  function DependencySize(key: string, done: bool): nat {
    1 + SizeofLen(2 + SizeofLen(|Utf8.Encode(key)|) + SizeofVarint(BoolCode(done)))
  }

  function DependenciesSize(dependencies: map<string, bool>, order: seq<string>): nat
    requires forall k | k in order :: k in dependencies
  {
    if order == [] then 0
    else DependencySize(order[0], dependencies[order[0]]) + DependenciesSize(dependencies, order[1..])
  }

  function HandlerSize(h: TaskHandler, order: seq<string>): nat
    requires IsOrder(order, h.dependencies.Keys)
  {
    (1 + SizeofLen(TaskSize(h.task))) + DependenciesSize(h.dependencies, order) + TextSize(h.jobId) + TextSize(h.errMsg)
      + (1 + SizeofVarint(h.retries)) + (1 + SizeofVarint(h.updatedAt)) + (1 + SizeofVarint(h.createdAt))
  }

  function ReadHandler(b: seq<Byte>): Option<TaskHandler> {
    Absorb(b, NO_HANDLER, HandlerArm)
  }

  lemma HandlerPartsFit(h: TaskHandler, order: seq<string>, limit: nat)
    requires IsOrder(order, h.dependencies.Keys) && |HandlerBody(h, order)| < limit
    ensures |TaskBody(h.task)| < limit
    ensures forall i | 0 <= i < |order| :: |EncodeFields(DependencyFields(order[i], h.dependencies[order[i]]))| < limit
  {
    var ds := Dependencies(h.dependencies, order);
    var rest := ds + HandlerTail(h);
    EncodeAppend(ds, HandlerTail(h));
    SuffixFits([BytesField(10, TaskBody(h.task))], rest);
    hide EncodeFields, TaskBody, DependencyFields;
    FieldFits([BytesField(10, TaskBody(h.task))] + rest, 0);
    forall i | 0 <= i < |order|
      ensures |EncodeFields(DependencyFields(order[i], h.dependencies[order[i]]))| < limit
    {
      assert ds[i] == Dependency(order[i], h.dependencies[order[i]]);
      FieldFits(ds, i);
    }
  }

  lemma DependencyFieldSize(key: string, done: bool)
    requires |EncodeFields(DependencyFields(key, done))| < TWO_64
    ensures SizeOfField(Dependency(key, done)) == DependencySize(key, done)
  {
    var fs := DependencyFields(key, done);
    RecordSize(fs);
    assert fs == [Text(10, key)] + [Flag(16, done)];
    SizeAppend([Text(10, key)], [Flag(16, done)]);
    TextFieldSize(10, key);
    OneFieldSize(Flag(16, done));
  }

  lemma {:induction false} DependenciesFieldsSize(dependencies: map<string, bool>, order: seq<string>)
    requires forall k | k in order :: k in dependencies
    requires forall i | 0 <= i < |order| :: |EncodeFields(DependencyFields(order[i], dependencies[order[i]]))| < TWO_64
    ensures SizeOfFields(Dependencies(dependencies, order)) == DependenciesSize(dependencies, order)
    decreases |order|
  {
    hide EncodeFields, DependencyFields, SizeOfField, DependencySize, Dependency;
    if order != [] {
      assert Dependencies(dependencies, order)[0] == Dependency(order[0], dependencies[order[0]]);
      DependencyFieldSize(order[0], dependencies[order[0]]);
      assert Dependencies(dependencies, order)[1..] == Dependencies(dependencies, order[1..]);
      DependenciesFieldsSize(dependencies, order[1..]);
    }
  }

  lemma HandlerTailSize(h: TaskHandler)
    ensures SizeOfFields(HandlerTail(h)) == TextSize(h.jobId) + TextSize(h.errMsg)
      + (1 + SizeofVarint(h.retries)) + (1 + SizeofVarint(h.updatedAt)) + (1 + SizeofVarint(h.createdAt))
  {
    var fs := HandlerTail(h);
    TextFieldSize(26, h.jobId);
    TextFieldSize(34, h.errMsg);
    VarintFieldSize(40, h.retries);
    VarintFieldSize(48, h.updatedAt);
    VarintFieldSize(56, h.createdAt);
    OneFieldSize(fs[4]);
    hide SizeOfField, SizeOfFields, TextSize, Text;
    assert fs == [fs[0]] + ([fs[1]] + ([fs[2]] + ([fs[3]] + [fs[4]])));
    OneFieldSize(fs[0]);
    OneFieldSize(fs[1]);
    OneFieldSize(fs[2]);
    OneFieldSize(fs[3]);
    SizeAppend([fs[3]], [fs[4]]);
    SizeAppend([fs[2]], [fs[3]] + [fs[4]]);
    SizeAppend([fs[1]], [fs[2]] + ([fs[3]] + [fs[4]]));
    SizeAppend([fs[0]], [fs[1]] + ([fs[2]] + ([fs[3]] + [fs[4]])));
  }

  /** The written bytes number exactly get_size, whatever order the map is iterated in. */
  lemma HandlerSizeIsExact(h: TaskHandler, order: seq<string>)
    requires IsOrder(order, h.dependencies.Keys) && |HandlerBody(h, order)| < TWO_64
    ensures |HandlerBody(h, order)| == HandlerSize(h, order)
  {
    HandlerPartsFit(h, order, TWO_64);
    RecordSize(HandlerFields(h, order));
    TaskSizeIsExact(h.task);
    DependenciesFieldsSize(h.dependencies, order);
    HandlerTailSize(h);
    hide TaskBody, TaskSize, Dependencies, DependenciesSize, HandlerTail, SizeOfField, SizeOfFields, EncodeFields, SizeofLen, TextSize;
    var ds, tail := Dependencies(h.dependencies, order), HandlerTail(h);
    SizeAppend(ds, tail);
    SizeAppend([BytesField(10, TaskBody(h.task))], ds + tail);
    BytesFieldSize(10, TaskBody(h.task));
  }

  lemma DependencyArms(key: string, done: bool)
    ensures DependencyArm(("", false), Text(10, key)) == Some((key, false))
    ensures DependencyArm((key, false), Flag(16, done)) == Some((key, done))
    ensures TagsOk(DependencyFields(key, done))
  {
    Utf8.RoundTrip(key);
  }

  lemma ReadWrittenDependency(key: string, done: bool)
    requires |EncodeFields(DependencyFields(key, done))| < TWO_32
    ensures ReadDependency(EncodeFields(DependencyFields(key, done))) == Some((key, done))
  {
    var fs := DependencyFields(key, done);
    DependencyArms(key, done);
    hide EncodeFields, FoldFields, DependencyArm, Text, Flag;
    assert fs == [Text(10, key)] + [Flag(16, done)];
    FoldOne(Text(10, key), [Flag(16, done)], ("", false), DependencyArm);
    LastField(Flag(16, done), (key, false), DependencyArm);
    RecordRoundTrip(fs, ("", false), DependencyArm, (key, done));
  }

  lemma AbsorbDependency(h: TaskHandler, key: string, done: bool)
    requires |EncodeFields(DependencyFields(key, done))| < TWO_32
    ensures HandlerArm(h, Dependency(key, done)) == Some(h.(dependencies := h.dependencies[key := done]))
  {
    ReadWrittenDependency(key, done);
    hide ReadDependency, EncodeFields;
  }

  lemma {:induction false} FoldDependencies(dependencies: map<string, bool>, order: seq<string>, keys: set<string>, gs: seq<Field>, h: TaskHandler)
    requires forall k | k in order :: k in dependencies
    requires forall i | 0 <= i < |order| :: |EncodeFields(DependencyFields(order[i], dependencies[order[i]]))| < TWO_32
    requires h.dependencies == Restricted(dependencies, keys)
    ensures FoldFields(Dependencies(dependencies, order) + gs, h, HandlerArm)
         == FoldFields(gs, h.(dependencies := Restricted(dependencies, keys + set k | k in order)), HandlerArm)
    decreases |order|
  {
    hide HandlerArm, Dependency, EncodeFields, Restricted, FoldFields, DependencyFields;
    if order == [] {
      assert keys + (set k | k in order) == keys;
      assert Dependencies(dependencies, order) + gs == gs;
    } else {
      var k := order[0];
      AbsorbDependency(h, k, dependencies[k]);
      assert Dependencies(dependencies, order) + gs == [Dependency(k, dependencies[k])] + (Dependencies(dependencies, order[1..]) + gs);
      FoldOne(Dependency(k, dependencies[k]), Dependencies(dependencies, order[1..]) + gs, h, HandlerArm);
      RestrictedStep(dependencies, keys, k);
      FoldDependencies(dependencies, order[1..], keys + {k}, gs, h.(dependencies := h.dependencies[k := dependencies[k]]));
      assert keys + {k} + (set j | j in order[1..]) == keys + set j | j in order;
    }
  }

  lemma FoldHandlerTail(h0: TaskHandler, h: TaskHandler)
    ensures FoldFields(HandlerTail(h), h0, HandlerArm)
         == Some(h0.(jobId := h.jobId, errMsg := h.errMsg, retries := h.retries, updatedAt := h.updatedAt, createdAt := h.createdAt))
  {
    var fs := HandlerTail(h);
    Utf8.RoundTrip(h.jobId);
    Utf8.RoundTrip(h.errMsg);
    hide FoldFields;
    var h1 := h0.(jobId := h.jobId);
    var h2 := h1.(errMsg := h.errMsg);
    var h3 := h2.(retries := h.retries);
    var h4 := h3.(updatedAt := h.updatedAt);
    assert fs == [fs[0]] + ([fs[1]] + ([fs[2]] + ([fs[3]] + [fs[4]])));
    FoldOne(fs[0], [fs[1]] + ([fs[2]] + ([fs[3]] + [fs[4]])), h0, HandlerArm);
    FoldOne(fs[1], [fs[2]] + ([fs[3]] + [fs[4]]), h1, HandlerArm);
    FoldOne(fs[2], [fs[3]] + [fs[4]], h2, HandlerArm);
    FoldOne(fs[3], [fs[4]], h3, HandlerArm);
    LastField(fs[4], h4, HandlerArm);
  }

  /** A monitor reads back every handler under 4 GiB, whatever order its dependencies were written in. */
  lemma HandlerRoundTrip(h: TaskHandler, order: seq<string>)
    requires IsOrder(order, h.dependencies.Keys) && |HandlerBody(h, order)| < TWO_32
    ensures ReadHandler(HandlerBody(h, order)) == Some(h)
  {
    HandlerPartsFit(h, order, TWO_32);
    HandlerTags(h, order);
    RestrictedAll(h.dependencies, order);
    AbsorbTask(NO_HANDLER, h.task);
    hide HandlerArm, FoldFields, EncodeFields, TaskBody, Dependencies, HandlerTail, Restricted, DependencyFields;
    var h1 := NO_HANDLER.(task := h.task);
    FoldOne(BytesField(10, TaskBody(h.task)), Dependencies(h.dependencies, order) + HandlerTail(h), NO_HANDLER, HandlerArm);
    FoldDependencies(h.dependencies, order, {}, HandlerTail(h), h1);
    FoldHandlerTail(h1.(dependencies := h.dependencies), h);
    RecordRoundTrip(HandlerFields(h, order), NO_HANDLER, HandlerArm, h);
  }

  lemma AbsorbTask(h: TaskHandler, t: Task)
    requires |TaskBody(t)| < TWO_32
    ensures HandlerArm(h, BytesField(10, TaskBody(t))) == Some(h.(task := t))
  {
    TaskRoundTrip(t);
    hide TaskBody, ReadTask;
  }

  lemma HandlerTags(h: TaskHandler, order: seq<string>)
    requires IsOrder(order, h.dependencies.Keys)
    ensures TagsOk(HandlerFields(h, order))
  {
    var ds := Dependencies(h.dependencies, order);
    assert TagsOk(ds) && TagsOk(HandlerTail(h));
    TagsOkAppend(ds, HandlerTail(h));
    TagsOkAppend([BytesField(10, TaskBody(h.task))], ds + HandlerTail(h));
  }
}
