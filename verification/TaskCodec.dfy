/** The codec of core/domain/src/protobuf/task.rs. */
module TaskCodec {
  import opened Wrappers
  import opened Messages
  import opened Orders
  import opened Wire
  import opened Codec
  import Utf8

  // ---------- Any ----------

  const NO_ANY: Any := Any("", [])

  function AnyFields(a: Any): seq<Field> {
    [Text(10, a.typeUrl), BytesField(18, a.value)]
  }

  function AnyArm(a: Any, f: Field): Option<Any> {
    if f.BytesField? && f.tag == 10 then
      match Utf8.Decode(f.payload)
      case None => None
      case Some(s) => Some(a.(typeUrl := s))
    else if f.BytesField? && f.tag == 18 then Some(a.(value := f.payload))
    else Some(a)
  }

  function AnyBody(a: Any): seq<Byte> {
    EncodeFields(AnyFields(a))
  }

  function AnySize(a: Any): nat {
    TextSize(a.typeUrl) + (1 + SizeofLen(|a.value|))
  }

  function ReadAny(b: seq<Byte>): Option<Any> {
    Absorb(b, NO_ANY, AnyArm)
  }

  lemma AnySizeIsExact(a: Any)
    requires |AnyBody(a)| < TWO_64
    ensures |AnyBody(a)| == AnySize(a)
  {
    var fs := AnyFields(a);
    RecordSize(fs);
    assert fs == [fs[0]] + [fs[1]];
    SizeAppend([fs[0]], [fs[1]]);
    TextFieldSize(10, a.typeUrl);
    OneFieldSize(fs[1]);
  }

  lemma AnyRoundTrip(a: Any)
    requires |AnyBody(a)| < TWO_32
    ensures ReadAny(AnyBody(a)) == Some(a)
  {
    var fs := AnyFields(a);
    Utf8.RoundTrip(a.typeUrl);
    hide EncodeFields, FoldFields;
    assert fs == [fs[0]] + [fs[1]];
    FoldOne(fs[0], [fs[1]], NO_ANY, AnyArm);
    LastField(fs[1], NO_ANY.(typeUrl := a.typeUrl), AnyArm);
    RecordRoundTrip(fs, NO_ANY, AnyArm, a);
  }

  // ---------- CapabilityFilters ----------

  const NO_FILTERS: CapabilityFilters := CapabilityFilters("", None, None)

  function OptionalInt(tag: UInt32, n: Option<Int32>): seq<Field> {
    match n
    case None => []
    case Some(i) => [VarintField(tag, Int32Code(i))]
  }

  function OptionalIntSize(n: Option<Int32>): nat {
    match n
    case None => 0
    case Some(i) => 1 + SizeofVarint(Int32Code(i))
  }

  function FiltersFields(c: CapabilityFilters): seq<Field> {
    [Text(10, c.endpoint)] + (OptionalInt(16, c.minGpu) + OptionalInt(24, c.minCpu))
  }

  function FiltersArm(c: CapabilityFilters, f: Field): Option<CapabilityFilters> {
    if f.BytesField? && f.tag == 10 then
      match Utf8.Decode(f.payload)
      case None => None
      case Some(s) => Some(c.(endpoint := s))
    else if f.VarintField? && f.tag == 16 then Some(c.(minGpu := Some(ReadInt32(f.value))))
    else if f.VarintField? && f.tag == 24 then Some(c.(minCpu := Some(ReadInt32(f.value))))
    else Some(c)
  }

  function FiltersBody(c: CapabilityFilters): seq<Byte> {
    EncodeFields(FiltersFields(c))
  }

  function FiltersSize(c: CapabilityFilters): nat {
    TextSize(c.endpoint) + OptionalIntSize(c.minGpu) + OptionalIntSize(c.minCpu)
  }

  function ReadFilters(b: seq<Byte>): Option<CapabilityFilters> {
    Absorb(b, NO_FILTERS, FiltersArm)
  }

  lemma OptionalIntFieldSize(tag: UInt32, n: Option<Int32>)
    requires tag < 0x80
    ensures SizeOfFields(OptionalInt(tag, n)) == OptionalIntSize(n)
  {
  }

  lemma FiltersSizeIsExact(c: CapabilityFilters)
    requires |FiltersBody(c)| < TWO_64
    ensures |FiltersBody(c)| == FiltersSize(c)
  {
    RecordSize(FiltersFields(c));
    SizeAppend(OptionalInt(16, c.minGpu), OptionalInt(24, c.minCpu));
    SizeAppend([Text(10, c.endpoint)], OptionalInt(16, c.minGpu) + OptionalInt(24, c.minCpu));
    TextFieldSize(10, c.endpoint);
    OptionalIntFieldSize(16, c.minGpu);
    OptionalIntFieldSize(24, c.minCpu);
  }

  /** Negative minima survive as well: ten bytes out, the low 32 bits back in. */
  lemma FiltersRoundTrip(c: CapabilityFilters)
    requires |FiltersBody(c)| < TWO_32
    ensures ReadFilters(FiltersBody(c)) == Some(c)
  {
    var f2, f3 := OptionalInt(16, c.minGpu), OptionalInt(24, c.minCpu);
    var c1 := NO_FILTERS.(endpoint := c.endpoint);
    var c2 := c1.(minGpu := c.minGpu);
    Utf8.RoundTrip(c.endpoint);
    hide EncodeFields, FoldFields, Int32Code, ReadInt32;
    FoldOne(Text(10, c.endpoint), f2 + f3, NO_FILTERS, FiltersArm);
    if c.minGpu.Some? {
      Int32RoundTrip(c.minGpu.value);
      FoldOne(f2[0], f3, c1, FiltersArm);
    } else {
      assert f2 + f3 == f3;
    }
    if c.minCpu.Some? {
      Int32RoundTrip(c.minCpu.value);
      LastField(f3[0], c2, FiltersArm);
    } else {
      FoldNothing(c2, FiltersArm);
    }
    FiltersTags(c);
    RecordRoundTrip(FiltersFields(c), NO_FILTERS, FiltersArm, c);
  }

  lemma FiltersTags(c: CapabilityFilters)
    ensures TagsOk(FiltersFields(c))
  {
  }

  // ---------- ResourceRecruitment ----------

  const NO_RECRUITMENT: ResourceRecruitment := ResourceRecruitment(ALWAYS, KEEP)

  function RecruitmentFields(r: ResourceRecruitment): seq<Field> {
    [VarintField(8, RecruitmentCode(r.recruitmentPolicy)), VarintField(16, TerminationCode(r.terminationPolicy))]
  }

  function RecruitmentArm(r: ResourceRecruitment, f: Field): Option<ResourceRecruitment> {
    if f.VarintField? && f.tag == 8 then Some(r.(recruitmentPolicy := ReadRecruitment(f.value)))
    else if f.VarintField? && f.tag == 16 then Some(r.(terminationPolicy := ReadTermination(f.value)))
    else Some(r)
  }

  function RecruitmentBody(r: ResourceRecruitment): seq<Byte> {
    EncodeFields(RecruitmentFields(r))
  }

  function RecruitmentSize(r: ResourceRecruitment): nat {
    (1 + SizeofVarint(RecruitmentCode(r.recruitmentPolicy))) + (1 + SizeofVarint(TerminationCode(r.terminationPolicy)))
  }

  function ReadRecruitmentMessage(b: seq<Byte>): Option<ResourceRecruitment> {
    Absorb(b, NO_RECRUITMENT, RecruitmentArm)
  }

  lemma RecruitmentSizeIsExact(r: ResourceRecruitment)
    ensures |RecruitmentBody(r)| == RecruitmentSize(r) < 100
  {
  }

  lemma RecruitmentRoundTrip(r: ResourceRecruitment)
    ensures ReadRecruitmentMessage(RecruitmentBody(r)) == Some(r)
  {
    var fs := RecruitmentFields(r);
    RecruitmentSizeIsExact(r);
    hide EncodeFields, FoldFields;
    assert fs == [fs[0]] + [fs[1]];
    FoldOne(fs[0], [fs[1]], NO_RECRUITMENT, RecruitmentArm);
    LastField(fs[1], NO_RECRUITMENT.(recruitmentPolicy := r.recruitmentPolicy), RecruitmentArm);
    RecordRoundTrip(fs, NO_RECRUITMENT, RecruitmentArm, r);
  }

  // ---------- Task ----------

  const NO_TASK: Task := Task("", None, "", None, "", "", PENDING, None)

  function OptionalAny(tag: UInt32, a: Option<Any>): seq<Field> {
    match a
    case None => []
    case Some(x) => [BytesField(tag, AnyBody(x))]
  }

  function OptionalAnySize(a: Option<Any>): nat {
    match a
    case None => 0
    case Some(x) => 1 + SizeofLen(AnySize(x))
  }

  lemma OptionalAnyFieldSize(tag: UInt32, a: Option<Any>)
    requires tag < 0x80 && (a.Some? ==> |AnyBody(a.value)| < TWO_64)
    ensures SizeOfFields(OptionalAny(tag, a)) == OptionalAnySize(a)
  {
    if a.Some? {
      AnySizeIsExact(a.value);
      OneFieldSize(BytesField(tag, AnyBody(a.value)));
    }
  }

  function TaskFields(t: Task): seq<Field> {
    [Text(18, t.name)] + (OptionalText(26, t.receiver) + ([Text(34, t.endpoint)] + (OptionalText(42, t.accessToken)
      + ([Text(50, t.jobId)] + ([Text(58, t.sender)] + ([VarintField(72, StatusCode(t.status))] + OptionalAny(82, t.output)))))))
  }

  function WithTaskText(t: Task, tag: UInt32, s: string): Task {
    if tag == 18 then t.(name := s)
    else if tag == 26 then t.(receiver := Some(s))
    else if tag == 34 then t.(endpoint := s)
    else if tag == 42 then t.(accessToken := Some(s))
    else if tag == 50 then t.(jobId := s)
    else t.(sender := s)
  }

  function TaskArm(t: Task, f: Field): Option<Task> {
    if f.BytesField? && f.tag in {18, 26, 34, 42, 50, 58} then
      match Utf8.Decode(f.payload)
      case None => None
      case Some(s) => Some(WithTaskText(t, f.tag, s))
    else if f.VarintField? && f.tag == 72 then Some(t.(status := ReadStatus(f.value)))
    else if f.BytesField? && f.tag == 82 then
      match ReadAny(f.payload)
      case None => None
      case Some(a) => Some(t.(output := Some(a)))
    else Some(t)
  }

  function TaskBody(t: Task): seq<Byte> {
    EncodeFields(TaskFields(t))
  }

  function TaskSize(t: Task): nat {
    TextSize(t.name) + OptionalTextSize(t.receiver) + TextSize(t.endpoint) + OptionalTextSize(t.accessToken)
      + TextSize(t.jobId) + TextSize(t.sender) + (1 + SizeofVarint(StatusCode(t.status))) + OptionalAnySize(t.output)
  }

  function ReadTask(b: seq<Byte>): Option<Task> {
    Absorb(b, NO_TASK, TaskArm)
  }

  lemma OutputFits(t: Task)
    ensures t.output.Some? ==> |AnyBody(t.output.value)| < |TaskBody(t)|
  {
    var f8 := OptionalAny(82, t.output);
    var f7 := [VarintField(72, StatusCode(t.status))] + f8;
    var f6 := [Text(58, t.sender)] + f7;
    var f5 := [Text(50, t.jobId)] + f6;
    var f4 := OptionalText(42, t.accessToken) + f5;
    var f3 := [Text(34, t.endpoint)] + f4;
    var f2 := OptionalText(26, t.receiver) + f3;
    hide EncodeFields, AnyBody, Text;
    if t.output.Some? { FieldFits(f8, 0); }
    SuffixFits([VarintField(72, StatusCode(t.status))], f8);
    SuffixFits([Text(58, t.sender)], f7);
    SuffixFits([Text(50, t.jobId)], f6);
    SuffixFits(OptionalText(42, t.accessToken), f5);
    SuffixFits([Text(34, t.endpoint)], f4);
    SuffixFits(OptionalText(26, t.receiver), f3);
    SuffixFits([Text(18, t.name)], f2);
  }

  /** The written bytes number exactly get_size, nested length prefixes included. */
  lemma TaskSizeIsExact(t: Task)
    requires |TaskBody(t)| < TWO_64
    ensures |TaskBody(t)| == TaskSize(t)
  {
    OutputFits(t);
    RecordSize(TaskFields(t));
    TaskFieldsSize(t);
  }

  lemma TaskFieldsSize(t: Task)
    requires t.output.Some? ==> |AnyBody(t.output.value)| < TWO_64
    ensures SizeOfFields(TaskFields(t)) == TaskSize(t)
  {
    hide Text, TextSize, OptionalText, OptionalTextSize, OptionalAny, OptionalAnySize, SizeOfFields, SizeOfField, AnyBody;
    var f8 := OptionalAny(82, t.output);
    var f7 := [VarintField(72, StatusCode(t.status))] + f8;
    var f6 := [Text(58, t.sender)] + f7;
    var f5 := [Text(50, t.jobId)] + f6;
    var f4 := OptionalText(42, t.accessToken) + f5;
    var f3 := [Text(34, t.endpoint)] + f4;
    var f2 := OptionalText(26, t.receiver) + f3;
    SizeAppend([VarintField(72, StatusCode(t.status))], f8);
    SizeAppend([Text(58, t.sender)], f7);
    SizeAppend([Text(50, t.jobId)], f6);
    SizeAppend(OptionalText(42, t.accessToken), f5);
    SizeAppend([Text(34, t.endpoint)], f4);
    SizeAppend(OptionalText(26, t.receiver), f3);
    SizeAppend([Text(18, t.name)], f2);
    TextFieldSize(18, t.name);
    OptionalTextFieldSize(26, t.receiver);
    TextFieldSize(34, t.endpoint);
    OptionalTextFieldSize(42, t.accessToken);
    TextFieldSize(50, t.jobId);
    TextFieldSize(58, t.sender);
    OneFieldSize(VarintField(72, StatusCode(t.status)));
    VarintFieldSize(72, StatusCode(t.status));
    OptionalAnyFieldSize(82, t.output);
  }

  lemma FoldTaskText(t: Task, tag: UInt32, s: string, gs: seq<Field>)
    requires tag in {18, 26, 34, 42, 50, 58}
    ensures FoldFields([Text(tag, s)] + gs, t, TaskArm) == FoldFields(gs, WithTaskText(t, tag, s), TaskArm)
  {
    Utf8.RoundTrip(s);
    FoldOne(Text(tag, s), gs, t, TaskArm);
  }

  lemma FoldOptionalTaskText(t: Task, tag: UInt32, s: Option<string>, gs: seq<Field>)
    requires tag in {18, 26, 34, 42, 50, 58}
    ensures FoldFields(OptionalText(tag, s) + gs, t, TaskArm)
         == FoldFields(gs, if s.Some? then WithTaskText(t, tag, s.value) else t, TaskArm)
  {
    match s
    case None => assert OptionalText(tag, s) + gs == gs;
    case Some(v) => FoldTaskText(t, tag, v, gs);
  }

  lemma FoldStatusAndOutput(t: Task, status: Status, output: Option<Any>)
    requires t.output.None? && (output.Some? ==> |AnyBody(output.value)| < TWO_32)
    ensures FoldFields([VarintField(72, StatusCode(status))] + OptionalAny(82, output), t, TaskArm)
         == Some(t.(status := status, output := output))
  {
    FoldOne(VarintField(72, StatusCode(status)), OptionalAny(82, output), t, TaskArm);
    if output.Some? {
      AnyRoundTrip(output.value);
      hide AnyBody, ReadAny;
      LastField(BytesField(82, AnyBody(output.value)), t.(status := status), TaskArm);
    }
  }

  /** from_reader gives back every task under 4 GiB. */
  lemma TaskRoundTrip(t: Task)
    requires |TaskBody(t)| < TWO_32
    ensures ReadTask(TaskBody(t)) == Some(t)
  {
    OutputFits(t);
    TaskTags(t);
    FoldTask(t);
    RecordRoundTrip(TaskFields(t), NO_TASK, TaskArm, t);
  }

  lemma FoldTask(t: Task)
    requires t.output.Some? ==> |AnyBody(t.output.value)| < TWO_32
    ensures FoldFields(TaskFields(t), NO_TASK, TaskArm) == Some(t)
  {
    hide Text, OptionalText, OptionalAny, AnyBody, TaskArm, FoldFields, EncodeFields, StatusCode;
    var f7 := [VarintField(72, StatusCode(t.status))] + OptionalAny(82, t.output);
    var f6 := [Text(58, t.sender)] + f7;
    var f5 := [Text(50, t.jobId)] + f6;
    var f4 := OptionalText(42, t.accessToken) + f5;
    var f3 := [Text(34, t.endpoint)] + f4;
    var f2 := OptionalText(26, t.receiver) + f3;
    var t1 := NO_TASK.(name := t.name);
    var t2 := t1.(receiver := t.receiver);
    var t3 := t2.(endpoint := t.endpoint);
    var t4 := t3.(accessToken := t.accessToken);
    var t5 := t4.(jobId := t.jobId);
    var t6 := t5.(sender := t.sender);
    FoldTaskText(NO_TASK, 18, t.name, f2);
    FoldOptionalTaskText(t1, 26, t.receiver, f3);
    FoldTaskText(t2, 34, t.endpoint, f4);
    FoldOptionalTaskText(t3, 42, t.accessToken, f5);
    FoldTaskText(t4, 50, t.jobId, f6);
    FoldTaskText(t5, 58, t.sender, f7);
    FoldStatusAndOutput(t6, t.status, t.output);
  }

  lemma TaskTags(t: Task)
    ensures TagsOk(TaskFields(t))
  {
    var f8 := OptionalAny(82, t.output);
    var f7 := [VarintField(72, StatusCode(t.status))] + f8;
    var f6 := [Text(58, t.sender)] + f7;
    var f5 := [Text(50, t.jobId)] + f6;
    var f4 := OptionalText(42, t.accessToken) + f5;
    var f3 := [Text(34, t.endpoint)] + f4;
    TagsOkAppend([VarintField(72, StatusCode(t.status))], f8);
    TagsOkAppend([Text(58, t.sender)], f7);
    TagsOkAppend([Text(50, t.jobId)], f6);
    TagsOkAppend(OptionalText(42, t.accessToken), f5);
    TagsOkAppend([Text(34, t.endpoint)], f4);
    TagsOkAppend(OptionalText(26, t.receiver), f3);
  }
}
