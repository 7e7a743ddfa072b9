/**
  What bytes mean to the readers: the field numbers and enumerations of core/protobuf/task.proto and
  core/protobuf/domain_data.proto. Each law takes any bytes that already read as a message and adds one field.
 */
module FieldNumbers {
  import opened Wrappers
  import opened Messages
  import opened Wire
  import opened Codec
  import opened TaskCodec
  import opened JobCodec
  import opened DataCodec
  import Utf8

  // ---------- One more field ----------

  lemma {:induction false} VarintThenMore(b: seq<Byte>, more: seq<Byte>, limit: nat)
    requires ReadVarint(b, limit).Some?
    ensures var (v, rest) := ReadVarint(b, limit).value; ReadVarint(b + more, limit) == Some((v, rest + more))
    decreases limit
  {
    assert (b + more)[1..] == b[1..] + more;
    if b[0] >= 0x80 { VarintThenMore(b[1..], more, limit - 1); }
  }

  lemma Varint32ThenMore(b: seq<Byte>, more: seq<Byte>)
    requires ReadVarint32(b).Some?
    ensures var (v, rest) := ReadVarint32(b).value; ReadVarint32(b + more) == Some((v, rest + more))
  {
    hide ReadVarint;
    VarintThenMore(b, more, MAX_VARINT_BYTES);
  }

  lemma Varint64ThenMore(b: seq<Byte>, more: seq<Byte>)
    requires ReadVarint64(b).Some?
    ensures var (v, rest) := ReadVarint64(b).value; ReadVarint64(b + more) == Some((v, rest + more))
  {
    hide ReadVarint;
    VarintThenMore(b, more, MAX_VARINT_BYTES);
  }

  lemma TakeThenMore(b: seq<Byte>, n: nat, more: seq<Byte>)
    requires Take(b, n).Some?
    ensures var (a, rest) := Take(b, n).value; Take(b + more, n) == Some((a, rest + more))
  {
    assert (b + more)[..n] == b[..n] && (b + more)[n..] == b[n..] + more;
  }

  lemma FieldThenMore(b: seq<Byte>, more: seq<Byte>)
    requires ReadField(b).Some?
    ensures var (f, rest) := ReadField(b).value; ReadField(b + more) == Some((f, rest + more))
  {
    hide ReadVarint32, ReadVarint64, Take;
    Varint32ThenMore(b, more);
    var (tag, rest) := ReadVarint32(b).value;
    if tag % 8 == 0 {
      Varint64ThenMore(rest, more);
    } else if tag % 8 == 2 {
      Varint32ThenMore(rest, more);
      var (n, rest') := ReadVarint32(rest).value;
      TakeThenMore(rest', n, more);
    } else {
      TakeThenMore(rest, if tag % 8 == 1 then 8 else 4, more);
    }
  }

  /** A reader that has read `b` lets its match arm absorb the field that follows. */
  lemma {:induction false} OneMoreField<M>(b: seq<Byte>, f: Field, start: M, m: M, arm: (M, Field) -> Option<M>)
    requires Absorb(b, start, arm) == Some(m) && Writable(f)
    ensures Absorb(b + EncodeField(f), start, arm) == arm(m, f)
    decreases |b|
  {
    hide Writable, EncodeField, ReadField;
    if b == [] {
      ReadWrittenField(f, []);
      assert b + EncodeField(f) == EncodeField(f) + [];
    } else {
      FieldThenMore(b, EncodeField(f));
      var (g, rest) := ReadField(b).value;
      OneMoreField(rest, f, arm(start, g).value, m, arm);
    }
  }

  /** The bytes of a length-delimited field whose key is one byte, and of one that holds a number. */
  function Lengthy(key: Byte, payload: seq<Byte>): seq<Byte> {
    [key] + (Varint(|payload|) + payload)
  }

  function Number(key: Byte, v: UInt64): seq<Byte> {
    [key] + Varint(v)
  }

  lemma OneMore<M>(b: seq<Byte>, start: M, m: M, arm: (M, Field) -> Option<M>, key: Byte, payload: seq<Byte>, v: UInt64)
    requires Absorb(b, start, arm) == Some(m) && key < 0x80 && |payload| < 0x1_0000_0000
    ensures key % 8 == 2 ==> Absorb(b + Lengthy(key, payload), start, arm) == arm(m, BytesField(key, payload))
    ensures key % 8 == 0 ==> Absorb(b + Number(key, v), start, arm) == arm(m, VarintField(key, v))
  {
    hide Absorb;
    if key % 8 == 2 { OneMoreField(b, BytesField(key, payload), start, m, arm); }
    if key % 8 == 0 { OneMoreField(b, VarintField(key, v), start, m, arm); }
  }

  lemma NoField<M>(start: M, arm: (M, Field) -> Option<M>)
    ensures Absorb([], start, arm) == Some(start)
  {
  }

  // ---------- Enumerations ----------

  /** The numbers of Status; any other number is PENDING. */
  ghost predicate IsStatus(n: Int32, s: Status) {
    match s
    case STARTED => n == 1
    case DONE => n == 2
    case FAILED => n == 3
    case WAITING_FOR_RESOURCE => n == 4
    case RETRY => n == 5
    case PROCESSING => n == 6
    case PENDING => n < 1 || n > 6
  }

  /** The numbers of RecruitmentPolicy; any other number is ALWAYS. */
  ghost predicate IsRecruitmentPolicy(n: Int32, p: RecruitmentPolicy) {
    match p
    case IF_NOT_PRESENT => n == 1
    case NEVER => n == 2
    case FAIL => n == 3
    case ALWAYS => n < 1 || n > 3
  }

  /** The numbers of TerminationPolicy; any other number is KEEP. */
  ghost predicate IsTerminationPolicy(n: Int32, p: TerminationPolicy) {
    match p
    case TERMINATE => n == 1
    case KEEP => n != 1
  }

  /** A varint as an int32: its low 32 bits, in two's complement. */
  ghost predicate IsInt32(v: UInt64, n: Int32) {
    (n - v) % 0x1_0000_0000 == 0
  }

  lemma Int32Is(v: UInt64, n: Int32)
    ensures IsInt32(v, n) <==> ReadInt32(v) == n
  {
  }

  // ---------- Any ----------

  /** Field 1 is the type, field 2 the bytes. Any other field is passed over. */
  lemma AnyFieldNumbers(b: seq<Byte>, a: Any, payload: seq<Byte>, other: Field)
    requires ReadAny(b) == Some(a) && |payload| < 0x1_0000_0000
    requires Writable(other) && other.tag !in {10, 18}
    ensures ReadAny([]) == Some(Any("", []))
    ensures match Utf8.Decode(payload)
      case None => ReadAny(b + Lengthy(10, payload)) == None
      case Some(s) => ReadAny(b + Lengthy(10, payload)) == Some(a.(typeUrl := s))
    ensures ReadAny(b + Lengthy(18, payload)) == Some(a.(value := payload))
    ensures ReadAny(b + EncodeField(other)) == Some(a)
  {
    hide Absorb, Lengthy, Number, EncodeField, Utf8.Decode;
    NoField(NO_ANY, AnyArm);
    OneMoreField(b, other, NO_ANY, a, AnyArm);
    forall key: Byte | key in {10, 18}
      ensures key % 8 == 2 ==> ReadAny(b + Lengthy(key, payload)) == AnyArm(a, BytesField(key, payload))
    {
      OneMore(b, NO_ANY, a, AnyArm, key, payload, 0);
    }
  }

  // ---------- Task ----------

  /** Fields 2 to 7 are texts, 9 is the status and 10 the output. Any other field is passed over. */
  lemma TaskFieldNumbers(b: seq<Byte>, t: Task, payload: seq<Byte>, v: UInt64, other: Field)
    requires ReadTask(b) == Some(t) && |payload| < 0x1_0000_0000
    requires Writable(other) && other.tag !in {18, 26, 34, 42, 50, 58, 72, 82}
    ensures ReadTask([]) == Some(Task("", None, "", None, "", "", PENDING, None))
    ensures match Utf8.Decode(payload)
      case None =>
        && ReadTask(b + Lengthy(18, payload)) == None
        && ReadTask(b + Lengthy(26, payload)) == None
        && ReadTask(b + Lengthy(34, payload)) == None
        && ReadTask(b + Lengthy(42, payload)) == None
        && ReadTask(b + Lengthy(50, payload)) == None
        && ReadTask(b + Lengthy(58, payload)) == None
      case Some(s) =>
        && ReadTask(b + Lengthy(18, payload)) == Some(t.(name := s))
        && ReadTask(b + Lengthy(26, payload)) == Some(t.(receiver := Some(s)))
        && ReadTask(b + Lengthy(34, payload)) == Some(t.(endpoint := s))
        && ReadTask(b + Lengthy(42, payload)) == Some(t.(accessToken := Some(s)))
        && ReadTask(b + Lengthy(50, payload)) == Some(t.(jobId := s))
        && ReadTask(b + Lengthy(58, payload)) == Some(t.(sender := s))
    ensures exists n: Int32, s: Status :: IsInt32(v, n) && IsStatus(n, s) && ReadTask(b + Number(72, v)) == Some(t.(status := s))
    ensures match ReadAny(payload)
      case None => ReadTask(b + Lengthy(82, payload)) == None
      case Some(a) => ReadTask(b + Lengthy(82, payload)) == Some(t.(output := Some(a)))
    ensures ReadTask(b + EncodeField(other)) == Some(t)
  {
    hide Absorb, Lengthy, Number, EncodeField, Utf8.Decode, ReadAny, IsInt32, ReadInt32;
    NoField(NO_TASK, TaskArm);
    OneMoreField(b, other, NO_TASK, t, TaskArm);
    forall key: Byte | key in {18, 26, 34, 42, 50, 58, 72, 82}
      ensures key % 8 == 2 ==> ReadTask(b + Lengthy(key, payload)) == TaskArm(t, BytesField(key, payload))
      ensures key % 8 == 0 ==> ReadTask(b + Number(key, v)) == TaskArm(t, VarintField(key, v))
    {
      OneMore(b, NO_TASK, t, TaskArm, key, payload, v);
    }
    var n := ReadInt32(v);
    Int32Is(v, n);
    assert IsStatus(n, ReadStatus(v));
  }

  /** The status field is the two bytes 72 and the number of the status. */
  lemma StatusNumbers(n: Byte)
    requires n < 0x80
    ensures ReadTask([72, n]) == Some(Task("", None, "", None, "", "",
      if n == 1 then STARTED else if n == 2 then DONE else if n == 3 then FAILED else if n == 4 then WAITING_FOR_RESOURCE
      else if n == 5 then RETRY else if n == 6 then PROCESSING else PENDING, None))
  {
    OneMore([], NO_TASK, NO_TASK, TaskArm, 72, [], n);
    assert [] + Number(72, n) == [72, n];
  }

  // ---------- CapabilityFilters ----------

  /** Field 1 is the endpoint, fields 2 and 3 are the minima. Any other field is passed over. */
  lemma FiltersFieldNumbers(b: seq<Byte>, c: CapabilityFilters, payload: seq<Byte>, v: UInt64, other: Field)
    requires ReadFilters(b) == Some(c) && |payload| < 0x1_0000_0000
    requires Writable(other) && other.tag !in {10, 16, 24}
    ensures ReadFilters([]) == Some(CapabilityFilters("", None, None))
    ensures match Utf8.Decode(payload)
      case None => ReadFilters(b + Lengthy(10, payload)) == None
      case Some(s) => ReadFilters(b + Lengthy(10, payload)) == Some(c.(endpoint := s))
    ensures exists n: Int32 :: IsInt32(v, n) && ReadFilters(b + Number(16, v)) == Some(c.(minGpu := Some(n)))
    ensures exists n: Int32 :: IsInt32(v, n) && ReadFilters(b + Number(24, v)) == Some(c.(minCpu := Some(n)))
    ensures ReadFilters(b + EncodeField(other)) == Some(c)
  {
    hide Absorb, Lengthy, Number, EncodeField, Utf8.Decode, IsInt32, ReadInt32;
    NoField(NO_FILTERS, FiltersArm);
    OneMoreField(b, other, NO_FILTERS, c, FiltersArm);
    forall key: Byte | key in {10, 16, 24}
      ensures key % 8 == 2 ==> ReadFilters(b + Lengthy(key, payload)) == FiltersArm(c, BytesField(key, payload))
      ensures key % 8 == 0 ==> ReadFilters(b + Number(key, v)) == FiltersArm(c, VarintField(key, v))
    {
      OneMore(b, NO_FILTERS, c, FiltersArm, key, payload, v);
    }
    Int32Is(v, ReadInt32(v));
  }

  // ---------- ResourceRecruitment ----------

  /** Field 1 is the recruitment policy, field 2 the termination policy. Any other field is passed over. */
  lemma RecruitmentFieldNumbers(b: seq<Byte>, r: ResourceRecruitment, v: UInt64, other: Field)
    requires ReadRecruitmentMessage(b) == Some(r)
    requires Writable(other) && other.tag !in {8, 16}
    ensures ReadRecruitmentMessage([]) == Some(ResourceRecruitment(ALWAYS, KEEP))
    ensures exists n: Int32, p: RecruitmentPolicy ::
      IsInt32(v, n) && IsRecruitmentPolicy(n, p) && ReadRecruitmentMessage(b + Number(8, v)) == Some(r.(recruitmentPolicy := p))
    ensures exists n: Int32, p: TerminationPolicy ::
      IsInt32(v, n) && IsTerminationPolicy(n, p) && ReadRecruitmentMessage(b + Number(16, v)) == Some(r.(terminationPolicy := p))
    ensures ReadRecruitmentMessage(b + EncodeField(other)) == Some(r)
  {
    hide Absorb, Lengthy, Number, EncodeField, IsInt32, ReadInt32;
    NoField(NO_RECRUITMENT, RecruitmentArm);
    OneMoreField(b, other, NO_RECRUITMENT, r, RecruitmentArm);
    forall key: Byte | key in {8, 16}
      ensures key % 8 == 0 ==> ReadRecruitmentMessage(b + Number(key, v)) == RecruitmentArm(r, VarintField(key, v))
    {
      OneMore(b, NO_RECRUITMENT, r, RecruitmentArm, key, [], v);
    }
    var n := ReadInt32(v);
    Int32Is(v, n);
    assert IsRecruitmentPolicy(n, ReadRecruitment(v)) && IsTerminationPolicy(n, ReadTermination(v));
  }

  // ---------- TaskRequest ----------

  /** The nine fields of a request; a need is added to those read before. Any other field is passed over. */
  lemma RequestFieldNumbers(b: seq<Byte>, r: TaskRequest, payload: seq<Byte>, v: UInt64, other: Field)
    requires ReadRequest(b) == Some(r) && |payload| < 0x1_0000_0000
    requires Writable(other) && other.tag !in {10, 18, 24, 34, 42, 50, 58, 66, 74}
    ensures ReadRequest([]) ==
      Some(TaskRequest("", CapabilityFilters("", None, None), None, "", [], ResourceRecruitment(ALWAYS, KEEP), "", None, None))
    ensures match Utf8.Decode(payload)
      case None =>
        && ReadRequest(b + Lengthy(10, payload)) == None
        && ReadRequest(b + Lengthy(34, payload)) == None
        && ReadRequest(b + Lengthy(42, payload)) == None
        && ReadRequest(b + Lengthy(58, payload)) == None
        && ReadRequest(b + Lengthy(66, payload)) == None
      case Some(s) =>
        && ReadRequest(b + Lengthy(10, payload)) == Some(r.(name := s))
        && ReadRequest(b + Lengthy(34, payload)) == Some(r.(timeout := s))
        && ReadRequest(b + Lengthy(42, payload)) == Some(r.(needs := r.needs + [s]))
        && ReadRequest(b + Lengthy(58, payload)) == Some(r.(sender := s))
        && ReadRequest(b + Lengthy(66, payload)) == Some(r.(receiver := Some(s)))
    ensures match ReadFilters(payload)
      case None => ReadRequest(b + Lengthy(18, payload)) == None
      case Some(c) => ReadRequest(b + Lengthy(18, payload)) == Some(r.(capabilityFilters := c))
    ensures ReadRequest(b + Number(24, v)) == Some(r.(maxBudget := Some(v)))
    ensures match ReadRecruitmentMessage(payload)
      case None => ReadRequest(b + Lengthy(50, payload)) == None
      case Some(p) => ReadRequest(b + Lengthy(50, payload)) == Some(r.(resourceRecruitment := p))
    ensures match ReadAny(payload)
      case None => ReadRequest(b + Lengthy(74, payload)) == None
      case Some(a) => ReadRequest(b + Lengthy(74, payload)) == Some(r.(data := Some(a)))
    ensures ReadRequest(b + EncodeField(other)) == Some(r)
  {
    hide Absorb, Lengthy, Number, EncodeField, Utf8.Decode, ReadFilters, ReadRecruitmentMessage, ReadAny;
    NoField(NO_REQUEST, RequestArm);
    OneMoreField(b, other, NO_REQUEST, r, RequestArm);
    forall key: Byte | key in {10, 18, 24, 34, 42, 50, 58, 66, 74}
      ensures key % 8 == 2 ==> ReadRequest(b + Lengthy(key, payload)) == RequestArm(r, BytesField(key, payload))
      ensures key % 8 == 0 ==> ReadRequest(b + Number(key, v)) == RequestArm(r, VarintField(key, v))
    {
      OneMore(b, NO_REQUEST, r, RequestArm, key, payload, v);
    }
  }

  // ---------- JobRequest ----------

  /** The requests keep the order in which they are read. Any other field is passed over. */
  lemma JobFieldNumbers(b: seq<Byte>, j: JobRequest, payload: seq<Byte>, other: Field)
    requires ReadJob(b) == Some(j) && |payload| < 0x1_0000_0000
    requires Writable(other) && other.tag !in {10, 18, 26}
    ensures ReadJob([]) == Some(JobRequest("", [], ""))
    ensures match Utf8.Decode(payload)
      case None =>
        && ReadJob(b + Lengthy(10, payload)) == None
        && ReadJob(b + Lengthy(26, payload)) == None
      case Some(s) =>
        && ReadJob(b + Lengthy(10, payload)) == Some(j.(name := s))
        && ReadJob(b + Lengthy(26, payload)) == Some(j.(nonce := s))
    ensures match ReadRequest(payload)
      case None => ReadJob(b + Lengthy(18, payload)) == None
      case Some(r) => ReadJob(b + Lengthy(18, payload)) == Some(j.(tasks := j.tasks + [r]))
    ensures ReadJob(b + EncodeField(other)) == Some(j)
  {
    hide Absorb, Lengthy, Number, EncodeField, Utf8.Decode, ReadRequest;
    NoField(NO_JOB, JobArm);
    OneMoreField(b, other, NO_JOB, j, JobArm);
    forall key: Byte | key in {10, 18, 26}
      ensures key % 8 == 2 ==> ReadJob(b + Lengthy(key, payload)) == JobArm(j, BytesField(key, payload))
    {
      OneMore(b, NO_JOB, j, JobArm, key, payload, 0);
    }
  }

  // ---------- TaskHandler ----------

  /** The task, one dependency after the other, two texts and three numbers. Any other field is passed over. */
  lemma HandlerFieldNumbers(b: seq<Byte>, h: TaskHandler, payload: seq<Byte>, v: UInt64, other: Field)
    requires ReadHandler(b) == Some(h) && |payload| < 0x1_0000_0000
    requires Writable(other) && other.tag !in {10, 18, 26, 34, 40, 48, 56}
    ensures ReadHandler([]) == Some(TaskHandler(Task("", None, "", None, "", "", PENDING, None), map[], "", "", 0, 0, 0))
    ensures match ReadTask(payload)
      case None => ReadHandler(b + Lengthy(10, payload)) == None
      case Some(t) => ReadHandler(b + Lengthy(10, payload)) == Some(h.(task := t))
    ensures match ReadDependency(payload)
      case None => ReadHandler(b + Lengthy(18, payload)) == None
      case Some((key, done)) => ReadHandler(b + Lengthy(18, payload)) == Some(h.(dependencies := h.dependencies[key := done]))
    ensures match Utf8.Decode(payload)
      case None =>
        && ReadHandler(b + Lengthy(26, payload)) == None
        && ReadHandler(b + Lengthy(34, payload)) == None
      case Some(s) =>
        && ReadHandler(b + Lengthy(26, payload)) == Some(h.(jobId := s))
        && ReadHandler(b + Lengthy(34, payload)) == Some(h.(errMsg := s))
    ensures ReadHandler(b + Number(40, v)) == Some(h.(retries := v % 0x1_0000_0000))
    ensures ReadHandler(b + Number(48, v)) == Some(h.(updatedAt := v))
    ensures ReadHandler(b + Number(56, v)) == Some(h.(createdAt := v))
    ensures ReadHandler(b + EncodeField(other)) == Some(h)
  {
    hide Absorb, Lengthy, Number, EncodeField, Utf8.Decode, ReadTask, ReadDependency;
    NoField(NO_HANDLER, HandlerArm);
    OneMoreField(b, other, NO_HANDLER, h, HandlerArm);
    forall key: Byte | key in {10, 18, 26, 34, 40, 48, 56}
      ensures key % 8 == 2 ==> ReadHandler(b + Lengthy(key, payload)) == HandlerArm(h, BytesField(key, payload))
      ensures key % 8 == 0 ==> ReadHandler(b + Number(key, v)) == HandlerArm(h, VarintField(key, v))
    {
      OneMore(b, NO_HANDLER, h, HandlerArm, key, payload, v);
    }
  }

  // ---------- Metadata ----------

  /** Four scalar fields, and one property after the other. Any other field is passed over. */
  lemma MetadataFieldNumbers(b: seq<Byte>, m: Metadata, payload: seq<Byte>, v: UInt64, other: Field)
    requires ReadMetadata(b) == Some(m) && |payload| < 0x1_0000_0000
    requires Writable(other) && other.tag !in {10, 18, 24, 34, 42}
    ensures ReadMetadata([]) == Some(Metadata("", "", 0, None, map[]))
    ensures match Utf8.Decode(payload)
      case None =>
        && ReadMetadata(b + Lengthy(10, payload)) == None
        && ReadMetadata(b + Lengthy(18, payload)) == None
        && ReadMetadata(b + Lengthy(34, payload)) == None
      case Some(s) =>
        && ReadMetadata(b + Lengthy(10, payload)) == Some(m.(name := s))
        && ReadMetadata(b + Lengthy(18, payload)) == Some(m.(dataType := s))
        && ReadMetadata(b + Lengthy(34, payload)) == Some(m.(id := Some(s)))
    ensures ReadMetadata(b + Number(24, v)) == Some(m.(size := v % 0x1_0000_0000))
    ensures match ReadEntry(payload)
      case None => ReadMetadata(b + Lengthy(42, payload)) == None
      case Some((key, value)) => ReadMetadata(b + Lengthy(42, payload)) == Some(m.(properties := m.properties[key := value]))
    ensures ReadMetadata(b + EncodeField(other)) == Some(m)
  {
    hide Absorb, Lengthy, Number, EncodeField, Utf8.Decode, ReadEntry;
    NoField(NO_METADATA, MetadataArm);
    OneMoreField(b, other, NO_METADATA, m, MetadataArm);
    forall key: Byte | key in {10, 18, 24, 34, 42}
      ensures key % 8 == 2 ==> ReadMetadata(b + Lengthy(key, payload)) == MetadataArm(m, BytesField(key, payload))
      ensures key % 8 == 0 ==> ReadMetadata(b + Number(key, v)) == MetadataArm(m, VarintField(key, v))
    {
      OneMore(b, NO_METADATA, m, MetadataArm, key, payload, v);
    }
  }

  /** A map entry: the key is field 1 and the value field 2, and no other field is accepted. */
  lemma EntryFieldNumbers(b: seq<Byte>, key: string, value: string, payload: seq<Byte>, other: Field)
    requires ReadEntry(b) == Some((key, value)) && |payload| < 0x1_0000_0000
    requires Writable(other) && other.tag / 8 !in {1, 2}
    ensures ReadEntry([]) == Some(("", ""))
    ensures match Utf8.Decode(payload)
      case None => ReadEntry(b + Lengthy(10, payload)) == ReadEntry(b + Lengthy(18, payload)) == None
      case Some(s) => ReadEntry(b + Lengthy(10, payload)) == Some((s, value)) && ReadEntry(b + Lengthy(18, payload)) == Some((key, s))
    ensures ReadEntry(b + EncodeField(other)) == None
  {
    hide Absorb, Lengthy, EncodeField, Utf8.Decode;
    NoField(("", ""), EntryArm);
    OneMoreField(b, other, ("", ""), (key, value), EntryArm);
    OneMore(b, ("", ""), (key, value), EntryArm, 10, payload, 0);
    OneMore(b, ("", ""), (key, value), EntryArm, 18, payload, 0);
  }

  lemma DependencyFieldNumbers(b: seq<Byte>, key: string, done: bool, payload: seq<Byte>, v: UInt64, other: Field)
    requires ReadDependency(b) == Some((key, done)) && |payload| < 0x1_0000_0000
    requires Writable(other) && other.tag / 8 !in {1, 2}
    ensures ReadDependency([]) == Some(("", false))
    ensures match Utf8.Decode(payload)
      case None => ReadDependency(b + Lengthy(10, payload)) == None
      case Some(s) => ReadDependency(b + Lengthy(10, payload)) == Some((s, done))
    ensures ReadDependency(b + Number(16, v)) == Some((key, v % 0x1_0000_0000 != 0))
    ensures ReadDependency(b + EncodeField(other)) == None
  {
    hide Absorb, Lengthy, Number, EncodeField, Utf8.Decode;
    NoField(("", false), DependencyArm);
    OneMoreField(b, other, ("", false), (key, done), DependencyArm);
    OneMore(b, ("", false), (key, done), DependencyArm, 10, payload, v);
    OneMore(b, ("", false), (key, done), DependencyArm, 16, payload, v);
  }

  // ---------- Query ----------

  /** Two optional expressions and three lists. Any other field is passed over. */
  lemma QueryFieldNumbers(b: seq<Byte>, q: Query, payload: seq<Byte>, other: Field)
    requires ReadQuery(b) == Some(q) && |payload| < 0x1_0000_0000
    requires Writable(other) && other.tag !in {10, 18, 26, 34, 42}
    ensures ReadQuery([]) == Some(Query([], None, None, [], []))
    ensures match Utf8.Decode(payload)
      case None =>
        && ReadQuery(b + Lengthy(10, payload)) == None
        && ReadQuery(b + Lengthy(18, payload)) == None
        && ReadQuery(b + Lengthy(26, payload)) == None
        && ReadQuery(b + Lengthy(34, payload)) == None
        && ReadQuery(b + Lengthy(42, payload)) == None
      case Some(s) =>
        && ReadQuery(b + Lengthy(10, payload)) == Some(q.(ids := q.ids + [s]))
        && ReadQuery(b + Lengthy(18, payload)) == Some(q.(nameRegexp := Some(s)))
        && ReadQuery(b + Lengthy(26, payload)) == Some(q.(dataTypeRegexp := Some(s)))
        && ReadQuery(b + Lengthy(34, payload)) == Some(q.(names := q.names + [s]))
        && ReadQuery(b + Lengthy(42, payload)) == Some(q.(dataTypes := q.dataTypes + [s]))
    ensures ReadQuery(b + EncodeField(other)) == Some(q)
  {
    hide Absorb, Lengthy, Number, EncodeField, Utf8.Decode;
    NoField(NO_QUERY, QueryArm);
    OneMoreField(b, other, NO_QUERY, q, QueryArm);
    forall key: Byte | key in {10, 18, 26, 34, 42}
      ensures key % 8 == 2 ==> ReadQuery(b + Lengthy(key, payload)) == QueryArm(q, BytesField(key, payload))
    {
      OneMore(b, NO_QUERY, q, QueryArm, key, payload, 0);
    }
  }

  // ---------- ConsumeDataInputV1 ----------

  /** Field 1 is the query, field 2 says whether to keep the stream. Any other field is passed over. */
  lemma ConsumeFieldNumbers(b: seq<Byte>, c: ConsumeDataInputV1, payload: seq<Byte>, v: UInt64, other: Field)
    requires ReadConsume(b) == Some(c) && |payload| < 0x1_0000_0000
    requires Writable(other) && other.tag !in {10, 16}
    ensures ReadConsume([]) == Some(ConsumeDataInputV1(Query([], None, None, [], []), false))
    ensures match ReadQuery(payload)
      case None => ReadConsume(b + Lengthy(10, payload)) == None
      case Some(q) => ReadConsume(b + Lengthy(10, payload)) == Some(c.(query := q))
    ensures ReadConsume(b + Number(16, v)) == Some(c.(keepAlive := (v % 0x1_0000_0000 != 0)))
    ensures ReadConsume(b + EncodeField(other)) == Some(c)
  {
    hide Absorb, Lengthy, Number, EncodeField, ReadQuery;
    NoField(ConsumeDataInputV1(NO_QUERY, false), ConsumeArm);
    OneMoreField(b, other, ConsumeDataInputV1(NO_QUERY, false), c, ConsumeArm);
    forall key: Byte | key in {10, 16}
      ensures key % 8 == 2 ==> ReadConsume(b + Lengthy(key, payload)) == ConsumeArm(c, BytesField(key, payload))
      ensures key % 8 == 0 ==> ReadConsume(b + Number(key, v)) == ConsumeArm(c, VarintField(key, v))
    {
      OneMore(b, ConsumeDataInputV1(NO_QUERY, false), c, ConsumeArm, key, payload, v);
    }
  }

  // ---------- GlobalRefinementInputV1 ----------

  /** Every local output is added to those read before. Any other field is passed over. */
  lemma GlobalFieldNumbers(b: seq<Byte>, g: GlobalRefinementInputV1, payload: seq<Byte>, other: Field)
    requires ReadGlobal(b) == Some(g) && |payload| < 0x1_0000_0000
    requires Writable(other) && other.tag !in {10}
    ensures ReadGlobal([]) == Some(GlobalRefinementInputV1([]))
    ensures match DeserializeLocal(Delimited(|payload|, payload))
      case None => ReadGlobal(b + Lengthy(10, payload)) == None
      case Some(l) => ReadGlobal(b + Lengthy(10, payload)) == Some(g.(localRefinementResults := g.localRefinementResults + [l]))
    ensures ReadGlobal(b + EncodeField(other)) == Some(g)
  {
    hide Absorb, Lengthy, Number, EncodeField, Delimited, Undelimited;
    NoField(GlobalRefinementInputV1([]), GlobalArm);
    OneMoreField(b, other, GlobalRefinementInputV1([]), g, GlobalArm);
    forall key: Byte | key in {10}
      ensures key % 8 == 2 ==> ReadGlobal(b + Lengthy(key, payload)) == GlobalArm(g, BytesField(key, payload))
    {
      OneMore(b, GlobalRefinementInputV1([]), g, GlobalArm, key, payload, 0);
    }
    NothingFollows(payload, LocalRefinementOutputV1([]), LocalArm);
  }

  // ---------- Messages that are read behind their size ----------

  lemma NothingFollows<M>(b: seq<Byte>, start: M, arm: (M, Field) -> Option<M>)
    requires |b| < 0x1_0000_0000
    ensures Undelimited(Delimited(|b|, b), start, arm) == Absorb(b, start, arm)
  {
    DelimitedRoundTrip(b, [], start, arm);
    assert Delimited(|b|, b) + [] == Delimited(|b|, b);
  }

  lemma LengthyIsLonger(b: seq<Byte>, payload: seq<Byte>)
    ensures |b| <= |b + Lengthy(10, payload)| && |payload| <= |b + Lengthy(10, payload)|
  {
  }

  lemma Empty<M>(start: M, arm: (M, Field) -> Option<M>)
    ensures Undelimited([0], start, arm) == Some(start)
  {
  }

  /** The result ids keep their order. Any other field is passed over. */
  lemma LocalFieldNumbers(b: seq<Byte>, l: LocalRefinementOutputV1, payload: seq<Byte>, other: Field)
    requires |b + Lengthy(10, payload)| < 0x1_0000_0000 && |b + EncodeField(other)| < 0x1_0000_0000
    requires DeserializeLocal(Delimited(|b|, b)) == Some(l) && Writable(other) && other.tag != 10
    ensures DeserializeLocal([0]) == Some(LocalRefinementOutputV1([]))
    ensures var next, past := b + Lengthy(10, payload), b + EncodeField(other);
      && DeserializeLocal(Delimited(|past|, past)) == Some(l)
      && match Utf8.Decode(payload)
         case None => DeserializeLocal(Delimited(|next|, next)) == None
         case Some(s) => DeserializeLocal(Delimited(|next|, next)) == Some(l.(resultIds := l.resultIds + [s]))
  {
    LengthyIsLonger(b, payload);
    hide Absorb, Lengthy, EncodeField, Delimited, Undelimited, Utf8.Decode;
    NoField(LocalRefinementOutputV1([]), LocalArm);
    Empty(LocalRefinementOutputV1([]), LocalArm);
    NothingFollows(b, LocalRefinementOutputV1([]), LocalArm);
    NothingFollows(b + Lengthy(10, payload), LocalRefinementOutputV1([]), LocalArm);
    NothingFollows(b + EncodeField(other), LocalRefinementOutputV1([]), LocalArm);
    OneMore(b, LocalRefinementOutputV1([]), l, LocalArm, 10, payload, 0);
    OneMoreField(b, other, LocalRefinementOutputV1([]), l, LocalArm);
  }

  /** Field 1 is the query. Any other field is passed over. */
  lemma LocalInputFieldNumbers(b: seq<Byte>, i: LocalRefinementInputV1, payload: seq<Byte>, other: Field)
    requires |b + Lengthy(10, payload)| < 0x1_0000_0000 && |b + EncodeField(other)| < 0x1_0000_0000
    requires DeserializeLocalInput(Delimited(|b|, b)) == Some(i) && Writable(other) && other.tag != 10
    ensures DeserializeLocalInput([0]) == Some(LocalRefinementInputV1(Query([], None, None, [], [])))
    ensures var next, past := b + Lengthy(10, payload), b + EncodeField(other);
      && DeserializeLocalInput(Delimited(|past|, past)) == Some(i)
      && match ReadQuery(payload)
         case None => DeserializeLocalInput(Delimited(|next|, next)) == None
         case Some(q) => DeserializeLocalInput(Delimited(|next|, next)) == Some(i.(query := q))
  {
    LengthyIsLonger(b, payload);
    hide Absorb, Lengthy, EncodeField, Delimited, Undelimited, ReadQuery;
    NoField(LocalRefinementInputV1(NO_QUERY), LocalInputArm);
    Empty(LocalRefinementInputV1(NO_QUERY), LocalInputArm);
    NothingFollows(b, LocalRefinementInputV1(NO_QUERY), LocalInputArm);
    NothingFollows(b + Lengthy(10, payload), LocalRefinementInputV1(NO_QUERY), LocalInputArm);
    NothingFollows(b + EncodeField(other), LocalRefinementInputV1(NO_QUERY), LocalInputArm);
    OneMore(b, LocalRefinementInputV1(NO_QUERY), i, LocalInputArm, 10, payload, 0);
    OneMoreField(b, other, LocalRefinementInputV1(NO_QUERY), i, LocalInputArm);
  }

  /** Field 1 is the message. Any other field is passed over. */
  lemma ErrorFieldNumbers(b: seq<Byte>, e: ErrorMessage, payload: seq<Byte>, other: Field)
    requires |b + Lengthy(10, payload)| < 0x1_0000_0000 && |b + EncodeField(other)| < 0x1_0000_0000
    requires DeserializeError(Delimited(|b|, b)) == Some(e) && Writable(other) && other.tag != 10
    ensures DeserializeError([0]) == Some(ErrorMessage(""))
    ensures var next, past := b + Lengthy(10, payload), b + EncodeField(other);
      && DeserializeError(Delimited(|past|, past)) == Some(e)
      && match Utf8.Decode(payload)
         case None => DeserializeError(Delimited(|next|, next)) == None
         case Some(s) => DeserializeError(Delimited(|next|, next)) == Some(ErrorMessage(s))
  {
    LengthyIsLonger(b, payload);
    hide Absorb, Lengthy, EncodeField, Delimited, Undelimited, Utf8.Decode;
    NoField(ErrorMessage(""), ErrorArm);
    Empty(ErrorMessage(""), ErrorArm);
    NothingFollows(b, ErrorMessage(""), ErrorArm);
    NothingFollows(b + Lengthy(10, payload), ErrorMessage(""), ErrorArm);
    NothingFollows(b + EncodeField(other), ErrorMessage(""), ErrorArm);
    OneMore(b, ErrorMessage(""), e, ErrorArm, 10, payload, 0);
    OneMoreField(b, other, ErrorMessage(""), e, ErrorArm);
  }

  // ---------- What the writers write ----------

  lemma OneWritten(f: Field)
    ensures EncodeFields([f]) == EncodeField(f)
  {
    assert EncodeField(f) + [] == EncodeField(f);
    hide EncodeField;
  }

  lemma KeyIs(key: Byte, payload: seq<Byte>, v: UInt64)
    requires key < 0x80
    ensures EncodeFields([BytesField(key, payload)]) == Lengthy(key, payload)
    ensures EncodeFields([VarintField(key, v)]) == Number(key, v)
    ensures v < 0x80 ==> Number(key, v) == [key, v]
  {
    OneWritten(BytesField(key, payload));
    OneWritten(VarintField(key, v));
    hide EncodeFields;
  }

  function OptionalLengthy(key: Byte, text: Option<string>): seq<Byte> {
    if text.Some? then Lengthy(key, Utf8.Encode(text.value)) else []
  }

  lemma TextWritten(key: Byte, s: string, more: seq<Field>)
    requires key < 0x80
    ensures EncodeFields([Text(key, s)] + more) == Lengthy(key, Utf8.Encode(s)) + EncodeFields(more)
  {
    hide EncodeFields, Lengthy;
    KeyIs(key, Utf8.Encode(s), 0);
    EncodeAppend([Text(key, s)], more);
  }

  lemma OptionalTextWritten(key: Byte, s: Option<string>, more: seq<Field>)
    requires key < 0x80
    ensures EncodeFields(OptionalText(key, s) + more) == OptionalLengthy(key, s) + EncodeFields(more)
  {
    hide EncodeFields, Lengthy;
    if s.Some? {
      TextWritten(key, s.value, more);
    } else {
      assert [] + more == more;
    }
  }

  /** A written task, byte by byte: the fields in the order of the .proto file, and the number of the status. */
  lemma TaskBytes(t: Task)
    ensures TaskBody(t) ==
      Lengthy(18, Utf8.Encode(t.name)) + (OptionalLengthy(26, t.receiver) + (Lengthy(34, Utf8.Encode(t.endpoint))
        + (OptionalLengthy(42, t.accessToken) + (Lengthy(50, Utf8.Encode(t.jobId)) + (Lengthy(58, Utf8.Encode(t.sender))
        + ([72, match t.status { case PENDING => 0 case STARTED => 1 case DONE => 2 case FAILED => 3 case WAITING_FOR_RESOURCE => 4 case RETRY => 5 case PROCESSING => 6 }]
        + if t.output.Some? then Lengthy(82, AnyBody(t.output.value)) else []))))))
  {
    hide EncodeFields, Lengthy, Number, OptionalText, OptionalLengthy, AnyBody, Text;
    var f8 := OptionalAny(82, t.output);
    var f7 := [VarintField(72, StatusCode(t.status))] + f8;
    var f6 := [Text(58, t.sender)] + f7;
    var f5 := [Text(50, t.jobId)] + f6;
    var f4 := OptionalText(42, t.accessToken) + f5;
    var f3 := [Text(34, t.endpoint)] + f4;
    TextWritten(18, t.name, OptionalText(26, t.receiver) + f3);
    OptionalTextWritten(26, t.receiver, f3);
    TextWritten(34, t.endpoint, f4);
    OptionalTextWritten(42, t.accessToken, f5);
    TextWritten(50, t.jobId, f6);
    TextWritten(58, t.sender, f7);
    EncodeAppend([VarintField(72, StatusCode(t.status))], f8);
    KeyIs(72, [], StatusCode(t.status));
    OutputWritten(t.output);
  }

  lemma OutputWritten(output: Option<Any>)
    ensures EncodeFields(OptionalAny(82, output)) == if output.Some? then Lengthy(82, AnyBody(output.value)) else []
  {
    hide AnyBody, Lengthy;
    if output.Some? { KeyIs(82, AnyBody(output.value), 0); }
  }

  /** Written filters: a negative minimum is the 64-bit two's complement of its number. */
  lemma FiltersBytes(c: CapabilityFilters)
    ensures FiltersBody(c) == Lengthy(10, Utf8.Encode(c.endpoint)) + (OptionalNumber(16, c.minGpu) + OptionalNumber(24, c.minCpu))
  {
    hide EncodeFields, Lengthy, Number, OptionalInt, OptionalNumber, Text;
    TextWritten(10, c.endpoint, OptionalInt(16, c.minGpu) + OptionalInt(24, c.minCpu));
    EncodeAppend(OptionalInt(16, c.minGpu), OptionalInt(24, c.minCpu));
    IntWritten(16, c.minGpu);
    IntWritten(24, c.minCpu);
  }

  function OptionalNumber(key: Byte, n: Option<Int32>): seq<Byte> {
    if n.None? then [] else Number(key, if n.value < 0 then 0x1_0000_0000_0000_0000 + n.value else n.value)
  }

  lemma IntWritten(key: Byte, n: Option<Int32>)
    requires key < 0x80
    ensures EncodeFields(OptionalInt(key, n)) == OptionalNumber(key, n)
  {
    hide Number;
    if n.Some? { KeyIs(key, [], Int32Code(n.value)); }
  }

  /** A written recruitment is four bytes: the two keys and the numbers of the two policies. */
  lemma RecruitmentBytes(r: ResourceRecruitment)
    ensures RecruitmentBody(r) ==
      [8, match r.recruitmentPolicy { case ALWAYS => 0 case IF_NOT_PRESENT => 1 case NEVER => 2 case FAIL => 3 },
       16, match r.terminationPolicy { case KEEP => 0 case TERMINATE => 1 }]
  {
    var f, g := VarintField(8, RecruitmentCode(r.recruitmentPolicy)), VarintField(16, TerminationCode(r.terminationPolicy));
    KeyIs(8, [], f.value);
    KeyIs(16, [], g.value);
    EncodeAppend([f], [g]);
    assert [f] + [g] == RecruitmentFields(r);
    hide EncodeFields, Number;
  }

  /** A written query to consume: the query and one byte for the flag. */
  lemma ConsumeBytes(c: ConsumeDataInputV1)
    ensures EncodeFields(ConsumeFields(c)) == Lengthy(10, QueryBody(c.query)) + [16, if c.keepAlive then 1 else 0]
  {
    var f, g := BytesField(10, QueryBody(c.query)), Flag(16, c.keepAlive);
    KeyIs(10, QueryBody(c.query), 0);
    KeyIs(16, [], g.value);
    EncodeAppend([f], [g]);
    assert [f] + [g] == ConsumeFields(c);
    hide EncodeFields, Number, QueryBody, Lengthy;
  }
}
