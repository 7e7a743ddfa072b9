/**
  write_message of the generated messages: fields are appended to a writer one after the other, and a
  nested message is announced by its get_size. Each method is proved to append the fields that the
  codec's round trips are about, so every announced length is the length of what follows it.
 */
module MessageWriter {
  import opened Messages
  import opened Orders
  import opened Wrappers
  import opened Wire
  import opened Codec
  import opened TaskCodec
  import opened JobCodec
  import DataCodec
  import Utf8

  /** Exactly these fields were appended. */
  ghost predicate Wrote(before: seq<Byte>, after: seq<Byte>, fs: seq<Field>) {
    after == before + EncodeFields(fs)
  }

  lemma WroteNothing(b: seq<Byte>)
    ensures Wrote(b, b, [])
  {
  }

  lemma WroteMore(before: seq<Byte>, mid: seq<Byte>, after: seq<Byte>, fs: seq<Field>, gs: seq<Field>)
    requires Wrote(before, mid, fs) && Wrote(mid, after, gs)
    ensures Wrote(before, after, fs + gs)
  {
    EncodeAppend(fs, gs);
    hide EncodeFields;
    Associative(before, EncodeFields(fs), EncodeFields(gs));
  }

  lemma WroteOne(before: seq<Byte>, after: seq<Byte>, f: Field)
    requires after == before + EncodeField(f)
    ensures Wrote(before, after, [f])
  {
    assert EncodeFields([f]) == EncodeField(f) + [];
  }

  /** A tag, the announced size, and then a message of exactly that size. */
  lemma WroteNested(before: seq<Byte>, b1: seq<Byte>, b2: seq<Byte>, after: seq<Byte>, tag: UInt32, size: nat, fs: seq<Field>)
    requires b1 == before + Varint(tag) && b2 == b1 + Varint(size) && Wrote(b2, after, fs)
    requires size == |EncodeFields(fs)|
    ensures Wrote(before, after, [BytesField(tag, EncodeFields(fs))])
  {
    hide EncodeFields, Varint;
    var body := EncodeFields(fs);
    Associative(before, Varint(tag), Varint(|body|));
    Associative(before, Varint(tag) + Varint(|body|), body);
    Associative(Varint(tag), Varint(|body|), body);
    WroteOne(before, after, BytesField(tag, body));
  }

  class Writer {
    var buf: seq<Byte>

    constructor ()
      ensures buf == []
    {
      buf := [];
    }

    method WriteVarint(v: nat)
      modifies this
      ensures buf == old(buf) + Varint(v)
    {
      var rest := v;
      while rest >= 0x80
        invariant buf + Varint(rest) == old(buf) + Varint(v)
      {
        assert Varint(rest) == [0x80 + rest % 0x80] + Varint(rest / 0x80);
        buf := buf + [0x80 + rest % 0x80];
        rest := rest / 0x80;
      }
      buf := buf + [rest];
    }

    method WriteBytes(tag: UInt32, bytes: seq<Byte>)
      modifies this
      ensures Wrote(old(buf), buf, [BytesField(tag, bytes)])
    {
      hide Varint;
      WriteVarint(tag);
      WriteVarint(|bytes|);
      buf := buf + bytes;
      Associative(old(buf), Varint(tag), Varint(|bytes|));
      Associative(old(buf), Varint(tag) + Varint(|bytes|), bytes);
      Associative(Varint(tag), Varint(|bytes|), bytes);
      WroteOne(old(buf), buf, BytesField(tag, bytes));
    }

    method WriteString(tag: UInt32, s: string)
      modifies this
      ensures Wrote(old(buf), buf, [Text(tag, s)])
    {
      hide Wrote, Utf8.Encode;
      WriteBytes(tag, Utf8.Encode(s));
    }

    method WriteOptionalString(tag: UInt32, s: Option<string>)
      modifies this
      ensures Wrote(old(buf), buf, OptionalText(tag, s))
    {
      hide Wrote, Text;
      WroteNothing(buf);
      if s.Some? {
        WriteString(tag, s.value);
      }
    }

    method WriteStrings(tag: UInt32, ss: seq<string>)
      modifies this
      ensures Wrote(old(buf), buf, Texts(tag, ss))
    {
      hide Wrote, Text;
      WroteNothing(buf);
      assert Texts(tag, ss[..0]) == [];
      var k := 0;
      while k < |ss|
        invariant 0 <= k <= |ss|
        invariant Wrote(old(buf), buf, Texts(tag, ss[..k]))
      {
        ghost var before := buf;
        WriteString(tag, ss[k]);
        WroteMore(old(buf), before, buf, Texts(tag, ss[..k]), [Text(tag, ss[k])]);
        assert Texts(tag, ss[..k + 1]) == Texts(tag, ss[..k]) + [Text(tag, ss[k])];
        k := k + 1;
      }
      assert ss[..k] == ss;
    }

    /** uint32, uint64, bool and enum fields: all are written as 64-bit varints. */
    method WriteInt(tag: UInt32, v: UInt64)
      modifies this
      ensures Wrote(old(buf), buf, [VarintField(tag, v)])
    {
      hide Varint;
      WriteVarint(tag);
      WriteVarint(v);
      Associative(old(buf), Varint(tag), Varint(v));
      WroteOne(old(buf), buf, VarintField(tag, v));
    }

    // ---------- Messages of task.rs ----------

    method WriteAny(a: Any)
      modifies this
      ensures Wrote(old(buf), buf, AnyFields(a))
    {
      hide Wrote, Text;
      WriteString(10, a.typeUrl);
      ghost var b1 := buf;
      WriteBytes(18, a.value);
      assert AnyFields(a) == [Text(10, a.typeUrl)] + [BytesField(18, a.value)];
      WroteMore(old(buf), b1, buf, [Text(10, a.typeUrl)], [BytesField(18, a.value)]);
    }

    method WriteOptionalAny(tag: UInt32, a: Option<Any>)
      requires a.Some? ==> |AnyBody(a.value)| < TWO_64
      modifies this
      ensures Wrote(old(buf), buf, OptionalAny(tag, a))
    {
      hide Wrote, AnyFields, AnySize;
      WroteNothing(buf);
      if a.Some? {
        AnySizeIsExact(a.value);
        WriteVarint(tag);
        ghost var b1 := buf;
        WriteVarint(AnySize(a.value));
        ghost var b2 := buf;
        WriteAny(a.value);
        WroteNested(old(buf), b1, b2, buf, tag, AnySize(a.value), AnyFields(a.value));
      }
    }

    method WriteOptionalInt(tag: UInt32, n: Option<Int32>)
      modifies this
      ensures Wrote(old(buf), buf, OptionalInt(tag, n))
    {
      hide Wrote;
      WroteNothing(buf);
      if n.Some? {
        WriteInt(tag, Int32Code(n.value));
      }
    }

    method WriteFilters(c: CapabilityFilters)
      modifies this
      ensures Wrote(old(buf), buf, FiltersFields(c))
    {
      hide Wrote, Text, OptionalInt;
      WriteString(10, c.endpoint);
      ghost var b1 := buf;
      WriteOptionalInt(16, c.minGpu);
      ghost var b2 := buf;
      WriteOptionalInt(24, c.minCpu);
      WroteMore(b1, b2, buf, OptionalInt(16, c.minGpu), OptionalInt(24, c.minCpu));
      WroteMore(old(buf), b1, buf, [Text(10, c.endpoint)], OptionalInt(16, c.minGpu) + OptionalInt(24, c.minCpu));
    }

    method WriteRecruitment(r: ResourceRecruitment)
      modifies this
      ensures Wrote(old(buf), buf, RecruitmentFields(r))
    {
      hide Wrote, RecruitmentCode, TerminationCode;
      WriteInt(8, RecruitmentCode(r.recruitmentPolicy));
      ghost var b1 := buf;
      WriteInt(16, TerminationCode(r.terminationPolicy));
      assert RecruitmentFields(r) == [VarintField(8, RecruitmentCode(r.recruitmentPolicy))]
        + [VarintField(16, TerminationCode(r.terminationPolicy))];
      WroteMore(old(buf), b1, buf, [VarintField(8, RecruitmentCode(r.recruitmentPolicy))],
                [VarintField(16, TerminationCode(r.terminationPolicy))]);
    }

    method WriteNestedFilters(tag: UInt32, c: CapabilityFilters)
      requires |FiltersBody(c)| < TWO_64
      modifies this
      ensures Wrote(old(buf), buf, [BytesField(tag, FiltersBody(c))])
    {
      hide Wrote, FiltersFields, FiltersSize;
      FiltersSizeIsExact(c);
      WriteVarint(tag);
      ghost var b1 := buf;
      WriteVarint(FiltersSize(c));
      ghost var b2 := buf;
      WriteFilters(c);
      WroteNested(old(buf), b1, b2, buf, tag, FiltersSize(c), FiltersFields(c));
    }

    method WriteNestedRecruitment(tag: UInt32, r: ResourceRecruitment)
      modifies this
      ensures Wrote(old(buf), buf, [BytesField(tag, RecruitmentBody(r))])
    {
      hide Wrote, RecruitmentFields, RecruitmentSize;
      RecruitmentSizeIsExact(r);
      WriteVarint(tag);
      ghost var b1 := buf;
      WriteVarint(RecruitmentSize(r));
      ghost var b2 := buf;
      WriteRecruitment(r);
      WroteNested(old(buf), b1, b2, buf, tag, RecruitmentSize(r), RecruitmentFields(r));
    }

    method WriteRequest(r: TaskRequest)
      requires |RequestBody(r)| < TWO_64
      modifies this
      ensures Wrote(old(buf), buf, RequestFields(r))
    {
      RequestPartsFit(r);
      hide Wrote, Text, Texts, OptionalText, OptionalAny, FiltersBody, RecruitmentBody, RequestBody, AnyBody;
      ghost var b0 := buf;
      WriteString(10, r.name);
      ghost var b1 := buf;
      WriteNestedFilters(18, r.capabilityFilters);
      ghost var b2 := buf;
      WroteNothing(buf);
      if r.maxBudget.Some? {
        WriteInt(24, r.maxBudget.value);
      }
      assert Wrote(b2, buf, OptionalBudget(r.maxBudget));
      ghost var b3 := buf;
      WriteString(34, r.timeout);
      ghost var b4 := buf;
      WriteStrings(42, r.needs);
      ghost var b5 := buf;
      WriteNestedRecruitment(50, r.resourceRecruitment);
      ghost var b6 := buf;
      WriteString(58, r.sender);
      ghost var b7 := buf;
      WriteOptionalString(66, r.receiver);
      ghost var b8 := buf;
      WriteOptionalAny(74, r.data);
      ghost var f8 := OptionalText(66, r.receiver) + OptionalAny(74, r.data);
      ghost var f7 := [Text(58, r.sender)] + f8;
      ghost var f5 := Texts(42, r.needs) + RequestTail(r);
      ghost var f4 := [Text(34, r.timeout)] + f5;
      ghost var f3 := OptionalBudget(r.maxBudget) + f4;
      WroteMore(b7, b8, buf, OptionalText(66, r.receiver), OptionalAny(74, r.data));
      WroteMore(b6, b7, buf, [Text(58, r.sender)], f8);
      WroteMore(b5, b6, buf, [BytesField(50, RecruitmentBody(r.resourceRecruitment))], f7);
      WroteMore(b4, b5, buf, Texts(42, r.needs), RequestTail(r));
      WroteMore(b3, b4, buf, [Text(34, r.timeout)], f5);
      WroteMore(b2, b3, buf, OptionalBudget(r.maxBudget), f4);
      WroteMore(b1, b2, buf, [BytesField(18, FiltersBody(r.capabilityFilters))], f3);
      WroteMore(b0, b1, buf, [Text(10, r.name)], [BytesField(18, FiltersBody(r.capabilityFilters))] + f3);
    }

    method WriteRequests(rs: seq<TaskRequest>)
      requires forall i | 0 <= i < |rs| :: |RequestBody(rs[i])| < TWO_64
      modifies this
      ensures Wrote(old(buf), buf, Requests(rs))
    {
      hide *;
      WroteNothing(buf);
      assert Requests(rs[..0]) == [];
      var k := 0;
      while k < |rs|
        invariant 0 <= k <= |rs|
        invariant Wrote(old(buf), buf, Requests(rs[..k]))
      {
        RequestSizeIsExact(rs[k]);
        RequestsStep(rs, k);
        ghost var b0 := buf;
        WriteVarint(18);
        ghost var b1 := buf;
        WriteVarint(RequestSize(rs[k]));
        ghost var b2 := buf;
        WriteRequest(rs[k]);
        WroteNested(b0, b1, b2, buf, 18, RequestSize(rs[k]), RequestFields(rs[k]));
        WroteMore(old(buf), b0, buf, Requests(rs[..k]), [BytesField(18, RequestBody(rs[k]))]);
        k := k + 1;
      }
      assert rs[..k] == rs;
    }

    method WriteJob(j: JobRequest)
      requires |JobBody(j)| < TWO_64
      modifies this
      ensures Wrote(old(buf), buf, JobFields(j))
    {
      hide Wrote, Text, Requests, RequestBody;
      RequestsFit(j, TWO_64);
      WriteString(10, j.name);
      ghost var b1 := buf;
      WriteRequests(j.tasks);
      ghost var b2 := buf;
      WriteString(26, j.nonce);
      WroteMore(b1, b2, buf, Requests(j.tasks), [Text(26, j.nonce)]);
      WroteMore(old(buf), b1, buf, [Text(10, j.name)], Requests(j.tasks) + [Text(26, j.nonce)]);
    }

    method WriteTask(t: Task)
      requires |TaskBody(t)| < TWO_64
      modifies this
      ensures Wrote(old(buf), buf, TaskFields(t))
    {
      OutputFits(t);
      hide Wrote, Text, OptionalText, OptionalAny, TaskBody, AnyBody, StatusCode;
      ghost var b0 := buf;
      WriteString(18, t.name);
      ghost var b1 := buf;
      WriteOptionalString(26, t.receiver);
      ghost var b2 := buf;
      WriteString(34, t.endpoint);
      ghost var b3 := buf;
      WriteOptionalString(42, t.accessToken);
      ghost var b4 := buf;
      WriteString(50, t.jobId);
      ghost var b5 := buf;
      WriteString(58, t.sender);
      ghost var b6 := buf;
      WriteInt(72, StatusCode(t.status));
      ghost var b7 := buf;
      WriteOptionalAny(82, t.output);
      ghost var f7 := [VarintField(72, StatusCode(t.status))] + OptionalAny(82, t.output);
      ghost var f6 := [Text(58, t.sender)] + f7;
      ghost var f5 := [Text(50, t.jobId)] + f6;
      ghost var f4 := OptionalText(42, t.accessToken) + f5;
      ghost var f3 := [Text(34, t.endpoint)] + f4;
      WroteMore(b6, b7, buf, [VarintField(72, StatusCode(t.status))], OptionalAny(82, t.output));
      WroteMore(b5, b6, buf, [Text(58, t.sender)], f7);
      WroteMore(b4, b5, buf, [Text(50, t.jobId)], f6);
      WroteMore(b3, b4, buf, OptionalText(42, t.accessToken), f5);
      WroteMore(b2, b3, buf, [Text(34, t.endpoint)], f4);
      WroteMore(b1, b2, buf, OptionalText(26, t.receiver), f3);
      WroteMore(b0, b1, buf, [Text(18, t.name)], OptionalText(26, t.receiver) + f3);
    }

    /** One entry of the dependency map, with its size written out before it. */
    method WriteDependency(key: string, done: bool)
      requires |EncodeFields(DependencyFields(key, done))| < TWO_64
      modifies this
      ensures Wrote(old(buf), buf, [Dependency(key, done)])
    {
      DependencyBodySize(key, done);
      hide Wrote, Text, SizeofLen, SizeofVarint, EncodeFields;
      var size := 2 + SizeofLen(|Utf8.Encode(key)|) + SizeofVarint(BoolCode(done));
      WriteVarint(18);
      ghost var b1 := buf;
      WriteVarint(size);
      ghost var b2 := buf;
      WriteString(10, key);
      ghost var b3 := buf;
      WriteInt(16, BoolCode(done));
      WroteMore(b2, b3, buf, [Text(10, key)], [Flag(16, done)]);
      assert DependencyFields(key, done) == [Text(10, key)] + [Flag(16, done)];
      WroteNested(old(buf), b1, b2, buf, 18, size, DependencyFields(key, done));
    }

    method WriteDependencies(dependencies: map<string, bool>, order: seq<string>)
      requires forall k | k in order :: k in dependencies
      requires forall i | 0 <= i < |order| :: |EncodeFields(DependencyFields(order[i], dependencies[order[i]]))| < TWO_64
      modifies this
      ensures Wrote(old(buf), buf, Dependencies(dependencies, order))
    {
      hide Wrote, DependencyFields, Dependency;
      WroteNothing(buf);
      assert Dependencies(dependencies, order[..0]) == [];
      var k := 0;
      while k < |order|
        invariant 0 <= k <= |order|
        invariant Wrote(old(buf), buf, Dependencies(dependencies, order[..k]))
      {
        var (key, done) := (order[k], dependencies[order[k]]);
        ghost var before := buf;
        WriteDependency(key, done);
        WroteMore(old(buf), before, buf, Dependencies(dependencies, order[..k]), [Dependency(key, done)]);
        assert Dependencies(dependencies, order[..k + 1]) == Dependencies(dependencies, order[..k]) + [Dependency(key, done)];
        k := k + 1;
      }
      assert order[..k] == order;
    }

    method WriteHandler(h: TaskHandler, order: seq<string>)
      requires IsOrder(order, h.dependencies.Keys) && |HandlerBody(h, order)| < TWO_64
      modifies this
      ensures Wrote(old(buf), buf, HandlerFields(h, order))
    {
      HandlerPartsFit(h, order, TWO_64);
      TaskSizeIsExact(h.task);
      hide Wrote, Text, TaskFields, TaskSize, Dependencies, HandlerBody, IsOrder, DependencyFields;
      ghost var b0 := buf;
      WriteVarint(10);
      ghost var b1 := buf;
      WriteVarint(TaskSize(h.task));
      ghost var b2 := buf;
      WriteTask(h.task);
      WroteNested(b0, b1, b2, buf, 10, TaskSize(h.task), TaskFields(h.task));
      ghost var b3 := buf;
      WriteDependencies(h.dependencies, order);
      ghost var b4 := buf;
      WriteHandlerTail(h);
      WroteMore(b3, b4, buf, Dependencies(h.dependencies, order), HandlerTail(h));
      WroteMore(b0, b3, buf, [BytesField(10, TaskBody(h.task))], Dependencies(h.dependencies, order) + HandlerTail(h));
    }

    method WriteHandlerTail(h: TaskHandler)
      modifies this
      ensures Wrote(old(buf), buf, HandlerTail(h))
    {
      hide Wrote, Text;
      ghost var b0 := buf;
      WriteString(26, h.jobId);
      ghost var b1 := buf;
      WriteString(34, h.errMsg);
      ghost var b2 := buf;
      WriteInt(40, h.retries);
      ghost var b3 := buf;
      WriteInt(48, h.updatedAt);
      ghost var b4 := buf;
      WriteInt(56, h.createdAt);
      ghost var f4 := [VarintField(48, h.updatedAt)] + [VarintField(56, h.createdAt)];
      ghost var f3 := [VarintField(40, h.retries)] + f4;
      ghost var f2 := [Text(34, h.errMsg)] + f3;
      WroteMore(b3, b4, buf, [VarintField(48, h.updatedAt)], [VarintField(56, h.createdAt)]);
      WroteMore(b2, b3, buf, [VarintField(40, h.retries)], f4);
      WroteMore(b1, b2, buf, [Text(34, h.errMsg)], f3);
      WroteMore(b0, b1, buf, [Text(26, h.jobId)], f2);
      assert HandlerTail(h) == [Text(26, h.jobId)] + f2;
    }

    // ---------- Messages of domain_data.rs ----------

    method WriteQuery(q: Query)
      modifies this
      ensures Wrote(old(buf), buf, DataCodec.QueryFields(q))
    {
      hide Wrote, Texts, OptionalText;
      ghost var b0 := buf;
      WriteStrings(10, q.ids);
      ghost var b1 := buf;
      WriteOptionalString(18, q.nameRegexp);
      ghost var b2 := buf;
      WriteOptionalString(26, q.dataTypeRegexp);
      ghost var b3 := buf;
      WriteStrings(34, q.names);
      ghost var b4 := buf;
      WriteStrings(42, q.dataTypes);
      ghost var f4 := Texts(34, q.names) + Texts(42, q.dataTypes);
      ghost var f3 := OptionalText(26, q.dataTypeRegexp) + f4;
      WroteMore(b3, b4, buf, Texts(34, q.names), Texts(42, q.dataTypes));
      WroteMore(b2, b3, buf, OptionalText(26, q.dataTypeRegexp), f4);
      WroteMore(b1, b2, buf, OptionalText(18, q.nameRegexp), f3);
      WroteMore(b0, b1, buf, Texts(10, q.ids), OptionalText(18, q.nameRegexp) + f3);
    }

    method WriteEntry(key: string, value: string)
      requires |EncodeFields(DataCodec.EntryFields(key, value))| < TWO_64
      modifies this
      ensures Wrote(old(buf), buf, [DataCodec.Entry(key, value)])
    {
      EntryBodySize(key, value);
      hide Wrote, Text, SizeofLen, EncodeFields;
      var size := 2 + SizeofLen(|Utf8.Encode(key)|) + SizeofLen(|Utf8.Encode(value)|);
      WriteVarint(42);
      ghost var b1 := buf;
      WriteVarint(size);
      ghost var b2 := buf;
      WriteString(10, key);
      ghost var b3 := buf;
      WriteString(18, value);
      WroteMore(b2, b3, buf, [Text(10, key)], [Text(18, value)]);
      assert DataCodec.EntryFields(key, value) == [Text(10, key)] + [Text(18, value)];
      WroteNested(old(buf), b1, b2, buf, 42, size, DataCodec.EntryFields(key, value));
    }

    method WriteEntries(properties: map<string, string>, order: seq<string>)
      requires forall k | k in order :: k in properties
      requires forall i | 0 <= i < |order| :: |EncodeFields(DataCodec.EntryFields(order[i], properties[order[i]]))| < TWO_64
      modifies this
      ensures Wrote(old(buf), buf, DataCodec.Entries(properties, order))
    {
      hide Wrote, DataCodec.EntryFields, DataCodec.Entry;
      WroteNothing(buf);
      assert DataCodec.Entries(properties, order[..0]) == [];
      var k := 0;
      while k < |order|
        invariant 0 <= k <= |order|
        invariant Wrote(old(buf), buf, DataCodec.Entries(properties, order[..k]))
      {
        var (key, value) := (order[k], properties[order[k]]);
        ghost var before := buf;
        WriteEntry(key, value);
        WroteMore(old(buf), before, buf, DataCodec.Entries(properties, order[..k]), [DataCodec.Entry(key, value)]);
        assert DataCodec.Entries(properties, order[..k + 1]) == DataCodec.Entries(properties, order[..k]) + [DataCodec.Entry(key, value)];
        k := k + 1;
      }
      assert order[..k] == order;
    }

    method WriteMetadata(m: Metadata, order: seq<string>)
      requires IsOrder(order, m.properties.Keys) && |DataCodec.MetadataBody(m, order)| < TWO_64
      modifies this
      ensures Wrote(old(buf), buf, DataCodec.MetadataFields(m, order))
    {
      DataCodec.SmallEntries(m, order, TWO_64);
      hide Wrote, Text, OptionalText, DataCodec.Entries, DataCodec.EntryFields, DataCodec.MetadataBody, IsOrder;
      ghost var b0 := buf;
      WriteString(10, m.name);
      ghost var b1 := buf;
      WriteString(18, m.dataType);
      ghost var b2 := buf;
      WriteInt(24, m.size);
      ghost var b3 := buf;
      WriteOptionalString(34, m.id);
      ghost var b4 := buf;
      WriteEntries(m.properties, order);
      ghost var f4 := OptionalText(34, m.id) + DataCodec.Entries(m.properties, order);
      ghost var f3 := [VarintField(24, m.size)] + f4;
      WroteMore(b3, b4, buf, OptionalText(34, m.id), DataCodec.Entries(m.properties, order));
      WroteMore(b2, b3, buf, [VarintField(24, m.size)], f4);
      WroteMore(b1, b2, buf, [Text(18, m.dataType)], f3);
      WroteMore(b0, b1, buf, [Text(10, m.name)], [Text(18, m.dataType)] + f3);
    }
  }

  lemma RequestsStep(rs: seq<TaskRequest>, k: nat)
    requires k < |rs|
    ensures Requests(rs[..k + 1]) == Requests(rs[..k]) + [BytesField(18, RequestBody(rs[k]))]
    ensures RequestBody(rs[k]) == EncodeFields(RequestFields(rs[k]))
  {
    hide EncodeFields, RequestFields;
  }

  lemma DependencyBodySize(key: string, done: bool)
    requires |EncodeFields(DependencyFields(key, done))| < TWO_64
    ensures |EncodeFields(DependencyFields(key, done))| == 2 + SizeofLen(|Utf8.Encode(key)|) + SizeofVarint(BoolCode(done))
  {
    var fs := DependencyFields(key, done);
    RecordSize(fs);
    assert fs == [fs[0]] + [fs[1]];
    SizeAppend([fs[0]], [fs[1]]);
    TextFieldSize(10, key);
    OneFieldSize(fs[1]);
  }

  lemma EntryBodySize(key: string, value: string)
    requires |EncodeFields(DataCodec.EntryFields(key, value))| < TWO_64
    ensures |EncodeFields(DataCodec.EntryFields(key, value))| == 2 + SizeofLen(|Utf8.Encode(key)|) + SizeofLen(|Utf8.Encode(value)|)
  {
    var fs := DataCodec.EntryFields(key, value);
    RecordSize(fs);
    assert fs == [fs[0]] + [fs[1]];
    SizeAppend([fs[0]], [fs[1]]);
    TextFieldSize(10, key);
    TextFieldSize(18, value);
  }

  lemma WroteDelimited(b0: seq<Byte>, b1: seq<Byte>, bytes: seq<Byte>, size: nat, fs: seq<Field>)
    requires b0 == [] && b1 == b0 + Varint(size) && Wrote(b1, bytes, fs)
    ensures bytes == Delimited(size, EncodeFields(fs))
  {
  }

  lemma JobBodyIs(j: JobRequest)
    ensures JobBody(j) == EncodeFields(JobFields(j))
  {
    hide EncodeFields, JobFields;
  }

  lemma DelimitedJob(j: JobRequest)
    requires |JobBody(j)| < TWO_32
    ensures Undelimited(Delimited(|JobBody(j)|, JobBody(j)), NO_JOB, JobArm) == Some(j)
  {
    hide *;
    JobRoundTrip(j);
    ReadJobIs(JobBody(j));
    DelimitedRoundTrip(JobBody(j), [], NO_JOB, JobArm);
    assert Delimited(|JobBody(j)|, JobBody(j)) + [] == Delimited(|JobBody(j)|, JobBody(j));
  }

  lemma ReadJobIs(b: seq<Byte>)
    ensures ReadJob(b) == Absorb(b, NO_JOB, JobArm)
  {
    hide Absorb, JobArm;
  }

  /** serialize_into_vec of a job: what a reader turns back into the job. */
  method SerializeJob(j: JobRequest) returns (bytes: seq<Byte>)
    requires |JobBody(j)| < 0x1_0000_0000
    ensures bytes == Delimited(|JobBody(j)|, JobBody(j))
    ensures Undelimited(bytes, NO_JOB, JobArm) == Some(j)
  {
    hide *;
    JobSizes(j);
    var w := new Writer();
    w.WriteVarint(JobSize(j));
    ghost var b1 := w.buf;
    w.WriteJob(j);
    WroteDelimited([], b1, w.buf, JobSize(j), JobFields(j));
    JobBodyIs(j);
    DelimitedJob(j);
    return w.buf;
  }

  lemma JobSizes(j: JobRequest)
    requires |JobBody(j)| < 0x1_0000_0000
    ensures |JobBody(j)| == JobSize(j) && |JobBody(j)| < TWO_64 && |JobBody(j)| < TWO_32
  {
    hide JobBody, JobSize;
    JobSizeIsExact(j);
  }
}
