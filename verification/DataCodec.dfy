/** The codec of core/domain/src/protobuf/domain_data.rs: Metadata with its string map, and Query. */
module DataCodec {
  import opened Wrappers
  import opened Messages
  import opened Wire
  import opened Codec
  import Utf8
  import opened Orders

  // ---------- Query ----------

  const NO_QUERY: Query := Query([], None, None, [], [])

  function QueryFields(q: Query): seq<Field> {
    Texts(10, q.ids) + (OptionalText(18, q.nameRegexp) + (OptionalText(26, q.dataTypeRegexp)
      + (Texts(34, q.names) + Texts(42, q.dataTypes))))
  }

  function WithQueryText(q: Query, tag: UInt32, s: string): Query {
    if tag == 10 then q.(ids := q.ids + [s])
    else if tag == 18 then q.(nameRegexp := Some(s))
    else if tag == 26 then q.(dataTypeRegexp := Some(s))
    else if tag == 34 then q.(names := q.names + [s])
    else q.(dataTypes := q.dataTypes + [s])
  }

  function QueryArm(q: Query, f: Field): Option<Query> {
    if f.BytesField? && f.tag in {10, 18, 26, 34, 42} then
      match Utf8.Decode(f.payload)
      case None => None
      case Some(s) => Some(WithQueryText(q, f.tag, s))
    else Some(q)
  }

  function QueryBody(q: Query): seq<Byte> {
    EncodeFields(QueryFields(q))
  }

  function QuerySize(q: Query): nat {
    TextsSize(q.ids) + OptionalTextSize(q.nameRegexp) + OptionalTextSize(q.dataTypeRegexp)
      + TextsSize(q.names) + TextsSize(q.dataTypes)
  }

  function ReadQuery(b: seq<Byte>): Option<Query> {
    Absorb(b, NO_QUERY, QueryArm)
  }

  /** The written bytes number exactly get_size. */
  lemma QuerySizeIsExact(q: Query)
    requires |QueryBody(q)| < TWO_64
    ensures |QueryBody(q)| == QuerySize(q)
  {
    RecordSize(QueryFields(q));
    var f4, f5 := Texts(34, q.names), Texts(42, q.dataTypes);
    var f3 := OptionalText(26, q.dataTypeRegexp);
    var f2 := OptionalText(18, q.nameRegexp);
    SizeAppend(f4, f5);
    SizeAppend(f3, f4 + f5);
    SizeAppend(f2, f3 + (f4 + f5));
    SizeAppend(Texts(10, q.ids), f2 + (f3 + (f4 + f5)));
    TextsFieldsSize(10, q.ids);
    OptionalTextFieldSize(18, q.nameRegexp);
    OptionalTextFieldSize(26, q.dataTypeRegexp);
    TextsFieldsSize(34, q.names);
    TextsFieldsSize(42, q.dataTypes);
  }

  lemma QueryText(q: Query, tag: UInt32, s: string)
    ensures tag == 10 ==> QueryArm(q, Text(tag, s)) == Some(q.(ids := q.ids + [s]))
    ensures tag == 18 ==> QueryArm(q, Text(tag, s)) == Some(q.(nameRegexp := Some(s)))
    ensures tag == 26 ==> QueryArm(q, Text(tag, s)) == Some(q.(dataTypeRegexp := Some(s)))
    ensures tag == 34 ==> QueryArm(q, Text(tag, s)) == Some(q.(names := q.names + [s]))
    ensures tag == 42 ==> QueryArm(q, Text(tag, s)) == Some(q.(dataTypes := q.dataTypes + [s]))
  {
    Utf8.RoundTrip(s);
    hide Utf8.Decode, Utf8.Encode;
  }

  lemma TextsThen(tag: UInt32, ss: seq<string>, gs: seq<Field>)
    requires ss != []
    ensures Texts(tag, ss) + gs == [Text(tag, ss[0])] + (Texts(tag, ss[1..]) + gs)
  {
  }

  lemma {:induction false} FoldIds(ids: seq<string>, gs: seq<Field>, q: Query)
    ensures FoldFields(Texts(10, ids) + gs, q, QueryArm) == FoldFields(gs, q.(ids := q.ids + ids), QueryArm)
    decreases |ids|
  {
    hide *;
    TextsCons(10, ids);
    if ids == [] {
      assert [] + gs == gs && q.ids + ids == q.ids;
    } else {
      QueryText(q, 10, ids[0]);
      TextsThen(10, ids, gs);
      FoldOne(Text(10, ids[0]), Texts(10, ids[1..]) + gs, q, QueryArm);
      FoldIds(ids[1..], gs, q.(ids := q.ids + [ids[0]]));
      assert q.ids + [ids[0]] + ids[1..] == q.ids + ids;
    }
  }

  lemma {:induction false} FoldNames(names: seq<string>, gs: seq<Field>, q: Query)
    ensures FoldFields(Texts(34, names) + gs, q, QueryArm) == FoldFields(gs, q.(names := q.names + names), QueryArm)
    decreases |names|
  {
    hide *;
    TextsCons(34, names);
    if names == [] {
      assert [] + gs == gs && q.names + names == q.names;
    } else {
      QueryText(q, 34, names[0]);
      TextsThen(34, names, gs);
      FoldOne(Text(34, names[0]), Texts(34, names[1..]) + gs, q, QueryArm);
      FoldNames(names[1..], gs, q.(names := q.names + [names[0]]));
      assert q.names + [names[0]] + names[1..] == q.names + names;
    }
  }

  lemma {:induction false} FoldDataTypes(dataTypes: seq<string>, gs: seq<Field>, q: Query)
    ensures FoldFields(Texts(42, dataTypes) + gs, q, QueryArm) == FoldFields(gs, q.(dataTypes := q.dataTypes + dataTypes), QueryArm)
    decreases |dataTypes|
  {
    hide *;
    TextsCons(42, dataTypes);
    if dataTypes == [] {
      assert [] + gs == gs && q.dataTypes + dataTypes == q.dataTypes;
    } else {
      QueryText(q, 42, dataTypes[0]);
      TextsThen(42, dataTypes, gs);
      FoldOne(Text(42, dataTypes[0]), Texts(42, dataTypes[1..]) + gs, q, QueryArm);
      FoldDataTypes(dataTypes[1..], gs, q.(dataTypes := q.dataTypes + [dataTypes[0]]));
      assert q.dataTypes + [dataTypes[0]] + dataTypes[1..] == q.dataTypes + dataTypes;
    }
  }

  lemma FoldOptionalText(tag: UInt32, s: Option<string>, gs: seq<Field>, q: Query, q': Query)
    requires if s.Some? then QueryArm(q, Text(tag, s.value)) == Some(q') else q' == q
    ensures FoldFields(OptionalText(tag, s) + gs, q, QueryArm) == FoldFields(gs, q', QueryArm)
  {
    hide QueryArm, Text, FoldFields;
    if s.Some? {
      FoldOne(Text(tag, s.value), gs, q, QueryArm);
    } else {
      assert [] + gs == gs;
    }
  }

  /** from_reader gives back every query under 4 GiB. */
  lemma QueryRoundTrip(q: Query)
    requires |QueryBody(q)| < TWO_32
    ensures ReadQuery(QueryBody(q)) == Some(q)
  {
    hide *;
    var f4, f5 := Texts(34, q.names), Texts(42, q.dataTypes);
    var f3 := OptionalText(26, q.dataTypeRegexp) + (f4 + (f5 + []));
    var f2 := OptionalText(18, q.nameRegexp) + f3;
    var q1 := Query([] + q.ids, None, None, [], []);
    var q2 := q1.(nameRegexp := q.nameRegexp);
    var q3 := q2.(dataTypeRegexp := q.dataTypeRegexp);
    var q4 := q3.(names := [] + q.names);
    QueryIs(q);
    FoldIds(q.ids, f2, NO_QUERY);
    if q.nameRegexp.Some? { QueryText(q1, 18, q.nameRegexp.value); }
    FoldOptionalText(18, q.nameRegexp, f3, q1, q2);
    if q.dataTypeRegexp.Some? { QueryText(q2, 26, q.dataTypeRegexp.value); }
    FoldOptionalText(26, q.dataTypeRegexp, f4 + (f5 + []), q2, q3);
    FoldNames(q.names, f5 + [], q3);
    FoldDataTypes(q.dataTypes, [], q4);
    FoldNothing(q, QueryArm);
    assert f5 + [] == f5;
    assert [] + q.ids == q.ids && [] + q.names == q.names && [] + q.dataTypes == q.dataTypes;
    QueryTags(q);
    RecordRoundTrip(QueryFields(q), NO_QUERY, QueryArm, q);
  }

  lemma QueryIs(q: Query)
    ensures QueryBody(q) == EncodeFields(QueryFields(q))
    ensures QueryFields(q) == Texts(10, q.ids) + (OptionalText(18, q.nameRegexp) + (OptionalText(26, q.dataTypeRegexp)
      + (Texts(34, q.names) + Texts(42, q.dataTypes))))
    ensures ReadQuery(QueryBody(q)) == Absorb(QueryBody(q), NO_QUERY, QueryArm)
    ensures NO_QUERY == Query([], None, None, [], [])
  {
  }

  lemma QueryTags(q: Query)
    ensures TagsOk(QueryFields(q))
  {
    var f4, f5 := Texts(34, q.names), Texts(42, q.dataTypes);
    var f3 := OptionalText(26, q.dataTypeRegexp);
    var f2 := OptionalText(18, q.nameRegexp);
    TagsOkAppend(f4, f5);
    TagsOkAppend(f3, f4 + f5);
    TagsOkAppend(f2, f3 + (f4 + f5));
    TagsOkAppend(Texts(10, q.ids), f2 + (f3 + (f4 + f5)));
  }

  // ---------- Metadata ----------

  const NO_METADATA: Metadata := Metadata("", "", 0, None, map[])

  /** One map entry is a record of its own, with the key as field 1 and the value as field 2. */
  function EntryFields(key: string, value: string): seq<Field> {
    [Text(10, key), Text(18, value)]
  }

  function Entry(key: string, value: string): Field {
    BytesField(42, EncodeFields(EntryFields(key, value)))
  }

  function EntryArm(e: (string, string), f: Field): Option<(string, string)> {
    if !f.BytesField? || (f.tag / 8 != 1 && f.tag / 8 != 2) then None
    else
      match Utf8.Decode(f.payload)
      case None => None
      case Some(s) => if f.tag / 8 == 1 then Some((s, e.1)) else Some((e.0, s))
  }

  function ReadEntry(b: seq<Byte>): Option<(string, string)> {
    Absorb(b, ("", ""), EntryArm)
  }

  /** `order` is the order in which the properties are iterated. */
  function Entries(properties: map<string, string>, order: seq<string>): (fs: seq<Field>)
    requires forall k | k in order :: k in properties
    ensures |fs| == |order|
  {
    seq(|order|, i requires 0 <= i < |order| => Entry(order[i], properties[order[i]]))
  }

  function MetadataFields(m: Metadata, order: seq<string>): seq<Field>
    requires IsOrder(order, m.properties.Keys)
  {
    [Text(10, m.name)] + ([Text(18, m.dataType)] + ([VarintField(24, m.size)]
      + (OptionalText(34, m.id) + Entries(m.properties, order))))
  }

  function MetadataArm(m: Metadata, f: Field): Option<Metadata> {
    if f.VarintField? && f.tag == 24 then Some(m.(size := f.value % 0x1_0000_0000))
    else if f.BytesField? && f.tag in {10, 18, 34} then
      match Utf8.Decode(f.payload)
      case None => None
      case Some(s) =>
        if f.tag == 10 then Some(m.(name := s))
        else if f.tag == 18 then Some(m.(dataType := s))
        else Some(m.(id := Some(s)))
    else if f.BytesField? && f.tag == 42 then
      match ReadEntry(f.payload)
      case None => None
      case Some((k, v)) => Some(m.(properties := m.properties[k := v]))
    else Some(m)
  }

  function MetadataBody(m: Metadata, order: seq<string>): seq<Byte>
    requires IsOrder(order, m.properties.Keys)
  {
    EncodeFields(MetadataFields(m, order))
  }

  function EntrySize(key: string, value: string): nat {
    1 + SizeofLen(2 + SizeofLen(|Utf8.Encode(key)|) + SizeofLen(|Utf8.Encode(value)|))
  }

  function EntriesSize(properties: map<string, string>, order: seq<string>): nat
    requires forall k | k in order :: k in properties
  {
    if order == [] then 0
    else EntrySize(order[0], properties[order[0]]) + EntriesSize(properties, order[1..])
  }

  function MetadataSize(m: Metadata, order: seq<string>): nat
    requires IsOrder(order, m.properties.Keys)
  {
    TextSize(m.name) + TextSize(m.dataType) + (1 + SizeofVarint(m.size)) + OptionalTextSize(m.id)
      + EntriesSize(m.properties, order)
  }

  function ReadMetadata(b: seq<Byte>): Option<Metadata> {
    Absorb(b, NO_METADATA, MetadataArm)
  }

  lemma EntryFieldSize(key: string, value: string)
    requires |EncodeFields(EntryFields(key, value))| < TWO_64
    ensures SizeOfField(Entry(key, value)) == EntrySize(key, value)
  {
    var fs := EntryFields(key, value);
    RecordSize(fs);
    assert fs == [Text(10, key)] + [Text(18, value)];
    SizeAppend([Text(10, key)], [Text(18, value)]);
    TextFieldSize(10, key);
    TextFieldSize(18, value);
  }

  lemma {:induction false} EntriesFieldsSize(properties: map<string, string>, order: seq<string>)
    requires forall k | k in order :: k in properties
    requires forall i | 0 <= i < |order| :: |EncodeFields(EntryFields(order[i], properties[order[i]]))| < TWO_64
    ensures SizeOfFields(Entries(properties, order)) == EntriesSize(properties, order)
    decreases |order|
  {
    hide EncodeFields, EntryFields, SizeOfField, EntrySize, Entry;
    if order != [] {
      assert Entries(properties, order)[0] == Entry(order[0], properties[order[0]]);
      EntryFieldSize(order[0], properties[order[0]]);
      assert Entries(properties, order)[1..] == Entries(properties, order[1..]);
      EntriesFieldsSize(properties, order[1..]);
    }
  }

  lemma SmallEntries(m: Metadata, order: seq<string>, limit: nat)
    requires IsOrder(order, m.properties.Keys) && |MetadataBody(m, order)| < limit
    ensures forall i | 0 <= i < |order| :: |EncodeFields(EntryFields(order[i], m.properties[order[i]]))| < limit
  {
    var f5 := Entries(m.properties, order);
    var f4 := OptionalText(34, m.id) + f5;
    var f3 := [VarintField(24, m.size)] + f4;
    var f2 := [Text(18, m.dataType)] + f3;
    SuffixFits([Text(10, m.name)], f2);
    SuffixFits([Text(18, m.dataType)], f3);
    SuffixFits([VarintField(24, m.size)], f4);
    SuffixFits(OptionalText(34, m.id), f5);
    hide EncodeFields;
    forall i | 0 <= i < |order|
      ensures |EncodeFields(EntryFields(order[i], m.properties[order[i]]))| < limit
    {
      assert f5[i] == Entry(order[i], m.properties[order[i]]);
      FieldFits(f5, i);
    }
  }

  /** The written bytes number exactly get_size, whatever order the map is iterated in. */
  lemma MetadataSizeIsExact(m: Metadata, order: seq<string>)
    requires IsOrder(order, m.properties.Keys) && |MetadataBody(m, order)| < TWO_64
    ensures |MetadataBody(m, order)| == MetadataSize(m, order)
  {
    RecordSize(MetadataFields(m, order));
    SmallEntries(m, order, TWO_64);
    MetadataFieldsSize(m, order);
  }

  lemma MetadataFieldsSize(m: Metadata, order: seq<string>)
    requires IsOrder(order, m.properties.Keys)
    requires forall i | 0 <= i < |order| :: |EncodeFields(EntryFields(order[i], m.properties[order[i]]))| < TWO_64
    ensures SizeOfFields(MetadataFields(m, order)) == MetadataSize(m, order)
  {
    var f5 := Entries(m.properties, order);
    var f4 := OptionalText(34, m.id);
    var f3 := [VarintField(24, m.size)];
    var f2 := [Text(18, m.dataType)];
    EntriesFieldsSize(m.properties, order);
    hide Text, Entries, TextSize, Entry, SizeOfField;
    SizeAppend(f4, f5);
    SizeAppend(f3, f4 + f5);
    SizeAppend(f2, f3 + (f4 + f5));
    SizeAppend([Text(10, m.name)], f2 + (f3 + (f4 + f5)));
    TextFieldSize(10, m.name);
    TextFieldSize(18, m.dataType);
    OneFieldSize(VarintField(24, m.size));
    VarintFieldSize(24, m.size);
    OptionalTextFieldSize(34, m.id);
  }

  lemma ReadWrittenEntry(key: string, value: string)
    requires |EncodeFields(EntryFields(key, value))| < TWO_32
    ensures ReadEntry(EncodeFields(EntryFields(key, value))) == Some((key, value))
  {
    var fs := EntryFields(key, value);
    Utf8.RoundTrip(key);
    Utf8.RoundTrip(value);
    assert fs == [Text(10, key)] + ([Text(18, value)] + []);
    FoldOne(Text(10, key), [Text(18, value)] + [], ("", ""), EntryArm);
    FoldOne(Text(18, value), [], (key, ""), EntryArm);
    RecordRoundTrip(fs, ("", ""), EntryArm, (key, value));
  }

  lemma AbsorbEntry(m: Metadata, key: string, value: string)
    requires |EncodeFields(EntryFields(key, value))| < TWO_32
    ensures MetadataArm(m, Entry(key, value)) == Some(m.(properties := m.properties[key := value]))
  {
    ReadWrittenEntry(key, value);
    hide ReadEntry, EncodeFields;
  }

  lemma {:induction false} FoldEntries(properties: map<string, string>, order: seq<string>, done: set<string>, m: Metadata)
    requires forall k | k in order :: k in properties
    requires forall i | 0 <= i < |order| :: |EncodeFields(EntryFields(order[i], properties[order[i]]))| < TWO_32
    requires m.properties == Restricted(properties, done)
    ensures FoldFields(Entries(properties, order), m, MetadataArm)
         == Some(m.(properties := Restricted(properties, done + set k | k in order)))
    decreases |order|
  {
    hide MetadataArm, Entry, EncodeFields, Restricted;
    if order == [] {
      assert done + (set k | k in order) == done;
    } else {
      var k := order[0];
      AbsorbEntry(m, k, properties[k]);
      assert Entries(properties, order) == [Entry(k, properties[k])] + Entries(properties, order[1..]);
      FoldOne(Entry(k, properties[k]), Entries(properties, order[1..]), m, MetadataArm);
      RestrictedStep(properties, done, k);
      FoldEntries(properties, order[1..], done + {k}, m.(properties := m.properties[k := properties[k]]));
      assert done + {k} + (set j | j in order[1..]) == done + set j | j in order;
    }
  }

  /** from_reader gives back every metadata record under 4 GiB, whatever order its map was written in. */
  lemma MetadataRoundTrip(m: Metadata, order: seq<string>)
    requires IsOrder(order, m.properties.Keys) && |MetadataBody(m, order)| < TWO_32
    ensures ReadMetadata(MetadataBody(m, order)) == Some(m)
  {
    SmallEntries(m, order, TWO_32);
    MetadataTags(m, order);
    FoldMetadata(m, order);
    RecordRoundTrip(MetadataFields(m, order), NO_METADATA, MetadataArm, m);
  }

  lemma FoldMetadata(m: Metadata, order: seq<string>)
    requires IsOrder(order, m.properties.Keys)
    requires forall i | 0 <= i < |order| :: |EncodeFields(EntryFields(order[i], m.properties[order[i]]))| < TWO_32
    ensures FoldFields(MetadataFields(m, order), NO_METADATA, MetadataArm) == Some(m)
  {
    var f5 := Entries(m.properties, order);
    var f4 := OptionalText(34, m.id);
    var m1 := NO_METADATA.(name := m.name);
    var m2 := m1.(dataType := m.dataType);
    var m3 := m2.(size := m.size);
    var m4 := m3.(id := m.id);
    RestrictedAll(m.properties, order);
    AbsorbSize(m2, m.size);
    hide MetadataArm, Text, Entries, Restricted, EncodeFields, FoldFields;
    FoldText(NO_METADATA, 10, m.name, [Text(18, m.dataType)] + ([VarintField(24, m.size)] + (f4 + f5)));
    FoldText(m1, 18, m.dataType, [VarintField(24, m.size)] + (f4 + f5));
    FoldOne(VarintField(24, m.size), f4 + f5, m2, MetadataArm);
    if m.id.Some? {
      FoldText(m3, 34, m.id.value, f5);
    } else {
      assert f4 + f5 == f5;
    }
    FoldEntries(m.properties, order, {}, m4);
  }

  lemma AbsorbSize(m: Metadata, size: UInt32)
    ensures MetadataArm(m, VarintField(24, size)) == Some(m.(size := size))
  {
  }

  lemma FoldText(m: Metadata, tag: UInt32, s: string, gs: seq<Field>)
    requires tag == 10 || tag == 18 || tag == 34
    ensures FoldFields([Text(tag, s)] + gs, m, MetadataArm)
         == FoldFields(gs, if tag == 10 then m.(name := s) else if tag == 18 then m.(dataType := s) else m.(id := Some(s)), MetadataArm)
  {
    Utf8.RoundTrip(s);
    FoldOne(Text(tag, s), gs, m, MetadataArm);
  }

  lemma MetadataTags(m: Metadata, order: seq<string>)
    requires IsOrder(order, m.properties.Keys)
    ensures TagsOk(MetadataFields(m, order))
  {
    var f5 := Entries(m.properties, order);
    var f4 := OptionalText(34, m.id) + f5;
    var f3 := [VarintField(24, m.size)] + f4;
    EntriesTags(m.properties, order);
    TagsOkAppend(OptionalText(34, m.id), f5);
    TagsOkAppend([VarintField(24, m.size)], f4);
    TagsOkAppend([Text(18, m.dataType)], f3);
    TagsOkAppend([Text(10, m.name)], [Text(18, m.dataType)] + f3);
    hide Entries, IsOrder, Utf8.Encode;
  }

  lemma EntriesTags(properties: map<string, string>, order: seq<string>)
    requires forall k | k in order :: k in properties
    ensures TagsOk(Entries(properties, order))
  {
    hide EncodeFields, EntryFields;
  }

  // ---------- ConsumeDataInputV1 and LocalRefinementInputV1 ----------

  function ConsumeFields(c: ConsumeDataInputV1): seq<Field> {
    [BytesField(10, QueryBody(c.query)), Flag(16, c.keepAlive)]
  }

  function ConsumeArm(c: ConsumeDataInputV1, f: Field): Option<ConsumeDataInputV1> {
    if f.BytesField? && f.tag == 10 then
      match ReadQuery(f.payload)
      case None => None
      case Some(q) => Some(c.(query := q))
    else if f.VarintField? && f.tag == 16 then Some(c.(keepAlive := ReadBool(f.value)))
    else Some(c)
  }

  function ConsumeSize(c: ConsumeDataInputV1): nat {
    1 + SizeofLen(QuerySize(c.query)) + 1 + SizeofVarint(BoolCode(c.keepAlive))
  }

  function ReadConsume(b: seq<Byte>): Option<ConsumeDataInputV1> {
    Absorb(b, ConsumeDataInputV1(NO_QUERY, false), ConsumeArm)
  }

  lemma ConsumeSizeIsExact(c: ConsumeDataInputV1)
    requires |EncodeFields(ConsumeFields(c))| < TWO_64
    ensures |EncodeFields(ConsumeFields(c))| == ConsumeSize(c)
  {
    var fs := ConsumeFields(c);
    FieldFits(fs, 0);
    QuerySizeIsExact(c.query);
    RecordSize(fs);
    hide QueryBody, QuerySize, EncodeFields;
    assert fs == [fs[0]] + [fs[1]];
    SizeAppend([fs[0]], [fs[1]]);
    OneFieldSize(fs[0]);
    OneFieldSize(fs[1]);
  }

  lemma ConsumeArms(c: ConsumeDataInputV1, q: Query, keepAlive: bool)
    requires |QueryBody(q)| < TWO_32
    ensures ConsumeArm(c, BytesField(10, QueryBody(q))) == Some(c.(query := q))
    ensures ConsumeArm(c, Flag(16, keepAlive)) == Some(c.(keepAlive := keepAlive))
  {
    hide *;
    QueryRoundTrip(q);
    ConsumeQueryIs(c, QueryBody(q), q);
    ConsumeFlagIs(c, keepAlive);
  }

  lemma ConsumeQueryIs(c: ConsumeDataInputV1, payload: seq<Byte>, q: Query)
    requires ReadQuery(payload) == Some(q)
    ensures ConsumeArm(c, BytesField(10, payload)) == Some(c.(query := q))
  {
    hide ReadQuery;
  }

  lemma ConsumeFlagIs(c: ConsumeDataInputV1, keepAlive: bool)
    ensures ConsumeArm(c, Flag(16, keepAlive)) == Some(c.(keepAlive := keepAlive))
  {
    hide ReadQuery;
  }

  lemma ConsumeIs(c: ConsumeDataInputV1)
    ensures var fs := ConsumeFields(c);
      && fs == [BytesField(10, QueryBody(c.query))] + [Flag(16, c.keepAlive)]
      && |QueryBody(c.query)| < |EncodeFields(fs)|
      && TagsOk(fs)
      && forall b :: ReadConsume(b) == Absorb(b, ConsumeDataInputV1(NO_QUERY, false), ConsumeArm)
  {
    hide QueryBody, EncodeFields, Absorb, ConsumeArm, NO_QUERY;
    FieldFits(ConsumeFields(c), 0);
  }

  lemma ConsumeRoundTrip(c: ConsumeDataInputV1)
    requires |EncodeFields(ConsumeFields(c))| < TWO_32
    ensures ReadConsume(EncodeFields(ConsumeFields(c))) == Some(c)
  {
    hide *;
    var fs, start := ConsumeFields(c), ConsumeDataInputV1(NO_QUERY, false);
    var f1, f2 := BytesField(10, QueryBody(c.query)), Flag(16, c.keepAlive);
    ConsumeIs(c);
    ConsumeArms(start, c.query, c.keepAlive);
    ConsumeArms(start.(query := c.query), c.query, c.keepAlive);
    FoldOne(f1, [f2], start, ConsumeArm);
    LastField(f2, start.(query := c.query), ConsumeArm);
    RecordRoundTrip(fs, start, ConsumeArm, c);
  }

  function LocalInputFields(i: LocalRefinementInputV1): seq<Field> {
    [BytesField(10, QueryBody(i.query))]
  }

  function LocalInputSize(i: LocalRefinementInputV1): nat {
    1 + SizeofLen(QuerySize(i.query))
  }

  function SerializeLocalInput(i: LocalRefinementInputV1): seq<Byte> {
    Delimited(LocalInputSize(i), EncodeFields(LocalInputFields(i)))
  }

  function LocalInputArm(i: LocalRefinementInputV1, f: Field): Option<LocalRefinementInputV1> {
    if f.BytesField? && f.tag == 10 then
      match ReadQuery(f.payload)
      case None => None
      case Some(q) => Some(i.(query := q))
    else Some(i)
  }

  function DeserializeLocalInput(b: seq<Byte>): Option<LocalRefinementInputV1> {
    Undelimited(b, LocalRefinementInputV1(NO_QUERY), LocalInputArm)
  }

  lemma LocalInputIs(i: LocalRefinementInputV1)
    requires |EncodeFields(LocalInputFields(i))| < TWO_32
    ensures var f := BytesField(10, QueryBody(i.query));
      var start := LocalRefinementInputV1(NO_QUERY);
      && LocalInputFields(i) == [f]
      && |QueryBody(i.query)| < TWO_32 < TWO_64
      && TagsOk([f])
      && LocalInputArm(start, f) == Some(i)
      && SerializeLocalInput(i) == Delimited(LocalInputSize(i), EncodeFields([f]))
      && forall b :: DeserializeLocalInput(b) == Undelimited(b, start, LocalInputArm)
  {
    hide *;
    LocalInputParts(i);
    FieldFits(LocalInputFields(i), 0);
    QueryRoundTrip(i.query);
    LocalInputQueryIs(LocalRefinementInputV1(NO_QUERY), QueryBody(i.query), i.query);
  }

  lemma LocalInputParts(i: LocalRefinementInputV1)
    ensures var f := BytesField(10, QueryBody(i.query));
      && LocalInputFields(i) == [f] && TagsOk([f]) && TWO_32 < TWO_64
      && SerializeLocalInput(i) == Delimited(LocalInputSize(i), EncodeFields([f]))
      && forall b :: DeserializeLocalInput(b) == Undelimited(b, LocalRefinementInputV1(NO_QUERY), LocalInputArm)
  {
    hide QueryBody, EncodeFields, Undelimited, Delimited, LocalInputArm, NO_QUERY;
  }

  lemma LocalInputQueryIs(start: LocalRefinementInputV1, payload: seq<Byte>, q: Query)
    requires ReadQuery(payload) == Some(q)
    ensures LocalInputArm(start, BytesField(10, payload)) == Some(start.(query := q))
  {
    hide ReadQuery;
  }

  lemma LocalInputSizeIsExact(i: LocalRefinementInputV1)
    requires |EncodeFields(LocalInputFields(i))| < TWO_32
    ensures |EncodeFields(LocalInputFields(i))| == LocalInputSize(i)
  {
    LocalInputIs(i);
    QuerySizeIsExact(i.query);
    RecordSize(LocalInputFields(i));
    OneFieldSize(BytesField(10, QueryBody(i.query)));
    hide QueryBody, QuerySize, EncodeFields, SizeOfFields;
  }

  lemma LocalInputRoundTrip(i: LocalRefinementInputV1)
    requires |EncodeFields(LocalInputFields(i))| < TWO_32
    ensures |EncodeFields(LocalInputFields(i))| == LocalInputSize(i)
    ensures DeserializeLocalInput(SerializeLocalInput(i)) == Some(i)
  {
    hide *;
    var f, start := BytesField(10, QueryBody(i.query)), LocalRefinementInputV1(NO_QUERY);
    LocalInputIs(i);
    LocalInputSizeIsExact(i);
    LastField(f, start, LocalInputArm);
    RecordRoundTrip([f], start, LocalInputArm, i);
    DelimitedRoundTrip(EncodeFields([f]), [], start, LocalInputArm);
    assert SerializeLocalInput(i) + [] == SerializeLocalInput(i);
  }
}
