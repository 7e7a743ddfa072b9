/** What all message codecs share: the field writers, their readers, and length-prefixed messages. */
module Codec {
  import opened Wrappers
  import opened Messages
  import opened Wire
  import Utf8

  const TWO_32: nat := 0x1_0000_0000

  const TWO_64: nat := 0x1_0000_0000_0000_0000

  // ---------- Fields of a message ----------

  function Text(tag: UInt32, s: string): Field {
    BytesField(tag, Utf8.Encode(s))
  }

  function Texts(tag: UInt32, ss: seq<string>): (fs: seq<Field>)
    ensures |fs| == |ss| && forall i | 0 <= i < |ss| :: fs[i] == Text(tag, ss[i])
  {
    seq(|ss|, i requires 0 <= i < |ss| => Text(tag, ss[i]))
  }

  function OptionalText(tag: UInt32, s: Option<string>): seq<Field> {
    match s
    case None => []
    case Some(t) => [Text(tag, t)]
  }

  function Flag(tag: UInt32, b: bool): Field {
    VarintField(tag, BoolCode(b))
  }

  function BoolCode(b: bool): UInt64 {
    if b then 1 else 0
  }

  /** An int32 is written sign-extended to 64 bits and read back from its low 32 bits. */
  function Int32Code(n: Int32): UInt64 {
    if n < 0 then n + 0x1_0000_0000_0000_0000 else n
  }

  function ReadInt32(v: UInt64): Int32 {
    var low := v % 0x1_0000_0000;
    if low < 0x8000_0000 then low else low - 0x1_0000_0000
  }

  lemma Int32RoundTrip(n: Int32)
    ensures ReadInt32(Int32Code(n)) == n
  {
  }

  function ReadBool(v: UInt64): bool {
    v % 0x1_0000_0000 != 0
  }

  function StatusCode(s: Status): UInt64 {
    match s
    case PENDING => 0
    case STARTED => 1
    case DONE => 2
    case FAILED => 3
    case WAITING_FOR_RESOURCE => 4
    case RETRY => 5
    case PROCESSING => 6
  }

  function ReadStatus(v: UInt64): Status {
    match ReadInt32(v)
    case 1 => STARTED
    case 2 => DONE
    case 3 => FAILED
    case 4 => WAITING_FOR_RESOURCE
    case 5 => RETRY
    case 6 => PROCESSING
    case _ => PENDING
  }

  function RecruitmentCode(p: RecruitmentPolicy): UInt64 {
    match p
    case ALWAYS => 0
    case IF_NOT_PRESENT => 1
    case NEVER => 2
    case FAIL => 3
  }

  function ReadRecruitment(v: UInt64): RecruitmentPolicy {
    match ReadInt32(v)
    case 1 => IF_NOT_PRESENT
    case 2 => NEVER
    case 3 => FAIL
    case _ => ALWAYS
  }

  function TerminationCode(p: TerminationPolicy): UInt64 {
    match p
    case KEEP => 0
    case TERMINATE => 1
  }

  function ReadTermination(v: UInt64): TerminationPolicy {
    if ReadInt32(v) == 1 then TERMINATE else KEEP
  }

  // ---------- Sizes ----------

  function TextSize(s: string): nat {
    1 + SizeofLen(|Utf8.Encode(s)|)
  }

  function TextsSize(ss: seq<string>): nat {
    if ss == [] then 0 else TextSize(ss[0]) + TextsSize(ss[1..])
  }

  function OptionalTextSize(s: Option<string>): nat {
    match s
    case None => 0
    case Some(t) => TextSize(t)
  }

  lemma TextFieldSize(tag: UInt32, s: string)
    requires tag < 0x80
    ensures SizeOfFields([Text(tag, s)]) == TextSize(s)
    ensures SizeOfField(Text(tag, s)) == TextSize(s)
  {
  }

  lemma TextsCons(tag: UInt32, ss: seq<string>)
    ensures if ss == [] then Texts(tag, ss) == [] else Texts(tag, ss) == [Text(tag, ss[0])] + Texts(tag, ss[1..])
  {
  }

  lemma {:induction false} TextsFieldsSize(tag: UInt32, ss: seq<string>)
    requires tag < 0x80
    ensures SizeOfFields(Texts(tag, ss)) == TextsSize(ss)
    decreases |ss|
  {
    if ss != [] {
      assert Texts(tag, ss)[1..] == Texts(tag, ss[1..]);
      TextsFieldsSize(tag, ss[1..]);
    }
  }

  lemma OptionalTextFieldSize(tag: UInt32, s: Option<string>)
    requires tag < 0x80
    ensures SizeOfFields(OptionalText(tag, s)) == OptionalTextSize(s)
  {
  }

  lemma OneFieldSize(f: Field)
    ensures SizeOfFields([f]) == SizeOfField(f)
  {
  }

  // ---------- Records ----------

  ghost predicate TagsOk(fs: seq<Field>) {
    forall i | 0 <= i < |fs| ::
      match fs[i]
      case VarintField(tag, _) => tag % 8 == 0
      case BytesField(tag, _) => tag % 8 == 2
      case FixedField(_, _) => false
  }

  lemma TagsOkAppend(fs: seq<Field>, gs: seq<Field>)
    requires TagsOk(fs) && TagsOk(gs)
    ensures TagsOk(fs + gs)
  {
  }

  /** A record under 4 GiB has only fields whose lengths fit the 32 bits a reader keeps. */
  lemma SmallRecordIsWritable(fs: seq<Field>)
    requires TagsOk(fs) && |EncodeFields(fs)| < TWO_32
    ensures AllWritable(fs)
  {
  }

  lemma RecordSize(fs: seq<Field>)
    requires |EncodeFields(fs)| < TWO_64
    ensures |EncodeFields(fs)| == SizeOfFields(fs)
  {
    forall i | 0 <= i < |fs| && fs[i].BytesField?
      ensures |fs[i].payload| < TWO_64
    {
      FieldFits(fs, i);
    }
    EncodedSize(fs);
  }

  /** A reader gives back a message when folding the message's fields does. */
  lemma RecordRoundTrip<M>(fs: seq<Field>, default: M, arm: (M, Field) -> Option<M>, msg: M)
    requires TagsOk(fs) && |EncodeFields(fs)| < TWO_32
    requires FoldFields(fs, default, arm) == Some(msg)
    ensures Absorb(EncodeFields(fs), default, arm) == Some(msg)
  {
    SmallRecordIsWritable(fs);
    AbsorbWritten(fs, default, arm);
  }

  lemma FoldOne<M>(f: Field, gs: seq<Field>, m: M, arm: (M, Field) -> Option<M>)
    requires arm(m, f).Some?
    ensures FoldFields([f] + gs, m, arm) == FoldFields(gs, arm(m, f).value, arm)
  {
  }

  lemma FoldNothing<M>(m: M, arm: (M, Field) -> Option<M>)
    ensures FoldFields([], m, arm) == Some(m)
  {
  }

  lemma LastField<M>(f: Field, m: M, arm: (M, Field) -> Option<M>)
    ensures FoldFields([f], m, arm) == arm(m, f)
  {
  }

  lemma SuffixFits(fs: seq<Field>, gs: seq<Field>)
    ensures |EncodeFields(gs)| <= |EncodeFields(fs + gs)|
  {
    EncodeAppend(fs, gs);
  }

  lemma VarintFieldSize(tag: UInt32, v: UInt64)
    requires tag < 0x80
    ensures SizeOfField(VarintField(tag, v)) == 1 + SizeofVarint(v)
  {
  }

  // ---------- Length-prefixed messages ----------

  /** serialize_into_vec: the size as a varint, then the message. */
  function Delimited(size: nat, body: seq<Byte>): seq<Byte> {
    Varint(size) + body
  }

  /** deserialize_from_slice: reads one length-prefixed message and ignores what follows it. */
  function Undelimited<M>(b: seq<Byte>, default: M, arm: (M, Field) -> Option<M>): Option<M> {
    match ReadVarint32(b)
    case None => None
    case Some((n, rest)) =>
      match Take(rest, n)
      case None => None
      case Some((payload, _)) => Absorb(payload, default, arm)
  }

  lemma DelimitedRoundTrip<M>(body: seq<Byte>, more: seq<Byte>, default: M, arm: (M, Field) -> Option<M>)
    requires |body| < TWO_32
    ensures Undelimited(Delimited(|body|, body) + more, default, arm) == Absorb(body, default, arm)
  {
    assert Delimited(|body|, body) + more == Varint(|body|) + (body + more);
    Varint32RoundTrip(|body|, body + more);
    assert (body + more)[..|body|] == body;
  }

  // ---------- The error payload of failed tasks ----------

  function ErrorFields(e: ErrorMessage): seq<Field> {
    [Text(10, e.message)]
  }

  function ErrorArm(e: ErrorMessage, f: Field): Option<ErrorMessage> {
    if f.BytesField? && f.tag == 10 then
      match Utf8.Decode(f.payload)
      case None => None
      case Some(s) => Some(ErrorMessage(s))
    else Some(e)
  }

  function ErrorSize(e: ErrorMessage): nat {
    TextSize(e.message)
  }

  function SerializeError(e: ErrorMessage): seq<Byte> {
    Delimited(ErrorSize(e), EncodeFields(ErrorFields(e)))
  }

  function DeserializeError(b: seq<Byte>): Option<ErrorMessage> {
    Undelimited(b, ErrorMessage(""), ErrorArm)
  }

  function ErrorOutput(message: string): Any {
    Any("Error", SerializeError(ErrorMessage(message)))
  }

  /** An output of type "Error" that is read as this message, unless it is too long for a 32-bit size. */
  ghost predicate SaysError(output: Option<Any>, message: string) {
    && output.Some? && output.value.typeUrl == "Error"
    && (|Utf8.Encode(message)| < 0xFFFF_FF00 ==> DeserializeError(output.value.value) == Some(ErrorMessage(message)))
  }

  /** The bytes of an ASCII literal. */
  function Ascii(s: string): seq<Byte> {
    Utf8.Encode(s)
  }

  /** monitor_tasks reads back the message that a failed task was given. */
  lemma ErrorRoundTrip(e: ErrorMessage)
    requires |EncodeFields(ErrorFields(e))| < TWO_32
    ensures DeserializeError(SerializeError(e)) == Some(e)
  {
    var fs := ErrorFields(e);
    Utf8.RoundTrip(e.message);
    RecordSize(fs);
    TextFieldSize(10, e.message);
    assert FoldFields(fs, ErrorMessage(""), ErrorArm) == Some(e) by {
      FoldOne(fs[0], [], ErrorMessage(""), ErrorArm);
      assert [fs[0]] + [] == fs;
    }
    RecordRoundTrip(fs, ErrorMessage(""), ErrorArm, e);
    DelimitedRoundTrip(EncodeFields(fs), [], ErrorMessage(""), ErrorArm);
    assert SerializeError(e) + [] == SerializeError(e);
  }

  lemma ErrorOutputSays(message: string)
    ensures SaysError(Some(ErrorOutput(message)), message)
  {
    if |Utf8.Encode(message)| < 0xFFFF_FF00 {
      ErrorFits(message);
      ErrorRoundTrip(ErrorMessage(message));
    }
    hide DeserializeError, SerializeError;
  }

  lemma ErrorFits(message: string)
    requires |Utf8.Encode(message)| < 0xFFFF_FF00
    ensures |EncodeFields(ErrorFields(ErrorMessage(message)))| < TWO_32
  {
    hide Varint, Utf8.Encode;
    VarintSize(10);
    VarintSize(|Utf8.Encode(message)|);
  }
}
