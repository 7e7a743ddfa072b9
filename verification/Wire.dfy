/**
  Records on the wire, as in the Protocol Buffers encoding: base 128 varints, and fields that are a
  tag followed by a varint or by a length and that many bytes.
 */
module Wire {
  import opened Wrappers
  import opened Messages

  const MAX_VARINT_BYTES: nat := 10

  // ---------- Varints ----------

  function Varint(v: nat): (b: seq<Byte>)
    ensures |b| >= 1
  {
    if v < 0x80 then [v] else [0x80 + v % 0x80] + Varint(v / 0x80)
  }

  function SizeofVarint(v: nat): nat {
    if v < 0x80 then 1
    else if v < 0x4000 then 2
    else if v < 0x20_0000 then 3
    else if v < 0x1000_0000 then 4
    else if v < 0x8_0000_0000 then 5
    else if v < 0x400_0000_0000 then 6
    else if v < 0x2_0000_0000_0000 then 7
    else if v < 0x100_0000_0000_0000 then 8
    else if v < 0x8000_0000_0000_0000 then 9
    else 10
  }

  function SizeofLen(len: nat): nat {
    SizeofVarint(len) + len
  }

  lemma VarintStep(v: nat)
    requires 0x80 <= v < 0x1_0000_0000_0000_0000
    ensures v / 0x80 < v && SizeofVarint(v) == 1 + SizeofVarint(v / 0x80)
  {
  }

  lemma {:induction false} VarintSize(v: nat)
    requires v < 0x1_0000_0000_0000_0000
    ensures |Varint(v)| == SizeofVarint(v) <= MAX_VARINT_BYTES
  {
    if v >= 0x80 {
      VarintStep(v);
      VarintSize(v / 0x80);
    }
  }

  /** What digits in base 128 denote, the lowest first. */
  ghost function DigitValue(b: seq<Byte>): nat {
    if b == [] then 0 else b[0] % 0x80 + 0x80 * DigitValue(b[1..])
  }

  /** A varint is its number in base 128: the lowest digit comes first, and all but the last have the high bit set. */
  lemma {:induction false} VarintDigits(v: nat)
    ensures var b := Varint(v);
      && DigitValue(b) == v
      && (forall i | 0 <= i < |b| - 1 :: b[i] >= 0x80)
      && b[|b| - 1] < 0x80
      && (|b| > 1 ==> b[|b| - 1] > 0)
  {
    if v >= 0x80 {
      VarintDigits(v / 0x80);
      var more := Varint(v / 0x80);
      assert Varint(v)[1..] == more;
      assert forall i | 1 <= i < |more| + 1 :: Varint(v)[i] == more[i - 1];
    }
  }

  /** Reads at most `limit` bytes; the second part of the result is what follows the varint. */
  function ReadVarint(b: seq<Byte>, limit: nat): (r: Option<(nat, seq<Byte>)>)
    ensures r.Some? ==> |r.value.1| < |b|
    decreases limit
  {
    if b == [] || limit == 0 then None
    else if b[0] < 0x80 then Some((b[0], b[1..]))
    else
      match ReadVarint(b[1..], limit - 1)
      case None => None
      case Some((v, rest)) => Some((b[0] - 0x80 + 0x80 * v, rest))
  }

  function ReadVarint64(b: seq<Byte>): (r: Option<(UInt64, seq<Byte>)>)
    ensures r.Some? ==> |r.value.1| < |b|
  {
    match ReadVarint(b, MAX_VARINT_BYTES)
    case None => None
    case Some((v, rest)) => Some((v % 0x1_0000_0000_0000_0000, rest))
  }

  /** A varint read as 32 bits keeps its low 32 bits. */
  function ReadVarint32(b: seq<Byte>): (r: Option<(UInt32, seq<Byte>)>)
    ensures r.Some? ==> |r.value.1| < |b|
  {
    match ReadVarint(b, MAX_VARINT_BYTES)
    case None => None
    case Some((v, rest)) => Some((v % 0x1_0000_0000, rest))
  }

  lemma {:induction false} ReadWrittenVarint(v: nat, more: seq<Byte>, limit: nat)
    requires |Varint(v)| <= limit
    ensures ReadVarint(Varint(v) + more, limit) == Some((v, more))
    decreases limit
  {
    if v < 0x80 {
      assert (Varint(v) + more)[1..] == more;
    } else {
      assert (Varint(v) + more)[1..] == Varint(v / 0x80) + more;
      ReadWrittenVarint(v / 0x80, more, limit - 1);
    }
  }

  lemma Varint64RoundTrip(v: UInt64, more: seq<Byte>)
    ensures ReadVarint64(Varint(v) + more) == Some((v, more))
  {
    hide Varint, SizeofVarint, ReadVarint;
    VarintSize(v);
    ReadWrittenVarint(v, more, MAX_VARINT_BYTES);
  }

  lemma Varint32RoundTrip(v: UInt32, more: seq<Byte>)
    ensures ReadVarint32(Varint(v) + more) == Some((v, more))
  {
    hide Varint, SizeofVarint, ReadVarint;
    VarintSize(v);
    ReadWrittenVarint(v, more, MAX_VARINT_BYTES);
  }

  // ---------- Fields ----------

  /** Tags carry the wire type in their low three bits: 0 for varints, 2 for length-delimited bytes. */
  datatype Field =
    | VarintField(tag: UInt32, value: UInt64)
    | BytesField(tag: UInt32, payload: seq<Byte>)
    | FixedField(tag: UInt32, payload: seq<Byte>)

  ghost predicate Writable(f: Field) {
    match f
    case VarintField(tag, value) => tag % 8 == 0
    case BytesField(tag, payload) => tag % 8 == 2 && |payload| < 0x1_0000_0000
    case FixedField(tag, payload) => (tag % 8 == 1 && |payload| == 8) || (tag % 8 == 5 && |payload| == 4)
  }

  function EncodeField(f: Field): (b: seq<Byte>)
    ensures b != []
  {
    match f
    case VarintField(tag, value) => Varint(tag) + Varint(value)
    case BytesField(tag, payload) => Varint(tag) + (Varint(|payload|) + payload)
    case FixedField(tag, payload) => Varint(tag) + payload
  }

  function EncodeFields(fs: seq<Field>): seq<Byte> {
    if fs == [] then [] else EncodeField(fs[0]) + EncodeFields(fs[1..])
  }

  function Take(b: seq<Byte>, n: nat): (r: Option<(seq<Byte>, seq<Byte>)>)
    ensures r.Some? ==> |r.value.0| == n && n + |r.value.1| == |b|
  {
    if |b| < n then None else Some((b[..n], b[n..]))
  }

  /** One field and what follows it. Groups and unknown wire types are errors. */
  function ReadField(b: seq<Byte>): (r: Option<(Field, seq<Byte>)>)
    ensures r.Some? ==> |r.value.1| < |b|
  {
    match ReadVarint32(b)
    case None => None
    case Some((tag, rest)) =>
      if tag % 8 == 0 then
        match ReadVarint64(rest)
        case None => None
        case Some((v, rest')) => Some((VarintField(tag, v), rest'))
      else if tag % 8 == 2 then
        match ReadVarint32(rest)
        case None => None
        case Some((n, rest')) =>
          match Take(rest', n)
          case None => None
          case Some((payload, rest'')) => Some((BytesField(tag, payload), rest''))
      else if tag % 8 == 1 || tag % 8 == 5 then
        match Take(rest, if tag % 8 == 1 then 8 else 4)
        case None => None
        case Some((payload, rest')) => Some((FixedField(tag, payload), rest'))
      else
        None
  }

  lemma ReadWrittenField(f: Field, more: seq<Byte>)
    requires Writable(f)
    ensures ReadField(EncodeField(f) + more) == Some((f, more))
  {
    hide Varint, ReadVarint32, ReadVarint64;
    match f
    case VarintField(tag, value) =>
      assert EncodeField(f) + more == Varint(tag) + (Varint(value) + more);
      Varint32RoundTrip(tag, Varint(value) + more);
      Varint64RoundTrip(value, more);
    case BytesField(tag, payload) =>
      assert EncodeField(f) + more == Varint(tag) + (Varint(|payload|) + (payload + more));
      Varint32RoundTrip(tag, Varint(|payload|) + (payload + more));
      Varint32RoundTrip(|payload|, payload + more);
      assert (payload + more)[..|payload|] == payload && (payload + more)[|payload|..] == more;
    case FixedField(tag, payload) =>
      assert EncodeField(f) + more == Varint(tag) + (payload + more);
      Varint32RoundTrip(tag, payload + more);
      assert (payload + more)[..|payload|] == payload && (payload + more)[|payload|..] == more;
  }

  /**
    A written field is read back exactly when its tag has the wire type it was written with and its
    length is one that the reader keeps: 32 bits of it, and no more.
   */
  lemma ReadWrittenFieldIff(f: Field, more: seq<Byte>)
    ensures ReadField(EncodeField(f) + more) == Some((f, more)) <==> Writable(f)
  {
    if Writable(f) {
      ReadWrittenField(f, more);
    } else {
      hide Varint, ReadVarint32, ReadVarint64;
      var rest := match f
        case VarintField(_, value) => Varint(value) + more
        case BytesField(_, payload) => Varint(|payload|) + payload + more
        case FixedField(_, payload) => payload + more;
      assert EncodeField(f) + more == Varint(f.tag) + rest;
      Varint32RoundTrip(f.tag, rest);
    }
  }

  // ---------- Messages as folds over their fields ----------

  /** What from_reader does from some point on: read a field, let the message's match arm absorb it, go on. */
  function Absorb<M>(b: seq<Byte>, msg: M, arm: (M, Field) -> Option<M>): Option<M>
    decreases |b|
  {
    if b == [] then Some(msg)
    else
      match ReadField(b)
      case None => None
      case Some((f, rest)) =>
        match arm(msg, f)
        case None => None
        case Some(msg') => Absorb(rest, msg', arm)
  }

  function FoldFields<M>(fs: seq<Field>, msg: M, arm: (M, Field) -> Option<M>): Option<M> {
    if fs == [] then Some(msg)
    else
      match arm(msg, fs[0])
      case None => None
      case Some(msg') => FoldFields(fs[1..], msg', arm)
  }

  ghost predicate AllWritable(fs: seq<Field>) {
    forall i | 0 <= i < |fs| :: Writable(fs[i])
  }

  /** Reading written fields is folding over them. */
  lemma {:induction false} AbsorbWritten<M>(fs: seq<Field>, msg: M, arm: (M, Field) -> Option<M>)
    requires AllWritable(fs)
    ensures Absorb(EncodeFields(fs), msg, arm) == FoldFields(fs, msg, arm)
    decreases |fs|
  {
    if fs != [] {
      ReadWrittenField(fs[0], EncodeFields(fs[1..]));
      match arm(msg, fs[0])
      case None =>
      case Some(msg') => AbsorbWritten(fs[1..], msg', arm);
    }
  }

  /** from_reader: the loop of every generated reader, with the message's match arms as `arm`. */
  method FromReader<M>(bytes: seq<Byte>, default: M, arm: (M, Field) -> Option<M>) returns (r: Option<M>)
    ensures r == Absorb(bytes, default, arm)
  {
    var msg, rest := default, bytes;
    while rest != []
      invariant Absorb(rest, msg, arm) == Absorb(bytes, default, arm)
      decreases |rest|
    {
      match ReadField(rest)
      case None => return None;
      case Some((f, rest')) =>
        match arm(msg, f) {
          case None => return None;
          case Some(msg') => msg, rest := msg', rest';
        }
    }
    return Some(msg);
  }

  // ---------- Sizes ----------

  function SizeOfField(f: Field): nat {
    match f
    case VarintField(tag, value) => SizeofVarint(tag) + SizeofVarint(value)
    case BytesField(tag, payload) => SizeofVarint(tag) + SizeofLen(|payload|)
    case FixedField(tag, payload) => SizeofVarint(tag) + |payload|
  }

  function SizeOfFields(fs: seq<Field>): nat {
    if fs == [] then 0 else SizeOfField(fs[0]) + SizeOfFields(fs[1..])
  }

  lemma {:induction false} EncodedSize(fs: seq<Field>)
    requires forall i | 0 <= i < |fs| && fs[i].BytesField? :: |fs[i].payload| < 0x1_0000_0000_0000_0000
    ensures |EncodeFields(fs)| == SizeOfFields(fs)
    decreases |fs|
  {
    if fs != [] {
      VarintSize(fs[0].tag);
      match fs[0] {
        case VarintField(tag, value) => VarintSize(value);
        case BytesField(tag, payload) => VarintSize(|payload|);
        case FixedField(_, _) =>
      }
      EncodedSize(fs[1..]);
    }
  }

  lemma {:induction false} SizeAppend(fs: seq<Field>, gs: seq<Field>)
    ensures SizeOfFields(fs + gs) == SizeOfFields(fs) + SizeOfFields(gs)
    decreases |fs|
  {
    if fs == [] {
      assert fs + gs == gs;
    } else {
      assert (fs + gs)[0] == fs[0] && (fs + gs)[1..] == fs[1..] + gs;
      SizeAppend(fs[1..], gs);
    }
  }

  lemma {:induction false} EncodeAppend(fs: seq<Field>, gs: seq<Field>)
    ensures EncodeFields(fs + gs) == EncodeFields(fs) + EncodeFields(gs)
    decreases |fs|
  {
    if fs == [] {
      assert fs + gs == gs;
    } else {
      assert (fs + gs)[0] == fs[0] && (fs + gs)[1..] == fs[1..] + gs;
      EncodeAppend(fs[1..], gs);
    }
  }

  /** No field is longer than the record it is part of. */
  lemma {:induction false} FieldFits(fs: seq<Field>, i: nat)
    requires i < |fs| && fs[i].BytesField?
    ensures |fs[i].payload| < |EncodeFields(fs)|
    decreases |fs|
  {
    if i > 0 { FieldFits(fs[1..], i - 1); }
  }
}
