/** UTF-8: how the program's strings become bytes, and the bytes that are accepted as strings. */
module Utf8 {
  import opened Wrappers
  import opened Messages

  function EncodeChar(c: char): (b: seq<Byte>)
    ensures 1 <= |b| <= 4
  {
    var n := c as int;
    if n < 0x80 then [n]
    else if n < 0x800 then [0xC0 + n / 64, 0x80 + n % 64]
    else if n < 0x1_0000 then [0xE0 + n / 4096, 0x80 + n / 64 % 64, 0x80 + n % 64]
    else [0xF0 + n / 262144, 0x80 + n / 4096 % 64, 0x80 + n / 64 % 64, 0x80 + n % 64]
  }

  function Encode(s: string): seq<Byte> {
    if s == [] then [] else EncodeChar(s[0]) + Encode(s[1..])
  }

  /**
    The bytes of a character: as many as its range asks for, the first with the marker of that number and
    the others with 0x80, and six bits of the code point in each but the first.
   */
  lemma CharBytes(c: char)
    ensures var b, n := Encode([c]), c as int;
      && (n < 0x80 ==> b == [n])
      && (0x80 <= n < 0x800 ==>
            |b| == 2 && 0xC0 <= b[0] < 0xE0 && 0x80 <= b[1] < 0xC0 && n == (b[0] - 0xC0) as int * 64 + (b[1] - 0x80))
      && (0x800 <= n < 0x1_0000 ==>
            && |b| == 3 && 0xE0 <= b[0] < 0xF0 && (forall i | 1 <= i < 3 :: 0x80 <= b[i] < 0xC0)
            && n == (b[0] - 0xE0) as int * 4096 + (b[1] - 0x80) as int * 64 + (b[2] - 0x80))
      && (0x1_0000 <= n ==>
            && |b| == 4 && 0xF0 <= b[0] < 0xF8 && (forall i | 1 <= i < 4 :: 0x80 <= b[i] < 0xC0)
            && n == (b[0] - 0xF0) as int * 262144 + (b[1] - 0x80) as int * 4096 + (b[2] - 0x80) as int * 64 + (b[3] - 0x80))
  {
    var n := c as int;
    EncodeCons(c, []);
    assert [c] + [] == [c];
    assert Encode([c]) == EncodeChar(c) + [] == EncodeChar(c);
    if n < 0x800 {
      TwoDigits(n);
    } else if n < 0x1_0000 {
      ThreeDigits(n);
    } else {
      FourDigits(n);
    }
  }

  predicate IsContinuation(b: Byte) {
    0x80 <= b < 0xC0
  }

  function Bits(b: Byte, marker: int): int {
    b - marker
  }

  /** A code point in a range, unless it is a surrogate. */
  function Scalar(n: int, low: nat): Option<char> {
    if low <= n < 0xD800 || (low <= n && 0xE000 <= n < 0x11_0000) then Some(n as char) else None
  }

  /** How many bytes the character that starts with this byte takes; 0 when no character does. */
  function Width(lead: Byte): nat {
    if lead < 0x80 then 1
    else if 0xC0 <= lead < 0xE0 then 2
    else if 0xE0 <= lead < 0xF0 then 3
    else if 0xF0 <= lead < 0xF8 then 4
    else 0
  }

  /** The first character; overlong forms, surrogates and values past U+10FFFF are refused. */
  function DecodeChar(b: seq<Byte>): Option<char>
    requires b != []
  {
    var w := Width(b[0]);
    if w == 0 || |b| < w || exists i | 1 <= i < w :: !IsContinuation(b[i]) then None
    else if w == 1 then Some(b[0] as char)
    else if w == 2 then Scalar(Bits(b[0], 0xC0) * 64 + Bits(b[1], 0x80), 0x80)
    else if w == 3 then Scalar(Bits(b[0], 0xE0) * 4096 + Bits(b[1], 0x80) * 64 + Bits(b[2], 0x80), 0x800)
    else Scalar(Bits(b[0], 0xF0) * 262144 + Bits(b[1], 0x80) * 4096 + Bits(b[2], 0x80) * 64 + Bits(b[3], 0x80), 0x1_0000)
  }

  function Decode(b: seq<Byte>): Option<string> {
    if b == [] then Some([])
    else
      match DecodeChar(b)
      case None => None
      case Some(c) =>
        match Decode(b[Width(b[0])..])
        case None => None
        case Some(s) => Some([c] + s)
  }

  // ---------- The digits of a code point, six bits at a time ----------

  lemma TwoDigits(n: nat)
    requires n < 0x800
    ensures n / 64 < 32 && n / 64 * 64 + n % 64 == n
  {
  }

  lemma ThreeDigits(n: nat)
    requires n < 0x1_0000
    ensures n / 4096 < 16 && n / 4096 * 4096 + n / 64 % 64 * 64 + n % 64 == n
  {
  }

  lemma FourDigits(n: nat)
    requires n < 0x20_0000
    ensures n / 262144 < 8 && n / 262144 * 262144 + n / 4096 % 64 * 4096 + n / 64 % 64 * 64 + n % 64 == n
  {
    assert n / 64 / 64 == n / 4096;
    assert n / 4096 / 64 == n / 262144;
  }

  /** Digits determine the number: what dividing gives back. */
  lemma DigitsOf(high: nat, low: nat)
    requires low < 64
    ensures (high * 64 + low) / 64 == high && (high * 64 + low) % 64 == low
  {
  }

  lemma DecodeEncodedChar(c: char, more: seq<Byte>)
    ensures Width(EncodeChar(c)[0]) == |EncodeChar(c)|
    ensures DecodeChar(EncodeChar(c) + more) == Some(c)
  {
    hide DecodeChar;
    var n := c as int;
    if n < 0x80 {
      DecodeOne(n, more);
    } else if n < 0x800 {
      TwoDigits(n);
      DecodeTwo(n / 64, n % 64, more);
    } else if n < 0x1_0000 {
      ThreeDigits(n);
      DecodeThree(n / 4096, n / 64 % 64, n % 64, more);
    } else {
      FourDigits(n);
      DecodeFour(n / 262144, n / 4096 % 64, n / 64 % 64, n % 64, more);
    }
  }

  lemma DecodeOne(n: nat, more: seq<Byte>)
    requires n < 0x80
    ensures DecodeChar([n] + more) == Some(n as char)
  {
  }

  lemma DecodeTwo(d1: nat, d2: nat, more: seq<Byte>)
    requires d1 < 32 && d2 < 64
    ensures DecodeChar([0xC0 + d1, 0x80 + d2] + more) == Scalar(d1 * 64 + d2, 0x80)
  {
  }

  lemma DecodeThree(d1: nat, d2: nat, d3: nat, more: seq<Byte>)
    requires d1 < 16 && d2 < 64 && d3 < 64
    ensures DecodeChar([0xE0 + d1, 0x80 + d2, 0x80 + d3] + more) == Scalar(d1 * 4096 + d2 * 64 + d3, 0x800)
  {
  }

  lemma DecodeFour(d1: nat, d2: nat, d3: nat, d4: nat, more: seq<Byte>)
    requires d1 < 8 && d2 < 64 && d3 < 64 && d4 < 64
    ensures DecodeChar([0xF0 + d1, 0x80 + d2, 0x80 + d3, 0x80 + d4] + more) == Scalar(d1 * 262144 + d2 * 4096 + d3 * 64 + d4, 0x1_0000)
  {
  }

  lemma {:induction false} RoundTrip(s: string)
    ensures Decode(Encode(s)) == Some(s)
    decreases |s|
  {
    hide *;
    if s == [] {
      NothingDecoded();
    } else {
      assert s == [s[0]] + s[1..];
      EncodeCons(s[0], s[1..]);
      DecodeEncodedChar(s[0], Encode(s[1..]));
      RoundTrip(s[1..]);
      DecodeCons(s[0], Encode(s[1..]));
    }
  }

  lemma DecodeCons(c: char, more: seq<Byte>)
    requires Width(EncodeChar(c)[0]) == |EncodeChar(c)| && DecodeChar(EncodeChar(c) + more) == Some(c)
    ensures Decode(EncodeChar(c) + more) ==
      match Decode(more)
      case None => None
      case Some(s) => Some([c] + s)
  {
  }

  lemma EncodeDecodedChar(b: seq<Byte>)
    requires b != [] && DecodeChar(b).Some?
    ensures EncodeChar(DecodeChar(b).value) == b[..Width(b[0])]
  {
    var w := Width(b[0]);
    assert forall i | 1 <= i < w :: IsContinuation(b[i]);
    if w == 2 {
      assert b[..2] == [0xC0 + Bits(b[0], 0xC0), 0x80 + Bits(b[1], 0x80)];
      EncodeTwo(Bits(b[0], 0xC0), Bits(b[1], 0x80));
    } else if w == 3 {
      assert b[..3] == [0xE0 + Bits(b[0], 0xE0), 0x80 + Bits(b[1], 0x80), 0x80 + Bits(b[2], 0x80)];
      EncodeThree(Bits(b[0], 0xE0), Bits(b[1], 0x80), Bits(b[2], 0x80));
    } else if w == 4 {
      assert b[..4] == [0xF0 + Bits(b[0], 0xF0), 0x80 + Bits(b[1], 0x80), 0x80 + Bits(b[2], 0x80), 0x80 + Bits(b[3], 0x80)];
      EncodeFour(Bits(b[0], 0xF0), Bits(b[1], 0x80), Bits(b[2], 0x80), Bits(b[3], 0x80));
    }
  }

  lemma EncodeTwo(d1: nat, d2: nat)
    requires d1 < 32 && d2 < 64 && Scalar(d1 * 64 + d2, 0x80).Some?
    ensures EncodeChar(Scalar(d1 * 64 + d2, 0x80).value) == [0xC0 + d1, 0x80 + d2]
  {
  }

  lemma EncodeThree(d1: nat, d2: nat, d3: nat)
    requires d1 < 16 && d2 < 64 && d3 < 64 && Scalar(d1 * 4096 + d2 * 64 + d3, 0x800).Some?
    ensures EncodeChar(Scalar(d1 * 4096 + d2 * 64 + d3, 0x800).value) == [0xE0 + d1, 0x80 + d2, 0x80 + d3]
  {
    DigitsOf(d1, d2);
    DigitsOf(d1 * 64 + d2, d3);
    assert (d1 * 4096 + d2 * 64 + d3) / 64 / 64 == (d1 * 4096 + d2 * 64 + d3) / 4096;
  }

  lemma EncodeFour(d1: nat, d2: nat, d3: nat, d4: nat)
    requires d1 < 8 && d2 < 64 && d3 < 64 && d4 < 64 && Scalar(d1 * 262144 + d2 * 4096 + d3 * 64 + d4, 0x1_0000).Some?
    ensures EncodeChar(Scalar(d1 * 262144 + d2 * 4096 + d3 * 64 + d4, 0x1_0000).value) == [0xF0 + d1, 0x80 + d2, 0x80 + d3, 0x80 + d4]
  {
    var n := d1 * 262144 + d2 * 4096 + d3 * 64 + d4;
    DigitsOf(d1, d2);
    DigitsOf(d1 * 64 + d2, d3);
    DigitsOf(d1 * 4096 + d2 * 64 + d3, d4);
    assert n / 64 / 64 == n / 4096;
    assert n / 4096 / 64 == n / 262144;
  }

  /** Only one byte sequence decodes to a string: its encoding. */
  lemma {:induction false} DecodingIsCanonical(b: seq<Byte>)
    requires Decode(b).Some?
    ensures Encode(Decode(b).value) == b
    decreases |b|
  {
    hide *;
    if b == [] {
      NothingDecoded();
    } else {
      DecodeIs(b);
      var w, c := Width(b[0]), DecodeChar(b).value;
      EncodeDecodedChar(b);
      DecodingIsCanonical(b[w..]);
      EncodeCons(c, Decode(b[w..]).value);
      assert b == b[..w] + b[w..];
    }
  }

  lemma NothingDecoded()
    ensures Decode([]) == Some([]) && Encode([]) == []
  {
  }

  lemma DecodeIs(b: seq<Byte>)
    requires b != [] && Decode(b).Some?
    ensures var w := Width(b[0]);
      && 0 < w <= |b| && DecodeChar(b).Some? && Decode(b[w..]).Some?
      && Decode(b).value == [DecodeChar(b).value] + Decode(b[w..]).value
  {
  }

  lemma EncodeCons(c: char, s: string)
    ensures Encode([c] + s) == EncodeChar(c) + Encode(s)
  {
  }

  lemma {:induction false} AsciiLength(s: string)
    requires forall i | 0 <= i < |s| :: s[i] as int < 0x80
    ensures |Encode(s)| == |s|
    decreases |s|
  {
    if s != [] { AsciiLength(s[1..]); }
  }
}
