/** convertNameStyle of sdk/gentool/util.js: names in words joined by underscores, in seven styles. */
module NameStyles {
  import opened Wrappers

  datatype NameStyle =
    | LowerCase
    | UpperCase
    | CamelBack
    | CamelCase
    | CamelSnakeBack
    | CamelSnakeCase
    | LeadingUpperSnakeCase

  // ---------- Characters ----------

  predicate IsLower(c: char) { 'a' <= c <= 'z' }

  predicate IsUpper(c: char) { 'A' <= c <= 'Z' }

  predicate IsDigit(c: char) { '0' <= c <= '9' }

  predicate IsAlphanumeric(c: char) {
    IsLower(c) || IsUpper(c) || IsDigit(c)
  }

  function ToLowerChar(c: char): char {
    if IsUpper(c) then (c as int - 'A' as int + 'a' as int) as char else c
  }

  function ToUpperChar(c: char): char {
    if IsLower(c) then (c as int - 'a' as int + 'A' as int) as char else c
  }

  function ToLower(s: string): (r: string)
    ensures |r| == |s| && forall i | 0 <= i < |s| :: r[i] == ToLowerChar(s[i])
  {
    seq(|s|, i requires 0 <= i < |s| => ToLowerChar(s[i]))
  }

  function ToUpper(s: string): (r: string)
    ensures |r| == |s| && forall i | 0 <= i < |s| :: r[i] == ToUpperChar(s[i])
  {
    seq(|s|, i requires 0 <= i < |s| => ToUpperChar(s[i]))
  }

  function UpperFirst(s: string): (r: string)
    ensures |r| == |s|
  {
    if s == [] then [] else [ToUpperChar(s[0])] + s[1..]
  }

  /** `^[a-zA-Z_][a-zA-Z0-9_]*$` */
  predicate IsIdentifier(s: string) {
    s != [] && !IsDigit(s[0]) && forall i | 0 <= i < |s| :: IsAlphanumeric(s[i]) || s[i] == '_'
  }

  // ---------- Segments ----------

  function Segments(s: string): (r: seq<string>)
    ensures r != []
  {
    if s == [] then [[]]
    else
      var rest := Segments(s[1..]);
      if s[0] == '_' then [[]] + rest else [[s[0]] + rest[0]] + rest[1..]
  }

  predicate IsWord(s: string) {
    s != [] && forall i | 0 <= i < |s| :: IsAlphanumeric(s[i])
  }

  /** What the checks at the beginning let through. */
  predicate IsName(name: string) {
    name != [] && !IsDigit(name[0]) && forall i | 0 <= i < |Segments(name)| :: IsWord(Segments(name)[i])
  }

  // ---------- Styles ----------

  predicate KeepsUnderscores(style: NameStyle) {
    !style.CamelBack? && !style.CamelCase?
  }

  /** One segment in a style; only the first one may differ from the others. */
  function Styled(segment: string, first: bool, style: NameStyle): (r: string)
    ensures |r| == |segment|
  {
    match style
    case LowerCase => ToLower(segment)
    case UpperCase => ToUpper(segment)
    case CamelBack => if first then ToLower(segment) else UpperFirst(ToLower(segment))
    case CamelCase => UpperFirst(ToLower(segment))
    case CamelSnakeBack => if first then ToLower(segment) else UpperFirst(ToLower(segment))
    case CamelSnakeCase => UpperFirst(ToLower(segment))
    case LeadingUpperSnakeCase => if first then UpperFirst(ToLower(segment)) else ToLower(segment)
  }

  function Separator(style: NameStyle): string {
    if KeepsUnderscores(style) then "_" else ""
  }

  /** The segments in a style, put together. */
  function Assemble(segments: seq<string>, style: NameStyle): string
    decreases |segments|
  {
    if segments == [] then []
    else if |segments| == 1 then Styled(segments[0], true, style)
    else
      var n := |segments| - 1;
      Assemble(segments[..n], style) + (Separator(style) + Styled(segments[n], false, style))
  }

  function Converted(name: string, style: NameStyle): Option<string> {
    if IsName(name) then Some(Assemble(Segments(name), style)) else None
  }

  // ---------- The loops ----------

  method IsWordOnly(segment: string) returns (r: bool)
    ensures r == IsWord(segment)
  {
    if |segment| == 0 {
      return false;
    }
    var k := 0;
    while k < |segment|
      invariant 0 <= k <= |segment| && forall i | 0 <= i < k :: IsAlphanumeric(segment[i])
    {
      if !IsAlphanumeric(segment[k]) {
        return false;
      }
      k := k + 1;
    }
    return true;
  }

  method ConvertNameStyle(name: string, style: NameStyle) returns (r: Option<string>)
    ensures r == Converted(name, style)
  {
    if |name| == 0 {
      return None;
    }
    if '0' <= name[0] <= '9' {
      return None;
    }
    var segments := Segments(name);
    var k := 0;
    while k < |segments|
      invariant 0 <= k <= |segments| && forall i | 0 <= i < k :: IsWord(segments[i])
    {
      var word := IsWordOnly(segments[k]);
      if !word {
        return None;
      }
      k := k + 1;
    }
    var convertedName := ConvertSegments(segments, style);
    return Some(convertedName);
  }

  /** The body of each style's loop; the leading upper snake case has the lower case's. */
  method AppendSegment(convertedName: string, segment: string, style: NameStyle) returns (r: string)
    requires style != LeadingUpperSnakeCase
    ensures r == if convertedName == [] then Styled(segment, true, style) else convertedName + (Separator(style) + Styled(segment, false, style))
  {
    hide ToLower, ToUpper, UpperFirst;
    match style {
      case LowerCase =>
        if |convertedName| == 0 { r := ToLower(segment); } else { r := convertedName + ("_" + ToLower(segment)); }
      case UpperCase =>
        if |convertedName| == 0 { r := ToUpper(segment); } else { r := convertedName + ("_" + ToUpper(segment)); }
      case CamelBack =>
        if |convertedName| == 0 { r := ToLower(segment); } else { r := convertedName + ("" + UpperFirst(ToLower(segment))); }
      case CamelCase =>
        r := convertedName + UpperFirst(ToLower(segment));
        assert convertedName == [] ==> r == UpperFirst(ToLower(segment));
      case CamelSnakeBack =>
        if |convertedName| == 0 { r := ToLower(segment); } else { r := convertedName + ("_" + UpperFirst(ToLower(segment))); }
      case CamelSnakeCase =>
        if |convertedName| == 0 { r := UpperFirst(ToLower(segment)); } else { r := convertedName + ("_" + UpperFirst(ToLower(segment))); }
    }
  }

  method ConvertSegments(segments: seq<string>, style: NameStyle) returns (convertedName: string)
    requires segments != [] && forall i | 0 <= i < |segments| :: IsWord(segments[i])
    ensures convertedName == Assemble(segments, style)
  {
    hide Styled, Separator;
    var loopStyle := if style == LeadingUpperSnakeCase then LowerCase else style;
    convertedName := [];
    var k := 0;
    while k < |segments|
      invariant 0 <= k <= |segments|
      invariant convertedName == Assemble(segments[..k], loopStyle) && (k > 0 ==> |convertedName| > 0)
    {
      AssembleStep(segments, k, loopStyle);
      convertedName := AppendSegment(convertedName, segments[k], loopStyle);
      k := k + 1;
    }
    assert segments[..k] == segments;
    if style == LeadingUpperSnakeCase {
      LeadingUpperIsLowerWithUpperFirst(segments);
      convertedName := [ToUpperChar(convertedName[0])] + convertedName[1..];
    }
  }

  lemma AssembleStep(segments: seq<string>, k: nat, style: NameStyle)
    requires k < |segments|
    ensures Assemble(segments[..k + 1], style) ==
      if k == 0 then Styled(segments[k], true, style)
      else Assemble(segments[..k], style) + (Separator(style) + Styled(segments[k], false, style))
  {
    assert segments[..k + 1][..k] == segments[..k];
  }

  lemma {:induction false} AssembledIsLonger(segments: seq<string>, style: NameStyle)
    requires segments != [] && segments[0] != []
    ensures Assemble(segments, style) != []
    ensures Assemble(segments, style)[0] == Styled(segments[0], true, style)[0]
    decreases |segments|
  {
    if |segments| > 1 { AssembledIsLonger(segments[..|segments| - 1], style); }
  }

  lemma {:induction false} LeadingUpperIsLowerWithUpperFirst(segments: seq<string>)
    requires segments != [] && segments[0] != []
    ensures Assemble(segments, LeadingUpperSnakeCase) == UpperFirst(Assemble(segments, LowerCase))
    decreases |segments|
  {
    if |segments| > 1 {
      var n := |segments| - 1;
      LeadingUpperIsLowerWithUpperFirst(segments[..n]);
      AssembledIsLonger(segments[..n], LowerCase);
      UpperFirstAppend(Assemble(segments[..n], LowerCase), "_" + ToLower(segments[n]));
    }
  }

  lemma UpperFirstAppend(s: string, more: string)
    requires s != []
    ensures UpperFirst(s + more) == UpperFirst(s) + more
  {
  }

  // ---------- Every result is an identifier ----------

  lemma StyledCharacter(c: char)
    requires IsAlphanumeric(c)
    ensures IsAlphanumeric(ToLowerChar(c)) && IsAlphanumeric(ToUpperChar(c))
    ensures IsDigit(ToLowerChar(c)) == IsDigit(c) == IsDigit(ToUpperChar(c))
    ensures ToLowerChar(ToLowerChar(c)) == ToLowerChar(c) == ToLowerChar(ToUpperChar(c))
    ensures ToUpperChar(ToLowerChar(c)) == ToUpperChar(c) == ToUpperChar(ToUpperChar(c))
  {
  }

  lemma StyledWord(segment: string, first: bool, style: NameStyle)
    requires IsWord(segment)
    ensures IsWord(Styled(segment, first, style))
    ensures !IsDigit(segment[0]) ==> !IsDigit(Styled(segment, first, style)[0])
    ensures ToLower(Styled(segment, first, style)) == ToLower(segment)
    ensures ToUpper(Styled(segment, first, style)) == ToUpper(segment)
  {
    hide IsAlphanumeric, ToLowerChar, ToUpperChar, IsDigit;
    forall i | 0 <= i < |segment|
      ensures var s := Styled(segment, first, style);
        && IsAlphanumeric(s[i]) && (!IsDigit(segment[i]) ==> !IsDigit(s[i]))
        && ToLowerChar(s[i]) == ToLowerChar(segment[i]) && ToUpperChar(s[i]) == ToUpperChar(segment[i])
    {
      StyledCharacter(segment[i]);
      StyledCharacter(ToLowerChar(segment[i]));
    }
  }

  predicate AreWords(segments: seq<string>) {
    segments != [] && forall i | 0 <= i < |segments| :: IsWord(segments[i])
  }

  lemma {:induction false} AssembledCharacters(segments: seq<string>, style: NameStyle)
    requires AreWords(segments)
    ensures forall c | c in Assemble(segments, style) :: IsAlphanumeric(c) || c == '_'
    ensures !KeepsUnderscores(style) || |segments| == 1 ==> '_' !in Assemble(segments, style)
    ensures KeepsUnderscores(style) && |segments| > 1 ==> '_' in Assemble(segments, style)
    decreases |segments|
  {
    hide *;
    AssembleWords(segments, style);
    if |segments| == 1 {
      WordCharacters(segments[0], true, style);
    } else {
      var n := |segments| - 1;
      AssembledCharacters(segments[..n], style);
      WordCharacters(segments[n], false, style);
      var before, separator, word := Assemble(segments[..n], style), Separator(style), Styled(segments[n], false, style);
      assert forall c :: c in before + (separator + word) <==> c in before || c in separator || c in word;
    }
  }

  lemma AssembleWords(segments: seq<string>, style: NameStyle)
    requires AreWords(segments)
    ensures var n := |segments| - 1;
      && n >= 0 && IsWord(segments[n]) && (n > 0 ==> AreWords(segments[..n]))
      && Assemble(segments, style) == (if n == 0 then Styled(segments[0], true, style)
                                       else Assemble(segments[..n], style) + (Separator(style) + Styled(segments[n], false, style)))
    ensures Separator(style) == if KeepsUnderscores(style) then "_" else ""
    ensures '_' in "_" && forall c | c in "_" :: c == '_'
  {
    hide Styled, IsWord;
  }

  lemma WordCharacters(segment: string, first: bool, style: NameStyle)
    requires IsWord(segment)
    ensures forall c | c in Styled(segment, first, style) :: IsAlphanumeric(c)
    ensures '_' !in Styled(segment, first, style)
  {
  }

  lemma FirstSegment(name: string)
    requires name != [] && Segments(name)[0] != []
    ensures Segments(name)[0][0] == name[0]
  {
  }

  /** Whatever passes the checks becomes a valid identifier, in every style. */
  lemma ConvertedIsIdentifier(name: string, style: NameStyle)
    ensures Converted(name, style).Some? ==> IsIdentifier(Converted(name, style).value)
  {
    if IsName(name) {
      var segments := Segments(name);
      AssembledCharacters(segments, style);
      AssembledIsLonger(segments, style);
      FirstSegment(name);
      StyledWord(segments[0], true, style);
      FirstIsNoUnderscore(Styled(segments[0], true, style));
    }
  }

  lemma FirstIsNoUnderscore(word: string)
    requires IsWord(word)
    ensures word[0] != '_'
  {
  }

  // ---------- Which letters are capitals ----------

  /** The characters that a style makes capitals: all, none, or some of those that begin a word. */
  predicate IsCapital(name: string, i: nat, style: NameStyle)
    requires i < |name|
  {
    match style
    case LowerCase => false
    case UpperCase => true
    case CamelBack | CamelSnakeBack => i > 0 && name[i - 1] == '_'
    case CamelCase | CamelSnakeCase => i == 0 || name[i - 1] == '_'
    case LeadingUpperSnakeCase => i == 0
  }

  /** The same character, or the same letter in the other case. */
  predicate SameLetter(c: char, d: char) {
    c == d || ('a' <= c <= 'z' && c as int - d as int == 32) || ('a' <= d <= 'z' && d as int - c as int == 32)
  }

  predicate IsCased(name: string, i: nat, style: NameStyle, c: char)
    requires i < |name|
  {
    && SameLetter(c, name[i])
    && (name[i] == '_' ==> c == '_')
    && (if IsCapital(name, i, style) then !('a' <= c <= 'z') else !('A' <= c <= 'Z'))
  }

  lemma CasedWord(word: string, style: NameStyle, before: string)
    requires IsWord(word) && (before == [] || before[|before| - 1] == '_')
    ensures var r := Styled(word, before == [], style);
      forall i | 0 <= i < |word| :: IsCased(before + word, |before| + i, style, r[i])
  {
    var r := Styled(word, before == [], style);
    forall i | 0 <= i < |word|
      ensures IsCased(before + word, |before| + i, style, r[i])
    {
      assert (before + word)[|before| + i] == word[i] && IsAlphanumeric(word[i]);
      if i > 0 { assert (before + word)[|before| + i - 1] == word[i - 1] && IsAlphanumeric(word[i - 1]); }
    }
  }

  /** The last underscore of a name. */
  lemma {:induction false} LastUnderscore(name: string) returns (before: string, word: string)
    requires '_' in name
    ensures name == before + ("_" + word) && '_' !in word
    decreases |name|
  {
    var n := |name| - 1;
    if name[n] == '_' {
      before, word := name[..n], [];
    } else {
      before, word := LastUnderscore(name[..n]);
      word := word + [name[n]];
      assert name == name[..n] + [name[n]];
    }
  }

  lemma {:induction false} CasedInPlace(name: string, style: NameStyle)
    requires AreWords(Segments(name)) && KeepsUnderscores(style)
    ensures var r := Assemble(Segments(name), style);
      |r| == |name| && forall i | 0 <= i < |name| :: IsCased(name, i, style, r[i])
    decreases |name|
  {
    hide IsWord, Styled, IsCased, IsCapital;
    if '_' !in name {
      SegmentsOfWord(name);
      CasedWord(name, style, []);
      assert [] + name == name;
    } else {
      var before, word := LastUnderscore(name);
      AssembleLast(before, word, style);
      CasedInPlace(before, style);
      CasedWord(word, style, before + "_");
      CasedAppend(before, word, style);
      assert name == before + "_" + word;
      hide Segments, Assemble;
    }
  }

  lemma AssembleLast(before: string, word: string, style: NameStyle)
    requires AreWords(Segments(before + ("_" + word))) && '_' !in word && KeepsUnderscores(style)
    ensures AreWords(Segments(before)) && IsWord(word)
    ensures Assemble(Segments(before + ("_" + word)), style) == Assemble(Segments(before), style) + ("_" + Styled(word, false, style))
  {
    hide IsWord, Styled;
    SegmentsAppend(before, word);
    var segments := Segments(before);
    var all := segments + [word];
    assert all[..|segments|] == segments && all[|segments|] == word;
    forall i | 0 <= i < |segments|
      ensures IsWord(segments[i])
    {
      assert all[i] == segments[i];
    }
    assert IsWord(all[|segments|]);
  }

  lemma CasedAppend(before: string, word: string, style: NameStyle)
    ensures var name := before + "_" + word;
      && (forall i, c | 0 <= i < |before| :: IsCased(name, i, style, c) == IsCased(before, i, style, c))
      && IsCased(name, |before|, style, '_')
  {
    var name := before + "_" + word;
    assert name[|before|] == '_';
    assert forall i | 0 <= i < |before| :: name[i] == before[i];
  }

  function WithoutUnderscores(s: string): string {
    if s == [] then [] else (if s[0] == '_' then [] else [s[0]]) + WithoutUnderscores(s[1..])
  }

  lemma {:induction false} WithoutUnderscoresAppend(s: string, t: string)
    ensures WithoutUnderscores(s + t) == WithoutUnderscores(s) + WithoutUnderscores(t)
    decreases |s|
  {
    if s == [] {
      assert s + t == t;
    } else {
      assert (s + t)[1..] == s[1..] + t;
      WithoutUnderscoresAppend(s[1..], t);
    }
  }

  lemma {:induction false} NoUnderscoreToDrop(t: string)
    requires '_' !in t
    ensures WithoutUnderscores(t) == t
    decreases |t|
  {
    if t != [] {
      NoUnderscoreToDrop(t[1..]);
      assert t == [t[0]] + t[1..];
    }
  }

  lemma OneUnderscoreToDrop(t: string)
    requires '_' !in t
    ensures WithoutUnderscores("_" + t) == t
  {
    NoUnderscoreToDrop(t);
    assert ("_" + t)[1..] == t;
  }

  lemma {:induction false} UnderscoresDropped(segments: seq<string>, style: NameStyle, joined: NameStyle)
    requires AreWords(segments)
    requires (style == CamelSnakeBack && joined == CamelBack) || (style == CamelSnakeCase && joined == CamelCase)
    ensures Assemble(segments, joined) == WithoutUnderscores(Assemble(segments, style))
    decreases |segments|
  {
    hide *;
    var n := |segments| - 1;
    AssembleWords(segments, style);
    AssembleWords(segments, joined);
    WordCharacters(segments[n], n == 0, style);
    SameWords(segments[n], n == 0, style, joined);
    var last := Styled(segments[n], n == 0, style);
    if n == 0 {
      NoUnderscoreToDrop(last);
    } else {
      UnderscoresDropped(segments[..n], style, joined);
      WithoutUnderscoresAppend(Assemble(segments[..n], style), "_" + last);
      OneUnderscoreToDrop(last);
      assert "" + last == last;
    }
  }

  lemma SameWords(segment: string, first: bool, style: NameStyle, joined: NameStyle)
    requires (style == CamelSnakeBack && joined == CamelBack) || (style == CamelSnakeCase && joined == CamelCase)
    ensures Styled(segment, first, style) == Styled(segment, first, joined)
    ensures KeepsUnderscores(style) && !KeepsUnderscores(joined)
  {
  }

  /**
    What each style does to the letters. The styles with underscores keep every character in its place,
    and make exactly the letters capitals that they should; the two others are those without the underscores.
   */
  lemma ConvertedLetters(name: string, style: NameStyle)
    requires IsName(name)
    ensures style != CamelBack && style != CamelCase ==>
      var r := Converted(name, style).value;
      |r| == |name| && forall i | 0 <= i < |name| :: IsCased(name, i, style, r[i])
    ensures Converted(name, CamelBack) == Some(WithoutUnderscores(Converted(name, CamelSnakeBack).value))
    ensures Converted(name, CamelCase) == Some(WithoutUnderscores(Converted(name, CamelSnakeCase).value))
  {
    if style != CamelBack && style != CamelCase { CasedInPlace(name, style); }
    UnderscoresDropped(Segments(name), CamelSnakeBack, CamelBack);
    UnderscoresDropped(Segments(name), CamelSnakeCase, CamelCase);
    hide IsCased, WithoutUnderscores, Assemble, Segments, IsWord;
  }

  // ---------- Converting twice ----------

  function StyledSegments(segments: seq<string>, style: NameStyle): (r: seq<string>)
    ensures |r| == |segments| && forall i | 0 <= i < |segments| :: r[i] == Styled(segments[i], i == 0, style)
  {
    seq(|segments|, i requires 0 <= i < |segments| => Styled(segments[i], i == 0, style))
  }

  lemma {:induction false} SegmentsOfWord(s: string)
    requires '_' !in s
    ensures Segments(s) == [s]
    decreases |s|
  {
    if s != [] {
      SegmentsOfWord(s[1..]);
      assert [s[0]] + s[1..] == s;
    }
  }

  lemma {:induction false} SegmentsAppend(s: string, word: string)
    requires '_' !in word
    ensures Segments(s + ("_" + word)) == Segments(s) + [word]
    decreases |s|
  {
    var whole := s + ("_" + word);
    if s == [] {
      SegmentsOfWord(word);
      assert whole[1..] == word;
    } else {
      assert whole[1..] == s[1..] + ("_" + word);
      SegmentsAppend(s[1..], word);
    }
  }

  /** A style that keeps the underscores keeps the segments. */
  lemma {:induction false} SegmentsOfAssembled(segments: seq<string>, style: NameStyle)
    requires AreWords(segments) && KeepsUnderscores(style)
    ensures Segments(Assemble(segments, style)) == StyledSegments(segments, style)
    decreases |segments|
  {
    hide Styled, Segments, IsWord;
    if |segments| == 1 {
      WordCharacters(segments[0], true, style);
      SegmentsOfWord(Styled(segments[0], true, style));
    } else {
      var n := |segments| - 1;
      SegmentsOfAssembled(segments[..n], style);
      WordCharacters(segments[n], false, style);
      SegmentsAppend(Assemble(segments[..n], style), Styled(segments[n], false, style));
    }
  }

  lemma StyledTwice(segment: string, first: bool, style1: NameStyle, style2: NameStyle)
    requires IsWord(segment)
    ensures Styled(Styled(segment, first, style1), first, style2) == Styled(segment, first, style2)
  {
    StyledWord(segment, first, style1);
  }

  lemma {:induction false} AssembledTwice(segments: seq<string>, style1: NameStyle, style2: NameStyle)
    requires AreWords(segments)
    ensures Assemble(StyledSegments(segments, style1), style2) == Assemble(segments, style2)
    decreases |segments|
  {
    hide Styled;
    if |segments| == 1 {
      StyledTwice(segments[0], true, style1, style2);
    } else {
      var n := |segments| - 1;
      AssembledTwice(segments[..n], style1, style2);
      StyledTwice(segments[n], false, style1, style2);
      assert StyledSegments(segments, style1)[..n] == StyledSegments(segments[..n], style1);
    }
  }

  lemma ConvertedIsName(name: string, style: NameStyle)
    requires IsName(name)
    ensures IsName(Assemble(Segments(name), style))
  {
    var segments := Segments(name);
    var converted := Assemble(segments, style);
    ConvertedIsIdentifier(name, style);
    if KeepsUnderscores(style) {
      SegmentsOfAssembled(segments, style);
      forall i | 0 <= i < |segments|
        ensures IsWord(StyledSegments(segments, style)[i])
      {
        StyledWord(segments[i], i == 0, style);
      }
    } else {
      AssembledCharacters(segments, style);
      SegmentsOfWord(converted);
    }
  }

  /**
    Converting first to a style that keeps the underscores and then to any style is converting to
    that style at once.
   */
  lemma ConvertingTwiceIsConvertingOnce(name: string, style1: NameStyle, style2: NameStyle)
    requires IsName(name) && KeepsUnderscores(style1)
    ensures Converted(Converted(name, style1).value, style2) == Converted(name, style2)
  {
    ConvertedIsName(name, style1);
    SegmentsOfAssembled(Segments(name), style1);
    AssembledTwice(Segments(name), style1, style2);
  }

  /** The other styles lose the words: afterwards the underscores are right exactly when there was one word. */
  lemma WordsSurviveIff(name: string, style1: NameStyle, style2: NameStyle)
    requires IsName(name) && KeepsUnderscores(style2)
    ensures Converted(name, style1).Some? && Converted(Converted(name, style1).value, style2).Some?
    ensures Converted(Converted(name, style1).value, style2) == Converted(name, style2)
       <==> KeepsUnderscores(style1) || |Segments(name)| == 1
  {
    var segments := Segments(name);
    ConvertedIsName(name, style1);
    if KeepsUnderscores(style1) {
      ConvertingTwiceIsConvertingOnce(name, style1, style2);
    } else {
      var converted := Assemble(segments, style1);
      AssembledCharacters(segments, style1);
      SegmentsOfWord(converted);
      if |segments| == 1 {
        StyledTwice(segments[0], true, style1, style2);
      } else {
        AssembledCharacters([converted], style2);
        AssembledCharacters(segments, style2);
      }
    }
  }
}
