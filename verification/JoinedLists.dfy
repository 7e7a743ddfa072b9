/**
  What becomes of a configured list: sdk/src/Config.cpp validates it, sdk/src/Posemesh.cpp joins it with
  ';' and hands over a C string, and core/networking/src/c.rs splits that again.
 */
module JoinedLists {
  import opened Wrappers
  import opened Messages
  import opened Orders
  import opened ConfigLists
  import Utf8

  const SEMICOLON: Byte := 0x3B

  // ---------- Validation ----------

  ghost predicate Acceptable(list: seq<CppString>) {
    (forall i | 0 <= i < |list| :: SEMICOLON !in list[i]) && NoDuplicates(list)
  }

  class Config {
    var bootstraps: seq<CppString>
    var relays: seq<CppString>

    constructor ()
      ensures bootstraps == [] && relays == []
    {
      bootstraps, relays := [], [];
    }

    method SetBootstraps(list: seq<CppString>) returns (ok: bool)
      modifies this`bootstraps
      ensures ok <==>
        && (forall i | 0 <= i < |list| :: 0x3B !in list[i])
        && (forall i, j | 0 <= i < j < |list| :: list[i] != list[j])
      ensures bootstraps == if ok then list else old(bootstraps)
    {
      ok := Validate(list);
      if ok {
        bootstraps := list;
      }
    }

    method SetRelays(list: seq<CppString>) returns (ok: bool)
      modifies this`relays
      ensures ok <==>
        && (forall i | 0 <= i < |list| :: 0x3B !in list[i])
        && (forall i, j | 0 <= i < j < |list| :: list[i] != list[j])
      ensures relays == if ok then list else old(relays)
    {
      ok := Validate(list);
      if ok {
        relays := list;
      }
    }
  }

  /** The two loops that setBootstraps and setRelays share word for word. */
  method Validate(list: seq<CppString>) returns (ok: bool)
    ensures ok <==> Acceptable(list)
  {
    var count := |list|;
    if count <= 0 {
      return true;
    }
    var i := 0;
    while i < count
      invariant 0 <= i <= count && forall k | 0 <= k < i :: SEMICOLON !in list[k]
    {
      if SEMICOLON in list[i] {
        return false;
      }
      i := i + 1;
    }
    i := 0;
    while i < count - 1
      invariant 0 <= i <= count - 1
      invariant forall k, l | 0 <= k < i && k < l < count :: list[k] != list[l]
    {
      var j := i + 1;
      while j < count
        invariant i < j <= count
        invariant forall l | i < l < j :: list[i] != list[l]
      {
        if list[i] == list[j] {
          return false;
        }
        j := j + 1;
      }
      i := i + 1;
    }
    return true;
  }

  // ---------- Join and split ----------

  function Joined(list: seq<CppString>): CppString
    decreases |list|
  {
    if list == [] then []
    else if |list| == 1 then list[0]
    else Joined(list[..|list| - 1]) + ([SEMICOLON] + list[|list| - 1])
  }

  method Join(list: seq<CppString>) returns (stream: CppString)
    ensures stream == Joined(list)
  {
    stream := [];
    var first := true;
    var k := 0;
    while k < |list|
      invariant 0 <= k <= |list| && (first <==> k == 0)
      invariant stream == Joined(list[..k])
    {
      assert list[..k + 1][..k] == list[..k];
      if first {
        first := false;
      } else {
        stream := stream + [SEMICOLON];
      }
      assert k > 0 ==> Joined(list[..k]) + [SEMICOLON] + list[k] == Joined(list[..k]) + ([SEMICOLON] + list[k]);
      stream := stream + list[k];
      k := k + 1;
    }
    assert list[..k] == list;
  }

  /** str::split: the pieces between the separators, of which there is always at least one. */
  function Split(s: CppString): (r: seq<CppString>)
    ensures r != []
  {
    if s == [] then [[]]
    else
      var rest := Split(s[1..]);
      if s[0] == SEMICOLON then [[]] + rest else [[s[0]] + rest[0]] + rest[1..]
  }

  function DropEmpties(list: seq<CppString>): seq<CppString> {
    if list == [] then [] else (if list[0] == [] then [] else [list[0]]) + DropEmpties(list[1..])
  }

  predicate IsText(s: CppString) {
    Utf8.Decode(s).Some?
  }

  /**
    to_rust, with Rust's strings as the bytes they are: the C string up to its NUL must be UTF-8, is
    split on ';', and the empty pieces are dropped. None is the panic.
   */
  function ToRust(stream: CppString): Option<seq<CppString>> {
    var text := UntilNul(stream);
    if IsText(text) then Some(DropEmpties(Split(text))) else None
  }

  lemma {:induction false} SplitPiece(s: CppString)
    requires SEMICOLON !in s
    ensures Split(s) == [s]
    decreases |s|
  {
    if s != [] {
      SplitPiece(s[1..]);
      assert [s[0]] + s[1..] == s;
    }
  }

  lemma {:induction false} SplitAppend(s: CppString, piece: CppString)
    requires SEMICOLON !in piece
    ensures Split(s + ([SEMICOLON] + piece)) == Split(s) + [piece]
    decreases |s|
  {
    var whole := s + ([SEMICOLON] + piece);
    if s == [] {
      SplitPiece(piece);
      assert whole[1..] == piece;
    } else {
      assert whole[1..] == s[1..] + ([SEMICOLON] + piece);
      SplitAppend(s[1..], piece);
    }
  }

  ghost predicate NoSeparators(list: seq<CppString>) {
    forall i | 0 <= i < |list| :: SEMICOLON !in list[i]
  }

  lemma {:induction false} SplitJoined(list: seq<CppString>)
    requires list != [] && NoSeparators(list)
    ensures Split(Joined(list)) == list
    decreases |list|
  {
    if |list| == 1 {
      SplitPiece(list[0]);
    } else {
      var n := |list| - 1;
      SplitJoined(list[..n]);
      SplitAppend(Joined(list[..n]), list[n]);
    }
  }

  lemma {:induction false} NothingDropped(list: seq<CppString>)
    ensures |DropEmpties(list)| <= |list|
    ensures DropEmpties(list) == list <==> forall i | 0 <= i < |list| :: list[i] != []
    ensures forall s | s in DropEmpties(list) :: s in list
    decreases |list|
  {
    if list != [] {
      NothingDropped(list[1..]);
    }
  }

  lemma NoneIsEmptyIff(list: seq<CppString>)
    ensures (forall i | 0 <= i < |list| :: list[i] != []) <==> forall s | s in list :: s != []
  {
    if forall s | s in list :: s != [] {
      forall i | 0 <= i < |list|
        ensures list[i] != []
      {
        assert list[i] in list;
      }
    }
  }

  // ---------- The cut at a NUL ----------

  /** The strings up to the first that holds a NUL, and of that one what comes before the NUL. */
  function Cut(list: seq<CppString>): (r: seq<CppString>)
    decreases |list|
  {
    if list == [] then []
    else
      var n := |list| - 1;
      if CutsWithin(list[..n]) then Cut(list[..n]) else Cut(list[..n]) + [UntilNul(list[n])]
  }

  predicate CutsWithin(list: seq<CppString>) {
    exists i | 0 <= i < |list| :: NUL in list[i]
  }

  lemma {:induction false} UntilNulAppend(s: CppString, more: CppString)
    ensures UntilNul(s + more) == if NUL in s then UntilNul(s) else s + UntilNul(more)
    decreases |s|
  {
    hide *;
    if s == [] {
      assert s + more == more && s + UntilNul(more) == UntilNul(more);
    } else {
      var c, rest := s[0], s[1..];
      assert s == [c] + rest && s + more == [c] + (rest + more);
      UntilNulCons(c, rest);
      UntilNulCons(c, rest + more);
      UntilNulAppend(rest, more);
      assert [c] + rest + UntilNul(more) == [c] + (rest + UntilNul(more));
    }
  }

  lemma UntilNulCons(c: Byte, s: CppString)
    ensures UntilNul([c] + s) == if c == NUL then [] else [c] + UntilNul(s)
    ensures NUL in [c] + s <==> c == NUL || NUL in s
  {
    assert ([c] + s)[1..] == s;
  }

  lemma {:induction false} JoinedHoldsNul(list: seq<CppString>)
    ensures NUL in Joined(list) <==> CutsWithin(list)
    decreases |list|
  {
    if |list| == 1 {
      assert NUL in list[0] ==> CutsWithin(list);
    } else if |list| > 1 {
      var n := |list| - 1;
      JoinedHoldsNul(list[..n]);
      CutsWithinStep(list);
    }
  }

  lemma CutsWithinStep(list: seq<CppString>)
    requires list != []
    ensures var n := |list| - 1; CutsWithin(list) <==> CutsWithin(list[..n]) || NUL in list[n]
  {
  }

  lemma {:induction false} CutIsNotEmpty(list: seq<CppString>)
    requires list != []
    ensures Cut(list) != []
    decreases |list|
  {
    hide CutsWithin;
    if |list| > 1 {
      CutIsNotEmpty(list[..|list| - 1]);
    } else {
      NothingCuts();
      assert list[..0] == [];
    }
  }

  lemma NothingCuts()
    ensures !CutsWithin([])
  {
  }

  /** Cutting the joined string is joining the cut list. */
  lemma {:induction false} CutJoined(list: seq<CppString>)
    ensures UntilNul(Joined(list)) == Joined(Cut(list))
    decreases |list|
  {
    hide CutsWithin;
    if |list| == 1 {
      NothingCuts();
      assert list[..0] == [];
    } else if |list| > 1 {
      var n := |list| - 1;
      CutJoined(list[..n]);
      JoinedHoldsNul(list[..n]);
      CutIsNotEmpty(list[..n]);
      UntilNulAppend(Joined(list[..n]), [SEMICOLON] + list[n]);
      UntilNulAppend([SEMICOLON], list[n]);
      if !CutsWithin(list[..n]) {
        UntilNulIsAll(Joined(list[..n]));
        JoinedSnoc(Cut(list[..n]), UntilNul(list[n]));
      }
    }
  }

  lemma JoinedSnoc(list: seq<CppString>, s: CppString)
    requires list != []
    ensures Joined(list + [s]) == Joined(list) + ([SEMICOLON] + s)
  {
  }

  lemma {:induction false} CutPieces(list: seq<CppString>)
    requires NoSeparators(list)
    ensures NoSeparators(Cut(list)) && forall s | s in Cut(list) :: NulFree(s)
    ensures Cut(list) == list <==> !CutsWithin(list)
    ensures |Cut(list)| <= |list|
    decreases |list|
  {
    hide CutsWithin;
    if list == [] {
      NothingCuts();
    } else {
      var n := |list| - 1;
      CutPieces(list[..n]);
      CutsWithinStep(list);
      UntilNulIsAll(list[n]);
      NoNewBytes(list[n]);
      assert list == list[..n] + [list[n]];
    }
  }

  lemma {:induction false} NoNewBytes(s: CppString)
    ensures forall b | b in UntilNul(s) :: b in s
    decreases |s|
  {
    if s != [] { NoNewBytes(s[1..]); }
  }

  // ---------- Text ----------

  /** A separator ends whatever character is before it. */
  lemma {:induction false} TextAround(a: CppString, b: CppString)
    ensures IsText(a + ([SEMICOLON] + b)) <==> IsText(a) && IsText(b)
    decreases |a|
  {
    var whole := a + ([SEMICOLON] + b);
    if a == [] {
      assert whole[0] == SEMICOLON && whole[1..] == b;
      SemicolonIsOne(whole);
      DecodeStep(whole);
      NoText();
    } else {
      FirstCharacter(a, [SEMICOLON] + b);
      DecodeStep(a);
      DecodeStep(whole);
      if Utf8.DecodeChar(a).Some? {
        var w := Utf8.Width(a[0]);
        assert whole[w..] == a[w..] + ([SEMICOLON] + b);
        TextAround(a[w..], b);
      }
    }
  }

  lemma NoText()
    ensures IsText([])
  {
  }

  lemma SemicolonIsOne(s: CppString)
    requires s != [] && s[0] == SEMICOLON
    ensures Utf8.DecodeChar(s).Some? && Utf8.Width(s[0]) == 1
  {
  }

  lemma DecodeStep(s: CppString)
    requires s != []
    ensures Utf8.DecodeChar(s).Some? ==> 0 < Utf8.Width(s[0]) <= |s|
    ensures IsText(s) <==> Utf8.DecodeChar(s).Some? && IsText(s[Utf8.Width(s[0])..])
  {
  }

  lemma FirstCharacter(a: CppString, more: CppString)
    requires a != [] && more != [] && more[0] == SEMICOLON
    ensures Utf8.DecodeChar(a + more) == Utf8.DecodeChar(a)
  {
  }

  ghost predicate AllText(list: seq<CppString>) {
    forall s | s in list :: IsText(s)
  }

  lemma {:induction false} JoinedText(list: seq<CppString>)
    ensures IsText(Joined(list)) <==> AllText(list)
    decreases |list|
  {
    hide IsText;
    if list == [] {
      NoText();
    } else if |list| == 1 {
      assert list == [list[0]];
    } else {
      var n := |list| - 1;
      JoinedText(list[..n]);
      TextAround(Joined(list[..n]), list[n]);
      assert list == list[..n] + [list[n]];
    }
  }

  // ---------- From the setter to the network layer ----------

  /**
    What setBootstraps accepts reaches the network layer cut at its first NUL and without its empty
    string, or is a panic if what is left of it is not UTF-8. The list survives exactly when none of
    its strings is empty, holds a NUL or is not UTF-8.
   */
  lemma AcceptedListsSurvive(list: seq<CppString>)
    requires Acceptable(list)
    ensures ToRust(Joined(list)) == if AllText(Cut(list)) then Some(DropEmpties(Cut(list))) else None
    ensures ToRust(Joined(list)) == Some(list) <==> forall s | s in list :: s != [] && NulFree(s) && IsText(s)
  {
    hide *;
    CutJoined(list);
    AcceptableIs(list);
    CutPieces(list);
    JoinedText(Cut(list));
    ToRustOf(Cut(list));
    ToRustIs(Joined(list));
    SurvivesIff(list, Cut(list));
  }

  /** Two texts are joined with the byte 0x3B, and split there. */
  lemma TwoArrive(a: CppString, b: CppString)
    requires a != [] && b != [] && a != b && 0x3B !in a && 0x3B !in b && 0 !in a && 0 !in b && IsText(a) && IsText(b)
    ensures Joined([a, b]) == a + ([0x3B] + b)
    ensures ToRust(a + ([0x3B] + b)) == Some([a, b])
  {
    var list := [a, b];
    assert list[..1] == [a];
    assert Joined(list) == a + ([0x3B] + b);
    NulFreeIs(a);
    NulFreeIs(b);
    assert Acceptable(list);
    hide Joined, ToRust, Acceptable;
    AcceptedListsSurvive(list);
  }

  lemma NulFreeIs(s: CppString)
    ensures NulFree(s) <==> 0 !in s
  {
  }

  lemma AcceptableIs(list: seq<CppString>)
    requires Acceptable(list)
    ensures NoSeparators(list)
  {
  }

  lemma ToRustIs(stream: CppString)
    ensures ToRust(stream) == if IsText(UntilNul(stream)) then Some(DropEmpties(Split(UntilNul(stream)))) else None
  {
  }

  lemma ToRustOf(cut: seq<CppString>)
    requires NoSeparators(cut)
    ensures DropEmpties(Split(Joined(cut))) == DropEmpties(cut)
  {
    hide NoSeparators, Joined, Split, DropEmpties;
    if cut == [] {
      NothingJoined();
      NothingDropped(cut);
    } else {
      SplitJoined(cut);
    }
  }

  /** What is left of a list is the list when nothing was cut, dropped or refused. */
  lemma SurvivesIff(list: seq<CppString>, cut: seq<CppString>)
    requires cut == list <==> !CutsWithin(list)
    requires forall s | s in cut :: NulFree(s)
    ensures AllText(cut) && DropEmpties(cut) == list <==> forall s | s in list :: s != [] && NulFree(s) && IsText(s)
  {
    hide IsText, DropEmpties, NulFree;
    NothingDropped(cut);
    NothingDropped(list);
    NoneIsEmptyIff(list);
    CutsIff(list);
    if AllText(cut) && DropEmpties(cut) == list {
      assert forall s | s in list :: NulFree(s);
      assert cut == list;
    }
  }

  lemma NothingJoined()
    ensures DropEmpties(Split(Joined([]))) == []
  {
  }

  lemma CutsIff(list: seq<CppString>)
    ensures CutsWithin(list) <==> !forall s | s in list :: NulFree(s)
  {
    if s :| s in list && !NulFree(s) {
      var i :| 0 <= i < |list| && list[i] == s;
      assert NUL in list[i];
    }
    if i :| 0 <= i < |list| && NUL in list[i] {
      assert list[i] in list && !NulFree(list[i]);
    }
  }

  /** Two strings, the first with a NUL in it: accepted, and then half of the first and all of the second is lost. */
  lemma NulLosesTheRest()
    ensures var list: seq<CppString> := [[0x61, 0, 0x62], [0x63]];
      Acceptable(list) && Joined(list) == [0x61, 0, 0x62, 0x3B, 0x63] && ToRust(Joined(list)) == Some([[0x61]])
  {
    var list: seq<CppString> := [[0x61, NUL, 0x62], [0x63]];
    var a: CppString := [0x61];
    assert list[0] != list[1];
    assert list[..1] == [list[0]] && list[0][0] == 0x61 && list[0][1] == NUL;
    assert Joined(list) == [0x61, NUL, 0x62, SEMICOLON, 0x63];
    assert Joined(list)[1..][0] == NUL && UntilNul(Joined(list)[1..]) == [] && UntilNul(Joined(list)) == a;
    SplitPiece(a);
    DecodeStep(a);
    NoText();
    assert a[1..] == [] && IsText(a);
    assert [a][1..] == [];
    assert DropEmpties([a]) == [a] + DropEmpties([a][1..]);
  }
}
