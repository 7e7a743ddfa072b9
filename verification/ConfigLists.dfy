/**
  The lists of the C binding: sdk/src/C/Config.cpp packs one, pointers and strings, into a single
  buffer, and reads one from a table of pointers. Addresses are 64-bit numbers, stored with their
  lowest byte first.
 */
module ConfigLists {
  import opened Wrappers
  import opened Messages

  /** A C++ string, which may hold any byte. */
  type CppString = seq<Byte>

  const POINTER_SIZE: nat := 8

  const NUL: Byte := 0

  const U32_MODULUS: nat := 0x1_0000_0000

  const ADDRESSES: nat := 0x1_0000_0000_0000_0000

  // ---------- Stored pointers ----------

  /** The lowest `size` bytes of a number. */
  function Stored(n: nat, size: nat): (r: seq<Byte>)
    ensures |r| == size
  {
    if size == 0 then [] else [n % 0x100] + Stored(n / 0x100, size - 1)
  }

  function Loaded(bytes: seq<Byte>): nat {
    if bytes == [] then 0
    else
      var low: nat := bytes[0];
      low + 0x100 * Loaded(bytes[1..])
  }

  function Power(size: nat): nat {
    if size == 0 then 1 else 0x100 * Power(size - 1)
  }

  lemma {:induction false} LoadStored(n: nat, size: nat)
    requires n < Power(size)
    ensures Loaded(Stored(n, size)) == n
  {
    if size > 0 {
      LoadStored(n / 0x100, size - 1);
      assert Stored(n, size)[1..] == Stored(n / 0x100, size - 1);
    }
  }

  lemma AddressesFit()
    ensures Power(POINTER_SIZE) == ADDRESSES
  {
  }

  // ---------- The packed buffer ----------

  /** The strings one after the other, each with its NUL. */
  function Content(list: seq<CppString>): seq<Byte>
    decreases |list|
  {
    if list == [] then [] else Content(list[..|list| - 1]) + (list[|list| - 1] + [NUL])
  }

  /** Where the content begins: behind the pointers and the null that ends them, whose number has 32 bits. */
  function TableSize(n: nat): nat {
    (n + 1) % U32_MODULUS * POINTER_SIZE
  }

  function BufferSize(list: seq<CppString>): nat {
    TableSize(|list|) + |Content(list)|
  }

  /** The address of the i-th string in a buffer at `base`. */
  function Address(list: seq<CppString>, base: nat, i: nat): nat
    requires i <= |list|
  {
    base + TableSize(|list|) + |Content(list[..i])|
  }

  /** The first `k` pointers. */
  function Table(list: seq<CppString>, base: nat, k: nat): (r: seq<Byte>)
    requires k <= |list|
    ensures |r| == k * POINTER_SIZE
  {
    if k == 0 then [] else Table(list, base, k - 1) + Stored(Address(list, base, k - 1), POINTER_SIZE)
  }

  /** All pointers, the null, and the content. */
  function Packed(list: seq<CppString>, base: nat): (r: seq<Byte>) {
    Table(list, base, |list|) + Stored(0, POINTER_SIZE) + Content(list)
  }

  lemma ContentStep(list: seq<CppString>, k: nat)
    requires k < |list|
    ensures Content(list[..k + 1]) == Content(list[..k]) + (list[k] + [NUL])
  {
    assert list[..k + 1][..k] == list[..k];
  }

  lemma {:induction false} ContentPrefix(list: seq<CppString>, k: nat)
    requires k <= |list|
    ensures Content(list[..k]) <= Content(list)
    decreases |list|
  {
    if k == |list| {
      assert list[..k] == list;
    } else {
      ContentPrefix(list[..|list| - 1], k);
      assert list[..|list| - 1][..k] == list[..k];
    }
  }

  /**
    Pointers and content share the buffer. Every pointer, the null included, lies in front of the
    content exactly when their number fits 32 bits; with 2^32 - 1 strings the table has no room at all.
   */
  lemma TableIsApartIff(n: nat)
    requires n < U32_MODULUS
    ensures (forall i | 0 <= i <= n :: i * POINTER_SIZE + POINTER_SIZE <= TableSize(n)) <==> n + 1 < U32_MODULUS
    ensures n + 1 == U32_MODULUS ==> TableSize(n) == 0
  {
    if n + 1 < U32_MODULUS {
      assert TableSize(n) == (n + 1) * POINTER_SIZE;
    } else {
      assert !(0 * POINTER_SIZE + POINTER_SIZE <= TableSize(n));
    }
  }

  /**
    The overrun at 2^32 - 1 strings: the first string is copied to where its own pointer is, and the
    pointers reach past the end of the buffer unless the content alone is as long as all of them.
   */
  lemma OverrunAt(list: seq<CppString>, base: nat)
    requires |list| + 1 == U32_MODULUS
    ensures Address(list, base, 0) == base
    ensures |list| * POINTER_SIZE + POINTER_SIZE <= BufferSize(list) <==> |Content(list)| >= U32_MODULUS * POINTER_SIZE
  {
  }

  /** The segments are disjoint and fill the buffer: each begins where the one before it ends. */
  lemma SegmentsFillTheBuffer(list: seq<CppString>, base: nat, i: nat)
    requires i < |list|
    ensures Address(list, base, 0) == base + TableSize(|list|)
    ensures Address(list, base, i) + |list[i]| + 1 == Address(list, base, i + 1)
    ensures Address(list, base, |list|) == base + BufferSize(list)
  {
    ContentStep(list, i);
    assert list[..|list|] == list && list[..0] == [];
  }

  /** memcpy of a string with its NUL. */
  method CopyString(buffer: array<Byte>, at: nat, s: CppString)
    requires at + |s| + 1 <= buffer.Length
    modifies buffer
    ensures buffer[..at] == old(buffer[..at])
    ensures buffer[at..at + |s| + 1] == s + [NUL]
    ensures buffer[at + |s| + 1..] == old(buffer[at + |s| + 1..])
  {
    var k := 0;
    while k < |s|
      invariant 0 <= k <= |s|
      invariant buffer[..at] == old(buffer[..at]) && buffer[at..at + k] == s[..k]
      invariant buffer[at + k..] == old(buffer[at + k..])
    {
      buffer[at + k] := s[k];
      k := k + 1;
    }
    buffer[at + k] := NUL;
  }

  /** Storing a pointer. */
  method StorePointer(buffer: array<Byte>, at: nat, address: nat)
    requires at + POINTER_SIZE <= buffer.Length
    modifies buffer
    ensures buffer[..at] == old(buffer[..at])
    ensures buffer[at..at + POINTER_SIZE] == Stored(address, POINTER_SIZE)
    ensures buffer[at + POINTER_SIZE..] == old(buffer[at + POINTER_SIZE..])
  {
    hide Stored;
    var bytes := Stored(address, POINTER_SIZE);
    forall i | 0 <= i < POINTER_SIZE {
      buffer[at + i] := bytes[i];
    }
  }

  method ContentSize(list: seq<CppString>) returns (size: nat)
    ensures size == |Content(list)|
  {
    size := 0;
    var k := 0;
    while k < |list|
      invariant 0 <= k <= |list| && size == |Content(list[..k])|
    {
      ContentStep(list, k);
      size := size + |list[k]| + 1;
      k := k + 1;
    }
    assert list[..k] == list;
  }

  /** One turn of the loop: the table and the content grow, each at its end. */
  method StoreEntry(buffer: array<Byte>, prefixPtr: nat, prefixOffset: nat, contentPtr: nat, base: nat, s: CppString)
    requires prefixPtr + POINTER_SIZE <= prefixOffset <= contentPtr && contentPtr + |s| + 1 <= buffer.Length
    modifies buffer
    ensures buffer[..prefixPtr + POINTER_SIZE] == old(buffer[..prefixPtr]) + Stored(base + contentPtr, POINTER_SIZE)
    ensures buffer[prefixOffset..contentPtr + |s| + 1] == old(buffer[prefixOffset..contentPtr]) + (s + [NUL])
  {
    hide Stored;
    StorePointer(buffer, prefixPtr, base + contentPtr);
    Joined(buffer, 0, prefixPtr, prefixPtr + POINTER_SIZE);
    assert buffer[prefixOffset..contentPtr] == old(buffer[prefixOffset..contentPtr]);
    CopyString(buffer, contentPtr, s);
    Joined(buffer, prefixOffset, contentPtr, contentPtr + |s| + 1);
  }

  /** The loop that stores a pointer and copies a string into one buffer, through two advancing pointers. */
  method FillBuffer(list: seq<CppString>, base: nat, buffer: array<Byte>)
    requires |list| + 1 < U32_MODULUS && buffer.Length == BufferSize(list)
    modifies buffer
    ensures buffer[..] == Packed(list, base)
  {
    hide Content, Stored;
    var prefixOffset := (|list| + 1) * POINTER_SIZE;
    var prefixPtr, contentPtr := 0, prefixOffset;
    var k := 0;
    NoContent();
    while k < |list|
      invariant 0 <= k <= |list| && prefixPtr == k * POINTER_SIZE
      invariant contentPtr == prefixOffset + |Content(list[..k])| <= buffer.Length
      invariant buffer[..prefixPtr] == Table(list, base, k)
      invariant buffer[prefixOffset..contentPtr] == Content(list[..k])
    {
      ContentStep(list, k);
      ContentPrefix(list, k + 1);
      StoreEntry(buffer, prefixPtr, prefixOffset, contentPtr, base, list[k]);
      prefixPtr := prefixPtr + POINTER_SIZE;
      contentPtr := contentPtr + |list[k]| + 1;
      k := k + 1;
    }
    StorePointer(buffer, prefixPtr, 0);
    assert list[..k] == list;
    Joined(buffer, 0, prefixPtr, prefixOffset);
    Joined(buffer, 0, prefixOffset, buffer.Length);
    assert buffer[..] == buffer[0..buffer.Length];
  }

  lemma Joined(buffer: array<Byte>, a: nat, b: nat, c: nat)
    requires a <= b <= c <= buffer.Length
    ensures buffer[a..c] == buffer[a..b] + buffer[b..c]
  {
  }

  lemma NoContent()
    ensures Content([]) == []
  {
  }

  /** What the getters hand out. At 2^32 - 1 strings the buffer is overrun, and its content is anything. */
  datatype Got = Null | Overrun | Block(buffer: array<Byte>)

  /** psm_config_get_bootstraps and psm_config_get_relays; `base` is where the buffer gets allocated. */
  method GetList(list: seq<CppString>, base: nat) returns (r: Got)
    ensures r.Null? <==> |list| >= U32_MODULUS
    ensures r.Overrun? <==> |list| + 1 == U32_MODULUS
    ensures r.Block? ==> fresh(r.buffer) && r.buffer[..] == Packed(list, base)
  {
    hide Content, Packed;
    if |list| > U32_MODULUS - 1 {
      return Null;
    }
    var count := |list|;
    var prefixOffset := (count + 1) % U32_MODULUS * POINTER_SIZE;
    var contentSize := ContentSize(list);
    if prefixOffset == 0 {
      return Overrun;
    }
    var buffer := new Byte[prefixOffset + contentSize];
    FillBuffer(list, base, buffer);
    return Block(buffer);
  }

  // ---------- Reading a table of pointers ----------

  /** The characters up to the first NUL; None when there is none. */
  function CString(memory: seq<Byte>, at: nat): Option<CppString>
    decreases |memory| - at
  {
    if at >= |memory| then None
    else if memory[at] == NUL then Some([])
    else
      match CString(memory, at + 1)
      case None => None
      case Some(s) => Some([memory[at]] + s)
  }

  function UntilNul(s: CppString): CppString {
    if s == [] || s[0] == NUL then [] else [s[0]] + UntilNul(s[1..])
  }

  ghost predicate NulFree(s: CppString) {
    NUL !in s
  }

  lemma {:induction false} UntilNulIsAll(s: CppString)
    ensures UntilNul(s) == s <==> NulFree(s)
    ensures NulFree(UntilNul(s))
    decreases |s|
  {
    if s != [] {
      assert s == [s[0]] + s[1..];
      UntilNulIsAll(s[1..]);
    }
  }

  lemma {:induction false} CStringOf(before: seq<Byte>, s: CppString, after: seq<Byte>)
    ensures CString(before + (s + [NUL]) + after, |before|) == Some(UntilNul(s))
    decreases |s|
  {
    var memory := before + (s + [NUL]) + after;
    if s == [] {
      assert memory[|before|] == NUL;
    } else {
      assert memory[|before|] == s[0];
      assert memory == before + [s[0]] + (s[1..] + [NUL]) + after;
      if s[0] != NUL { CStringOf(before + [s[0]], s[1..], after); }
    }
  }

  /** The i-th pointer of a table at the beginning of the memory. */
  function PointerAt(memory: seq<Byte>, i: nat): nat
    requires i * POINTER_SIZE + POINTER_SIZE <= |memory|
  {
    Loaded(memory[i * POINTER_SIZE..i * POINTER_SIZE + POINTER_SIZE])
  }

  /** The number of whole pointers from the i-th on that are not null, up to the first that is. */
  function CountFrom(memory: seq<Byte>, i: nat): (n: nat)
    ensures (i + n) * POINTER_SIZE <= |memory| || n == 0
    decreases |memory| - i * POINTER_SIZE
  {
    if i * POINTER_SIZE + POINTER_SIZE > |memory| || PointerAt(memory, i) == 0 then 0 else 1 + CountFrom(memory, i + 1)
  }

  /** A null pointer ends the table within the memory. */
  ghost predicate EndsInNull(memory: seq<Byte>) {
    (CountFrom(memory, 0) + 1) * POINTER_SIZE <= |memory|
  }

  /** The count that is used: the given one, or what a 32-bit counter makes of the table's length. */
  function Count(memory: seq<Byte>, count: nat): nat {
    if count == 0 then CountFrom(memory, 0) % U32_MODULUS else count
  }

  /** What the caller of a setter sees to: a whole table, and behind every pointer that is not null a terminated string. */
  ghost predicate Readable(memory: seq<Byte>, base: nat, count: nat) {
    && (count == 0 ==> EndsInNull(memory))
    && Count(memory, count) * POINTER_SIZE <= |memory|
    && forall i | 0 <= i < Count(memory, count) :: Terminated(memory, base, i)
  }

  ghost predicate Terminated(memory: seq<Byte>, base: nat, i: nat) {
    && i * POINTER_SIZE + POINTER_SIZE <= |memory|
    && var p := PointerAt(memory, i);
       p == 0 || (p >= base && CString(memory, p - base).Some?)
  }

  /** The first `n` strings; None for a null pointer among them. */
  function ReadStrings(memory: seq<Byte>, base: nat, n: nat): Option<seq<CppString>>
    requires n * POINTER_SIZE <= |memory|
  {
    if n == 0 then Some([])
    else
      match ReadStrings(memory, base, n - 1)
      case None => None
      case Some(before) =>
        var p := PointerAt(memory, n - 1);
        if p == 0 || p < base then None
        else
          match CString(memory, p - base)
          case None => None
          case Some(s) => Some(before + [s])
  }

  /** The loop up to the null, with its 32-bit counter. */
  method CountPointers(memory: array<Byte>) returns (n: nat)
    requires EndsInNull(memory[..])
    ensures n == CountFrom(memory[..], 0) % U32_MODULUS
  {
    hide *;
    n := 0;
    ghost var total := CountFrom(memory[..], 0);
    var ptr := 0;
    NullIsWithin(memory[..], 0, total);
    WrappedIs(0);
    while PointerAt(memory[..], ptr) != 0
      invariant 0 <= ptr <= total && ptr + CountFrom(memory[..], ptr) == total
      invariant ptr * POINTER_SIZE + POINTER_SIZE <= memory.Length
      invariant n == Wrapped(ptr)
      decreases total - ptr
    {
      CountsOne(memory[..], ptr);
      n := Wrapped(n + 1);
      WrappedOnce(ptr);
      ptr := ptr + 1;
      NullIsWithin(memory[..], ptr, total);
    }
    CountsOne(memory[..], ptr);
    WrappedIs(total);
  }

  function Wrapped(n: nat): nat {
    n % U32_MODULUS
  }

  lemma WrappedIs(n: nat)
    ensures Wrapped(n) == n % U32_MODULUS && Wrapped(0) == 0
  {
  }

  lemma WrappedOnce(n: nat)
    ensures Wrapped(Wrapped(n) + 1) == Wrapped(n + 1) && Wrapped(0) == 0
  {
  }

  lemma CountsOne(memory: seq<Byte>, i: nat)
    requires i * POINTER_SIZE + POINTER_SIZE <= |memory|
    ensures CountFrom(memory, i) == if PointerAt(memory, i) == 0 then 0 else 1 + CountFrom(memory, i + 1)
  {
    hide PointerAt;
  }

  lemma NullIsWithin(memory: seq<Byte>, i: nat, total: nat)
    requires EndsInNull(memory) && total == CountFrom(memory, 0) && i <= total
    ensures i * POINTER_SIZE + POINTER_SIZE <= |memory|
  {
    hide CountFrom;
  }

  /**
    The reading half of psm_config_set_bootstraps and psm_config_set_relays, from a table and strings
    that lie in one block of memory at `base`.
   */
  method ReadList(memory: array<Byte>, base: nat, count: nat) returns (r: Option<seq<CppString>>)
    requires count < U32_MODULUS && Readable(memory[..], base, count)
    ensures r == ReadStrings(memory[..], base, Count(memory[..], count))
    ensures r.None? <==> exists i :: 0 <= i < Count(memory[..], count) && PointerAt(memory[..], i) == 0
  {
    hide Loaded, CString;
    var n := count;
    if n <= 0 {
      n := CountPointers(memory);
    }
    var list: seq<CppString> := [];
    var i := 0;
    while i < n
      invariant 0 <= i <= n == Count(memory[..], count) && ReadStrings(memory[..], base, i) == Some(list)
      invariant forall k | 0 <= k < i :: PointerAt(memory[..], k) != 0
    {
      assert Terminated(memory[..], base, i);
      var p := PointerAt(memory[..], i);
      if p == 0 {
        StopsReading(memory[..], base, i, n);
        return None;
      }
      list := list + [CString(memory[..], p - base).value];
      i := i + 1;
    }
    return Some(list);
  }

  lemma {:induction false} StopsReading(memory: seq<Byte>, base: nat, i: nat, n: nat)
    requires i < n && n * POINTER_SIZE <= |memory| && ReadStrings(memory, base, i + 1).None?
    ensures ReadStrings(memory, base, n).None?
    decreases n
  {
    if i + 1 < n { StopsReading(memory, base, i, n - 1); }
  }

  // ---------- Setting what was got ----------

  lemma {:induction false} TablePointer(list: seq<CppString>, base: nat, k: nat, i: nat)
    requires i < k <= |list|
    ensures Table(list, base, k)[i * POINTER_SIZE..i * POINTER_SIZE + POINTER_SIZE] == Stored(Address(list, base, i), POINTER_SIZE)
    decreases k
  {
    hide Stored, Address;
    if i < k - 1 {
      TablePointer(list, base, k - 1, i);
    }
  }

  /** A buffer somewhere in the address space, with a table that fits. */
  ghost predicate Placed(list: seq<CppString>, base: nat) {
    |list| + 1 < U32_MODULUS && 0 < base && base + BufferSize(list) <= ADDRESSES
  }

  lemma PackedSlot(list: seq<CppString>, base: nat, i: nat)
    requires i <= |list|
    ensures (|list| + 1) * POINTER_SIZE <= |Packed(list, base)|
    ensures Packed(list, base)[i * POINTER_SIZE..i * POINTER_SIZE + POINTER_SIZE]
         == Stored(if i < |list| then Address(list, base, i) else 0, POINTER_SIZE)
  {
    hide Stored, Content, Address;
    if i < |list| { TablePointer(list, base, |list|, i); }
  }

  lemma PackedPointer(list: seq<CppString>, base: nat, i: nat)
    requires Placed(list, base) && i <= |list|
    ensures (|list| + 1) * POINTER_SIZE <= |Packed(list, base)|
    ensures PointerAt(Packed(list, base), i) == if i < |list| then Address(list, base, i) else 0
    ensures i < |list| ==> base <= Address(list, base, i) != 0
  {
    hide Stored, Loaded, Content, Power, Packed, Table;
    AddressesFit();
    PackedSlot(list, base, i);
    if i < |list| {
      ContentPrefix(list, i);
      ContentStep(list, i);
      ContentPrefix(list, i + 1);
      LoadStored(Address(list, base, i), POINTER_SIZE);
    } else {
      LoadStored(0, POINTER_SIZE);
    }
  }

  lemma {:induction false} CountsAll(list: seq<CppString>, base: nat, i: nat)
    requires Placed(list, base) && i <= |list|
    ensures CountFrom(Packed(list, base), i) == |list| - i
    decreases |list| - i
  {
    hide Placed, Packed, PointerAt, Address;
    PackedPointer(list, base, i);
    if i < |list| { CountsAll(list, base, i + 1); }
  }

  function Truncated(list: seq<CppString>): (r: seq<CppString>)
    ensures |r| == |list| && forall i | 0 <= i < |list| :: r[i] == UntilNul(list[i])
  {
    seq(|list|, i requires 0 <= i < |list| => UntilNul(list[i]))
  }

  lemma PackedString(list: seq<CppString>, base: nat, i: nat)
    requires Placed(list, base) && i < |list|
    ensures base <= Address(list, base, i)
    ensures CString(Packed(list, base), Address(list, base, i) - base) == Some(UntilNul(list[i]))
  {
    hide Content, Stored;
    ContentStep(list, i);
    ContentPrefix(list, i + 1);
    ContentPrefix(list, i);
    var before := Table(list, base, |list|) + Stored(0, POINTER_SIZE) + Content(list[..i]);
    var after := Content(list)[|Content(list[..i + 1])|..];
    assert Content(list) == Content(list[..i]) + (list[i] + [NUL]) + after;
    assert Packed(list, base) == before + (list[i] + [NUL]) + after;
    CStringOf(before, list[i], after);
  }

  lemma {:induction false} ReadPacked(list: seq<CppString>, base: nat, n: nat)
    requires Placed(list, base) && n <= |list|
    ensures n * POINTER_SIZE <= |Packed(list, base)|
    ensures ReadStrings(Packed(list, base), base, n) == Some(Truncated(list[..n]))
    decreases n
  {
    hide Placed, Packed, PointerAt, Address, CString, UntilNul;
    PackedPointer(list, base, n);
    if n == 0 {
      assert Truncated(list[..0]) == [];
    } else {
      ReadPacked(list, base, n - 1);
      PackedPointer(list, base, n - 1);
      PackedString(list, base, n - 1);
      assert Truncated(list[..n]) == Truncated(list[..n - 1]) + [UntilNul(list[n - 1])];
    }
  }

  /**
    What a setter makes of what a getter gave, with or without the count. A null pointer is the empty
    list; None is the overrun, of which nothing can be said.
   */
  ghost function SetWhatWasGot(list: seq<CppString>, base: nat, counted: bool): Option<seq<CppString>>
    requires |list| + 1 < U32_MODULUS ==> Placed(list, base)
  {
    if |list| >= U32_MODULUS then Some([])
    else if |list| + 1 == U32_MODULUS then None
    else
      ReadPacked(list, base, |list|);
      CountsAll(list, base, 0);
      ReadStrings(Packed(list, base), base, Count(Packed(list, base), if counted then |list| else 0))
  }

  /** What the getters hand out can be given to the setters. */
  lemma PackedIsReadable(list: seq<CppString>, base: nat, counted: bool)
    requires Placed(list, base)
    ensures Readable(Packed(list, base), base, if counted then |list| else 0)
  {
    hide Packed, PointerAt, Address, CString, UntilNul, CountFrom, Loaded;
    CountsAll(list, base, 0);
    PackedPointer(list, base, |list|);
    forall i | 0 <= i < |list|
      ensures Terminated(Packed(list, base), base, i)
    {
      PackedPointer(list, base, i);
      PackedString(list, base, i);
    }
  }

  /**
    Setting what was got gives the list back, with or without the count and wherever the buffer is,
    exactly when its table fits and no string holds a NUL.
   */
  lemma PackedRoundTrip(list: seq<CppString>, base: nat, counted: bool)
    requires |list| + 1 < U32_MODULUS ==> Placed(list, base)
    ensures SetWhatWasGot(list, base, counted) == Some(list)
       <==> |list| + 1 < U32_MODULUS && forall i | 0 <= i < |list| :: NulFree(list[i])
  {
    hide Packed, UntilNul, NulFree, Placed, ReadStrings, CountFrom;
    if |list| + 1 < U32_MODULUS {
      CountsAll(list, base, 0);
      ReadPacked(list, base, |list|);
      assert list[..|list|] == list;
      forall i | 0 <= i < |list|
        ensures Truncated(list)[i] == list[i] <==> NulFree(list[i])
      {
        UntilNulIsAll(list[i]);
      }
      if Truncated(list) == list {
        assert forall i | 0 <= i < |list| :: Truncated(list)[i] == list[i];
      }
    }
  }
}
