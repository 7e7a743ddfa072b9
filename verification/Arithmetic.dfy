/** Facts about floor division and remainders by a positive divisor. */
module Arithmetic {
  lemma MultipleIsLarge(a: int, len: nat)
    requires a >= 1 && len > 0
    ensures a * len >= len
  {
  }

  /** Quotient and remainder are unique. */
  lemma QuotientIs(x: int, q: int, r: int, len: nat)
    requires len > 0 && 0 <= r < len && x == q * len + r
    ensures x / len == q && x % len == r
  {
    var q', r' := x / len, x % len;
    assert x == q' * len + r';
    assert (q - q') * len == r' - r;
    assert (q' - q) * len == r - r';
    if q - q' >= 1 { MultipleIsLarge(q - q', len); }
    if q' - q >= 1 { MultipleIsLarge(q' - q, len); }
  }

  /** A floor grows by one exactly at the multiples of its divisor. */
  lemma ResidueStep(x: int, len: nat)
    requires len > 0
    ensures x / len == (x - 1) / len + (if x % len == 0 then 1 else 0)
  {
    var q, r := x / len, x % len;
    assert x == q * len + r;
    if r == 0 {
      assert (q - 1) * len == q * len - len;
      QuotientIs(x - 1, q - 1, len - 1, len);
    } else {
      QuotientIs(x - 1, q, r - 1, len);
    }
  }

  lemma ResidueMatch(y: int, len: nat, j: nat)
    requires len > 0 && j < len
    ensures (y - j) % len == 0 <==> y % len == j
  {
    var q, r := y / len, y % len;
    assert y == q * len + r;
    if r >= j {
      QuotientIs(y - j, q, r - j, len);
    } else {
      assert (q - 1) * len == q * len - len;
      QuotientIs(y - j, q - 1, r - j + len, len);
    }
  }

  lemma FloorOfSum(x: int, m: nat, len: nat)
    requires len > 0
    ensures (x + m) / len == x / len + m / len + (if x % len + m % len < len then 0 else 1)
  {
    var q, r := x / len, x % len;
    var a, b := m / len, m % len;
    assert x == q * len + r;
    assert m == a * len + b;
    assert (q + a) * len == q * len + a * len;
    if r + b < len {
      QuotientIs(x + m, q + a, r + b, len);
    } else {
      assert (q + a + 1) * len == (q + a) * len + len;
      QuotientIs(x + m, q + a + 1, r + b - len, len);
    }
  }

  lemma CeilingIs(m: nat, len: nat)
    requires len > 0
    ensures (m + len - 1) / len == m / len + (if m % len == 0 then 0 else 1)
  {
    var a, b := m / len, m % len;
    assert m == a * len + b;
    if b == 0 {
      QuotientIs(m + len - 1, a, len - 1, len);
    } else {
      assert (a + 1) * len == a * len + len;
      QuotientIs(m + len - 1, a + 1, b - 1, len);
    }
  }

  /** The multiples in a window of length `m` number floor(m / len) or ceil(m / len). */
  lemma FloorDifference(x: int, m: nat, len: nat)
    requires len > 0
    ensures m / len <= (x + m) / len - x / len <= (m + len - 1) / len
  {
    FloorOfSum(x, m, len);
    CeilingIs(m, len);
  }

  /** Wrapping at a multiple of the divisor does not change remainders. */
  lemma WrapKeepsResidue(x: nat, u: nat, len: nat)
    requires 0 < len && 0 < u && u % len == 0
    ensures x % u % len == x % len
  {
    var a, b, k := x / u, x % u, u / len;
    var q, r := b / len, b % len;
    assert x == a * u + b;
    assert u == k * len;
    assert b == q * len + r;
    assert a * (k * len) == (a * k) * len;
    assert (a * k + q) * len == (a * k) * len + q * len;
    QuotientIs(x, a * k + q, r, len);
  }

  lemma WrapStep(c: nat, i: nat, u: nat)
    requires c < u
    ensures ((c + 1) % u + i) % u == (c + 1 + i) % u
  {
    if c + 1 == u {
      QuotientIs(c + 1, 1, 0, u);
      var q, r := i / u, i % u;
      assert i == q * u + r;
      assert (q + 1) * u == q * u + u;
      QuotientIs(u + i, q + 1, r, u);
    } else {
      QuotientIs(c + 1, 0, c + 1, u);
    }
  }

  lemma SmallRemainder(x: nat, u: nat)
    requires x < u
    ensures x % u == x
  {
  }
}
