/** The M extension: the mixed-sign 64-bit expressions compute the halves of the exact product,
    and quotient and remainder belong together, for all operands. */
module Arithmetic {
  import opened Words
  import opened Isa
  import opened Machine

  const TWO32 := 0x1_0000_0000
  const TWO64 := 0x1_0000_0000_0000_0000

  // ---- products ----

  lemma ProductBounds(x: int, y: int, m: int, n: int)
    requires -m <= x <= m && -n <= y <= n
    ensures -(m * n) <= x * y <= m * n
  {
    if x >= 0 {
      NonNegativeProduct(m - x, n);
      NonNegativeProduct(x, n - y);
      NonNegativeProduct(x, n + y);
    } else {
      NonNegativeProduct(m + x, n);
      NonNegativeProduct(-x, n - y);
      NonNegativeProduct(-x, n + y);
    }
  }

  /** A word and its signed reading are the same modulo 2^32, and so are products of them. */
  lemma SignedProduct(a: Word, y: int)
    ensures Wrap(Signed(a) * y) == Wrap(a * y)
  {
    if a >= 0x8000_0000 {
      assert Signed(a) * y == a * y + (-y) * TWO32;
      WrapShift(a * y, -y);
    }
  }

  lemma Halves(p: int)
    ensures p == p / TWO32 * TWO32 + Wrap(p)
  {
  }

  lemma LowHalf(a: Word, b: Word)
    ensures Multiplied(MUL, a, b) == Wrap(a * b)
    ensures Wrap(Signed(a) * Signed(b)) == Wrap(a * b) && Wrap(Signed(a) * b) == Wrap(a * b)
  {
    hide Wrap, Signed;
    Wrap64Wraps(a * b);
    SignedProduct(a, b);
    SignedProduct(a, Signed(b));
    SignedProduct(b, a);
    assert Signed(b) * a == a * Signed(b) && b * a == a * b;
  }

  lemma Wrap64Wraps(x: int)
    ensures Wrap(Wrap64(x)) == Wrap(x)
  {
    hide Wrap;
    var q := x / TWO64;
    assert x == Wrap64(x) + (q * TWO32) * TWO32;
    WrapShift(Wrap64(x), q * TWO32);
  }

  /** MULHU and MUL are the two halves of the unsigned product, which does not overflow 64 bits. */
  lemma UnsignedProduct(a: Word, b: Word)
    ensures Wrap64(a * b) == a * b
    ensures Multiplied(MULHU, a, b) * TWO32 + Multiplied(MUL, a, b) == a * b
  {
    hide Signed;
    ProductBounds(a, b, TWO32 - 1, TWO32 - 1);
    NonNegativeProduct(a, b);
    LowHalf(a, b);
    Halves(a * b);
  }

  /** MULH and MUL are the two halves of the signed product, which does not overflow 64 bits. */
  lemma SignedSignedProduct(a: Word, b: Word)
    ensures -0x8000_0000_0000_0000 <= Signed(a) * Signed(b) < 0x8000_0000_0000_0000
    ensures Signed(Multiplied(MULH, a, b)) * TWO32 + Multiplied(MUL, a, b) == Signed(a) * Signed(b)
  {
    hide Wrap;
    ProductBounds(Signed(a), Signed(b), 0x8000_0000, 0x8000_0000);
    LowHalf(a, b);
    Halves(Signed(a) * Signed(b));
    SignedWrap(Signed(a) * Signed(b) / TWO32);
  }

  /** MULHSU multiplies a 64-bit two's complement number by an unsigned one modulo 2^64, and yet
      MULHSU and MUL are the two halves of the exact mixed product. */
  lemma SignedUnsignedProduct(a: Word, b: Word)
    ensures Signed(Multiplied(MULHSU, a, b)) * TWO32 + Multiplied(MUL, a, b) == Signed(a) * b
  {
    hide Wrap, Wrap64;
    ProductBounds(Signed(a), b, 0x8000_0000, TWO32 - 1);
    var p := Signed(a) * b;
    MixedWraps(Signed(a), b);
    LowHalf(a, b);
    Halves(p);
    HighOfWrapped(p);
    SignedWrap(p / TWO32);
  }

  lemma MixedWraps(x: int, b: Word)
    ensures Wrap64(Wrap64(x) * b) == Wrap64(x * b)
  {
    var q := x / TWO64;
    assert Wrap64(x) * b == x * b + (-q * b) * TWO64;
    var y, k := x * b, -q * b;
    ModUnique(y + k * TWO64, TWO64, y / TWO64 + k, y % TWO64);
  }

  lemma HighOfWrapped(p: int)
    ensures Wrap(Wrap64(p) / TWO32) == Wrap(p / TWO32)
  {
    var q := p / TWO64;
    var r := p - q * TWO64;
    assert r == Wrap64(p);
    assert p == r + (q * TWO32) * TWO32;
    ModUnique(p, TWO32, r / TWO32 + q * TWO32, r % TWO32);
    WrapShift(r / TWO32, q);
  }

  // ---- quotients ----

  /** DIVU and REMU: b times the quotient plus the remainder is a, modulo 2^32 when b is zero. */
  lemma UnsignedDivision(a: Word, b: Word)
    ensures Wrap(Divided(DIVU, a, b) * b + Divided(REMU, a, b)) == a
    ensures b != 0 ==> Divided(DIVU, a, b) * b + Divided(REMU, a, b) == a && Divided(REMU, a, b) < b
  {
    if b != 0 {
      QuotientBound(a, b);
      assert a == a / b * b + a % b;
    }
  }

  predicate SameSign(x: int, y: int) { (x > 0 ==> y >= 0) && (x < 0 ==> y <= 0) && (x == 0 ==> y == 0) }

  function Abs(x: int): nat { if x < 0 then -x else x }

  lemma EuclideanDivision(m: int, n: int)
    requires m >= 0 && n > 0
    ensures m == m / n * n + m % n && 0 <= m % n < n && 0 <= m / n <= m
  {
    QuotientBound(m, n);
  }

  lemma QuotientBound(m: int, n: int)
    requires m >= 0 && n > 0
    ensures 0 <= m / n <= m
  {
    var q := m / n;
    assert m == q * n + m % n;
    if q > m {
      NonNegativeProduct(q, n - 1);
    }
  }

  lemma Signs(q: int, n: int)
    ensures (-q) * n == -(q * n) && q * (-n) == -(q * n) && (-q) * (-n) == q * n
  {
  }

  lemma TruncatedDivision(x: int, y: int)
    requires y != 0
    ensures x == TruncDiv(x, y) * y + TruncRem(x, y)
    ensures Abs(TruncRem(x, y)) < Abs(y) && SameSign(x, TruncRem(x, y))
    ensures Abs(TruncDiv(x, y)) <= Abs(x)
  {
    var m: int, n: int := Abs(x), Abs(y);
    EuclideanDivision(m, n);
    Signs(m / n, n);
    TruncatedRemainder(x, y);
  }

  /** The remainder in terms of magnitudes. */
  lemma TruncatedRemainder(x: int, y: int)
    requires y != 0
    ensures var m: int, n: int := Abs(x), Abs(y); TruncRem(x, y) == if x < 0 then -(m % n) else m % n
  {
    var m: int, n: int := Abs(x), Abs(y);
    var q := m / n;
    EuclideanDivision(m, n);
    Signs(q, n);
    if (x < 0) == (y < 0) {
      assert TruncDiv(x, y) == q;
      assert y * q == if y < 0 then -(q * n) else q * n;
    } else {
      assert TruncDiv(x, y) == -q;
      assert y * (-q) == if y < 0 then q * n else -(q * n);
    }
  }

  lemma OnlyOverflow(a: Word, b: Word)
    requires b != 0 && !Overflows(a, b)
    ensures -0x8000_0000 <= TruncDiv(Signed(a), Signed(b)) < 0x8000_0000
  {
    hide TruncRem;
    TruncatedDivision(Signed(a), Signed(b));
    if Signed(a) == -0x8000_0000 && TruncDiv(Signed(a), Signed(b)) == 0x8000_0000 {
      ExactQuotient(Signed(b), TruncRem(Signed(a), Signed(b)));
    }
  }

  lemma ExactQuotient(y: int, r: int)
    requires -0x8000_0000 == 0x8000_0000 * y + r && Abs(r) < Abs(y) <= 0x8000_0000
    ensures y == -1
  {
  }

  /** DIV and REM, sections 7.1 and 7.2: away from zero divisors and overflow the exact truncated
      division, with the remainder taking the sign of the dividend. */
  lemma SignedDivisionExact(a: Word, b: Word)
    requires b != 0 && !Overflows(a, b)
    ensures var q, r := Signed(Divided(DIV, a, b)), Signed(Divided(REM, a, b));
      && Signed(a) == q * Signed(b) + r
      && Abs(r) < Abs(Signed(b)) && SameSign(Signed(a), r)
  {
    hide TruncDiv, TruncRem, Wrap;
    var x, y := Signed(a), Signed(b);
    TruncatedDivision(x, y);
    OnlyOverflow(a, b);
    SignedWrap(TruncDiv(x, y));
    SignedWrap(TruncRem(x, y));
  }

  /** For all operands, zero divisor and overflow included: quotient times divisor plus remainder
      is the dividend modulo 2^32. */
  lemma SignedDivision(a: Word, b: Word)
    ensures Wrap(Divided(DIV, a, b) * b + Divided(REM, a, b)) == a
  {
    hide TruncDiv, TruncRem;
    if b == 0 {
    } else if Overflows(a, b) {
      assert 0x8000_0000 * 0xFFFF_FFFF == 0x8000_0000 + 0x7FFF_FFFF * TWO32;
    } else {
      SignedDivisionExact(a, b);
      BackToWords(Divided(DIV, a, b), b, Divided(REM, a, b), a);
    }
  }

  lemma BackToWords(q: Word, b: Word, r: Word, a: Word)
    requires Signed(a) == Signed(q) * Signed(b) + Signed(r)
    ensures Wrap(q * b + r) == a
  {
    hide Wrap, Signed;
    SignedProduct(q, b);
    SignedProduct(b, Signed(q));
    assert Signed(b) * Signed(q) == Signed(q) * Signed(b) && b * Signed(q) == Signed(q) * b;
    WrapBoth(q * b, Signed(q) * Signed(b), r);
    SignedWraps(r);
    SignedWraps(a);
    WrapSum(Signed(q) * Signed(b), r);
    WrapSum(Signed(q) * Signed(b), Signed(r));
  }

  lemma SignedWraps(w: Word)
    ensures Wrap(Signed(w)) == w && Wrap(w) == w
  {
  }

  lemma WrapBoth(x: int, y: int, z: int)
    requires Wrap(x) == Wrap(y)
    ensures Wrap(x + z) == Wrap(y + z)
  {
    hide Wrap;
    WrapSum(z, x);
    WrapSum(z, y);
  }
}
