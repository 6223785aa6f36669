/** 32-bit machine words as integers with explicit wrap-around, and the C++ bit
    operators as operations on unbounded two's complement integers.  `x >> k` is
    `x / Pow2(k)` (Dafny's division by a positive number rounds down, so this is
    the arithmetic shift on negative operands too) and `x << k` is `x * Pow2(k)`. */
module Words {

  type Word = x: int | 0 <= x < 0x1_0000_0000
  type Byte = x: int | 0 <= x < 256
  type Int32 = x: int | -0x8000_0000 <= x < 0x8000_0000

  function Wrap(x: int): Word { x % 0x1_0000_0000 }

  /** `static_cast<int32_t>` of a `uint32_t`. */
  function Signed(w: Word): int {
    if w < 0x8000_0000 then w else w - 0x1_0000_0000
  }

  lemma SignedWrap(x: Int32)
    ensures Signed(Wrap(x)) == x
  {
  }

  function Pow2(n: nat): (p: int)
    ensures p > 0
  {
    if n == 0 then 1 else 2 * Pow2(n - 1)
  }

  datatype BitOp = And | Or | Xor

  function Bit(op: BitOp, a: int, b: int): (r: int)
    requires 0 <= a <= 1 && 0 <= b <= 1
    ensures 0 <= r <= 1
  {
    match op
    case And => if a == 1 && b == 1 then 1 else 0
    case Or => if a == 1 || b == 1 then 1 else 0
    case Xor => if a == b then 0 else 1
  }

  function Magnitude(a: int): nat { if a < 0 then -a - 1 else a }

  /** The bit operator on two's complement integers of unbounded width. */
  function Bitwise(op: BitOp, a: int, b: int): int
    decreases Magnitude(a) + Magnitude(b)
  {
    if -1 <= a <= 0 && -1 <= b <= 0 then
      -Bit(op, -a, -b)
    else
      2 * Bitwise(op, a / 2, b / 2) + Bit(op, a % 2, b % 2)
  }

  /** One binary digit at a time. */
  lemma BitwiseDigits(op: BitOp, a: int, i: int, b: int, j: int)
    requires 0 <= i <= 1 && 0 <= j <= 1
    ensures Bitwise(op, 2 * a + i, 2 * b + j) == 2 * Bitwise(op, a, b) + Bit(op, i, j)
  {
    var x, y := 2 * a + i, 2 * b + j;
    assert x / 2 == a && x % 2 == i && y / 2 == b && y % 2 == j;
  }

  lemma {:induction false} BitwiseCommutes(op: BitOp, a: int, b: int)
    ensures Bitwise(op, a, b) == Bitwise(op, b, a)
    decreases Magnitude(a) + Magnitude(b)
  {
    if -1 <= a <= 0 && -1 <= b <= 0 {
    } else {
      BitwiseCommutes(op, a / 2, b / 2);
    }
  }

  lemma NonNegativeProduct(x: int, y: int)
    requires x >= 0 && y >= 0
    ensures x * y >= 0
  {
  }

  lemma WrapLow5(x: int)
    ensures Wrap(x) % 32 == x % 32
  {
  }

  lemma SmallMultiple(d: int, m: int)
    requires -m < d * m < m
    ensures d == 0
  {
  }

  lemma ModUnique(x: int, m: int, q: int, r: int)
    requires 0 <= r < m
    requires x == q * m + r
    ensures x % m == r && x / m == q
  {
    var q', r' := x / m, x % m;
    assert x == q' * m + r';
    assert (q - q') * m == r' - r;
    SmallMultiple(q - q', m);
  }

  lemma WrapShift(x: int, k: int)
    ensures Wrap(x + k * 0x1_0000_0000) == Wrap(x)
  {
    ModUnique(x + k * 0x1_0000_0000, 0x1_0000_0000, x / 0x1_0000_0000 + k, x % 0x1_0000_0000);
  }

  lemma WrapSum(a: int, b: int)
    ensures Wrap(a + Wrap(b)) == Wrap(a + b)
  {
    WrapShift(a + Wrap(b), b / 0x1_0000_0000);
  }

  lemma WrapDifference(a: int, b: int)
    ensures Wrap(a - Wrap(b)) == Wrap(a - b)
  {
    WrapShift(a - Wrap(b), -(b / 0x1_0000_0000));
  }

  /** The low k bits of x, digit by digit. */
  function Low(x: int, k: nat): (r: int)
    ensures 0 <= r < Pow2(k)
    decreases k
  {
    if k == 0 then 0 else 2 * Low(x / 2, k - 1) + x % 2
  }

  lemma {:induction false} LowIsMod(x: int, k: nat) returns (q: int)
    ensures x == q * Pow2(k) + Low(x, k)
    ensures x % Pow2(k) == Low(x, k) && x / Pow2(k) == q
    decreases k
  {
    if k == 0 {
      q := x;
    } else {
      q := LowIsMod(x / 2, k - 1);
      assert x == 2 * (q * Pow2(k - 1)) + Low(x, k);
    }
    ModUnique(x, Pow2(k), q, Low(x, k));
  }

  lemma BitwiseBase(op: BitOp)
    ensures Bitwise(op, 0, 0) == 0
  {
  }

  /** The bit operators act on the low k bits of their operands alone. */
  lemma {:induction false} BitwiseLow(op: BitOp, a: int, b: int, k: nat)
    ensures Low(Bitwise(op, a, b), k) == Bitwise(op, Low(a, k), Low(b, k))
    decreases k
  {
    hide Bitwise, Bit;
    if k == 0 {
      BitwiseBase(op);
    } else {
      BitwiseDigits(op, a / 2, a % 2, b / 2, b % 2);
      BitwiseLow(op, a / 2, b / 2, k - 1);
      BitwiseDigits(op, Low(a / 2, k - 1), a % 2, Low(b / 2, k - 1), b % 2);
    }
  }

  lemma {:induction false} AndZero(a: int)
    ensures Bitwise(And, a, 0) == 0
    decreases Magnitude(a)
  {
    if -1 <= a <= 0 {
    } else {
      AndZero(a / 2);
    }
  }

  lemma {:induction false} OrZero(a: int)
    ensures Bitwise(Or, a, 0) == a
    decreases Magnitude(a)
  {
    if -1 <= a <= 0 {
    } else {
      OrZero(a / 2);
    }
  }

  /** `a & (2^k - 1)` keeps the low k bits. */
  lemma {:induction false} AndLow(a: int, k: nat)
    ensures Bitwise(And, a, Pow2(k) - 1) == Low(a, k)
    decreases k
  {
    if k == 0 {
      AndZero(a);
    } else {
      BitwiseDigits(And, a / 2, a % 2, Pow2(k - 1) - 1, 1);
      AndLow(a / 2, k - 1);
    }
  }

  lemma AndMask(a: int, k: nat)
    ensures Bitwise(And, a, Pow2(k) - 1) == a % Pow2(k)
  {
    AndLow(a, k);
    var _ := LowIsMod(a, k);
  }

  lemma AndEven(a: int, b: int)
    ensures Bitwise(And, a, 2 * b) == 2 * Bitwise(And, a / 2, b)
  {
    hide Bitwise;
    BitwiseDigits(And, a / 2, a % 2, b, 0);
  }

  /** `a & (2^n - 2^k)` clears the low k bits of an n-bit number. */
  lemma {:induction false} AndHighLow(a: int, k: nat, n: nat)
    requires k <= n && 0 <= a < Pow2(n)
    ensures Bitwise(And, a, Pow2(n) - Pow2(k)) == a - Low(a, k)
    decreases k
  {
    hide Bitwise;
    if k == 0 {
      AndMask(a, n);
      ModUnique(a, Pow2(n), 0, a);
    } else {
      var rest := Pow2(n - 1) - Pow2(k - 1);
      assert Pow2(n) - Pow2(k) == 2 * rest + 0;
      AndHighLow(a / 2, k - 1, n - 1);
      AndEven(a, rest);
    }
  }

  lemma AndHighMask(a: int, k: nat, n: nat)
    requires k <= n && 0 <= a < Pow2(n)
    ensures Bitwise(And, a, Pow2(n) - Pow2(k)) == a - a % Pow2(k)
  {
    AndHighLow(a, k, n);
    var _ := LowIsMod(a, k);
  }

  /** `hi << k | lo` is a sum when lo has only k bits. */
  lemma {:induction false} OrDisjoint(hi: int, lo: int, k: nat)
    requires 0 <= lo < Pow2(k)
    ensures Bitwise(Or, hi * Pow2(k), lo) == hi * Pow2(k) + lo
    decreases k
  {
    if k == 0 {
      OrZero(hi);
    } else {
      assert hi * Pow2(k) == 2 * (hi * Pow2(k - 1));
      BitwiseDigits(Or, hi * Pow2(k - 1), 0, lo / 2, lo % 2);
      OrDisjoint(hi, lo / 2, k - 1);
    }
  }

  lemma Powers()
    ensures Pow2(1) == 2 && Pow2(5) == 32 && Pow2(11) == 0x800 && Pow2(12) == 0x1000
    ensures Pow2(19) == 0x8_0000 && Pow2(20) == 0x10_0000 && Pow2(27) == 0x800_0000 && Pow2(32) == 0x1_0000_0000
  {
    assert Pow2(5) == 32;
    assert Pow2(10) == 0x400;
    assert Pow2(15) == 0x8000;
    assert Pow2(20) == 0x10_0000;
    assert Pow2(25) == 0x200_0000;
    assert Pow2(30) == 0x4000_0000;
  }

  /** Bit operators on wide C++ integers truncate to the 32-bit result. */
  lemma BitwiseWraps(op: BitOp, a: int, b: int)
    ensures Wrap(Bitwise(op, a, b)) == Bitwise(op, Wrap(a), Wrap(b))
  {
    Powers();
    BitwiseLow(op, a, b, 32);
    var _ := LowIsMod(a, 32);
    var _ := LowIsMod(b, 32);
    var _ := LowIsMod(Bitwise(op, a, b), 32);
  }

  lemma BitwiseInRange(op: BitOp, a: Word, b: Word)
    ensures 0 <= Bitwise(op, a, b) < 0x1_0000_0000
  {
    BitwiseWraps(op, a, b);
    ModUnique(a, 0x1_0000_0000, 0, a);
    ModUnique(b, 0x1_0000_0000, 0, b);
  }
}
