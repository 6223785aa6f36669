/** What the reference meaning of instructions rests on, in the instruction set manual's own terms:
    bits, bytes and registers by number, independent of how they are defined here. */
module Manual {
  import opened Words
  import opened Isa
  import opened Machine
  import opened Cpp
  import opened Translate
  import opened Generated

  // ---- bits ----

  /** Bit k of a two's complement number. */
  function Digit(x: int, k: nat): int { x / Pow2(k) % 2 }

  lemma DivideTwice(x: int, m: int, n: int)
    requires m > 0 && n > 0
    ensures x / m / n == x / (m * n)
  {
    var q := x / m;
    assert x == q / n * (m * n) + (q % n * m + x % m);
    assert 0 <= q % n * m <= (n - 1) * m;
    ModUnique(x, m * n, q / n, q % n * m + x % m);
  }

  lemma DigitStep(x: int, k: nat)
    requires k > 0
    ensures Digit(x, k) == Digit(x / 2, k - 1) && Digit(x, 0) == x % 2
  {
    DivideTwice(x, 2, Pow2(k - 1));
  }

  lemma BitwiseHalves(op: BitOp, a: int, b: int)
    ensures Bitwise(op, a, b) / 2 == Bitwise(op, a / 2, b / 2)
    ensures Bitwise(op, a, b) % 2 == Words.Bit(op, a % 2, b % 2)
  {
    hide Bitwise, Words.Bit;
    BitwiseDigits(op, a / 2, a % 2, b / 2, b % 2);
    var r, d := Bitwise(op, a / 2, b / 2), Words.Bit(op, a % 2, b % 2);
    assert 2 * (a / 2) + a % 2 == a && 2 * (b / 2) + b % 2 == b;
    ModUnique(2 * r + d, 2, r, d);
  }

  /** Each bit of the result is the operation on that bit of the operands: both, either, or one of two. */
  lemma {:induction false} BitwiseByDigits(a: int, b: int, k: nat)
    ensures Digit(Bitwise(And, a, b), k) == 1 <==> Digit(a, k) == 1 && Digit(b, k) == 1
    ensures Digit(Bitwise(Or, a, b), k) == 1 <==> Digit(a, k) == 1 || Digit(b, k) == 1
    ensures Digit(Bitwise(Xor, a, b), k) == 1 <==> Digit(a, k) != Digit(b, k)
    decreases k
  {
    hide Bitwise, Pow2, Digit;
    BitwiseHalves(And, a, b);
    BitwiseHalves(Or, a, b);
    BitwiseHalves(Xor, a, b);
    if k == 0 {
      LowDigits(a, b);
      LowDigits(Bitwise(And, a, b), Bitwise(Or, a, b));
      LowDigits(Bitwise(Xor, a, b), 0);
    } else {
      BitwiseByDigits(a / 2, b / 2, k - 1);
      DigitStep(a, k);
      DigitStep(b, k);
      DigitStep(Bitwise(And, a, b), k);
      DigitStep(Bitwise(Or, a, b), k);
      DigitStep(Bitwise(Xor, a, b), k);
    }
  }

  lemma LowDigits(x: int, y: int)
    ensures Digit(x, 0) == x % 2 && Digit(y, 0) == y % 2
  {
  }

  /** OR and AND together add up to the operands, and so do XOR and twice AND. */
  lemma {:induction false} BitwiseSums(a: int, b: int)
    ensures Bitwise(Or, a, b) + Bitwise(And, a, b) == a + b
    ensures Bitwise(Xor, a, b) + 2 * Bitwise(And, a, b) == a + b
    decreases Words.Magnitude(a) + Words.Magnitude(b)
  {
    if -1 <= a <= 0 && -1 <= b <= 0 {
    } else {
      BitwiseSums(a / 2, b / 2);
      HalvesSum(a, b);
    }
  }

  lemma HalvesSum(a: int, b: int)
    requires Bitwise(Or, a / 2, b / 2) + Bitwise(And, a / 2, b / 2) == a / 2 + b / 2
    requires Bitwise(Xor, a / 2, b / 2) + 2 * Bitwise(And, a / 2, b / 2) == a / 2 + b / 2
    ensures Bitwise(Or, a, b) + Bitwise(And, a, b) == a + b
    ensures Bitwise(Xor, a, b) + 2 * Bitwise(And, a, b) == a + b
  {
    hide Bitwise;
    BitwiseHalves(And, a, b);
    BitwiseHalves(Or, a, b);
    BitwiseHalves(Xor, a, b);
  }

  lemma LogicSums(a: Word, b: Word)
    ensures Alu(OR, a, b) + Alu(AND, a, b) == a + b
    ensures Alu(XOR, a, b) + 2 * Alu(AND, a, b) == a + b
  {
    hide Bitwise;
    BitwiseSums(a, b);
  }

  /** Section 2.4: the logical operations are bitwise. */
  lemma LogicByDigits(a: Word, b: Word, k: nat)
    ensures Digit(Alu(AND, a, b), k) == 1 <==> Digit(a, k) == 1 && Digit(b, k) == 1
    ensures Digit(Alu(OR, a, b), k) == 1 <==> Digit(a, k) == 1 || Digit(b, k) == 1
    ensures Digit(Alu(XOR, a, b), k) == 1 <==> Digit(a, k) != Digit(b, k)
  {
    hide Bitwise, Digit;
    BitwiseByDigits(a, b, k);
  }

  // ---- shifts ----

  lemma {:induction false} PowerSum(m: nat, n: nat)
    ensures Pow2(m) * Pow2(n) == Pow2(m + n)
    decreases m
  {
    if m == 0 {
    } else {
      PowerSum(m - 1, n);
    }
  }

  lemma PowerStep(k: nat)
    requires k > 0
    ensures Pow2(k) == 2 * Pow2(k - 1)
  {
  }

  /** Multiples of a higher power leave a digit alone. */
  lemma HigherPowersStay(x: int, e: int, n: nat, k: nat)
    requires k < n
    ensures Digit(x - e * Pow2(n), k) == Digit(x, k)
  {
    hide Pow2;
    PowerSum(n - 1 - k, k);
    PowerStep(n);
    var m, p := Pow2(n - 1 - k), Pow2(k);
    assert e * (2 * (m * p)) == (e * m) * (2 * p);
    DigitStays(x, p, 2, e * m);
  }

  /** Cutting a number off at 32 bits keeps the lower ones. */
  lemma WrapKeepsDigits(x: int, k: nat)
    requires k < 32
    ensures Digit(Wrap(x), k) == Digit(x, k)
  {
    hide Pow2, Digit;
    Powers();
    HigherPowersStay(x, x / 0x1_0000_0000, 32, k);
  }

  /** Beyond its n lower bits a number has copies of its sign. */
  lemma HighDigits(x: int, n: nat, k: nat)
    requires n <= k && -Pow2(n) <= x < Pow2(n)
    ensures Digit(x, k) == if x < 0 then 1 else 0
  {
    hide Pow2;
    PowerSum(n, k - n);
    MultipleAtLeast(Pow2(n), Pow2(k - n));
    ModUnique(x, Pow2(k), if x < 0 then -1 else 0, if x < 0 then x + Pow2(k) else x);
  }

  lemma MultipleAtLeast(x: int, n: int)
    requires x >= 0 && n >= 1
    ensures x * n >= x
  {
    NonNegativeProduct(x, n - 1);
  }

  lemma LeftZeros(a: int, n: nat, k: nat)
    requires k < n
    ensures Digit(a * Pow2(n), k) == 0
  {
    hide Pow2;
    var m, p := Pow2(n - k - 1), Pow2(k);
    PowerStep(n - k);
    PowerSum(n - k, k);
    Regroup(a, m, p);
    ModUnique(a * Pow2(n), p, 2 * (a * m), 0);
  }

  lemma Regroup(a: int, m: int, p: int)
    ensures a * ((2 * m) * p) == (2 * (a * m)) * p
  {
  }

  lemma LeftDigits(a: int, n: nat, k: nat)
    ensures Digit(a * Pow2(n), n + k) == Digit(a, k)
  {
    hide Pow2;
    PowerSum(n, k);
    DivideTwice(a * Pow2(n), Pow2(n), Pow2(k));
    ModUnique(a * Pow2(n), Pow2(n), a, 0);
  }

  lemma RightDigits(a: int, n: nat, k: nat)
    ensures Digit(a / Pow2(n), k) == Digit(a, n + k)
  {
    hide Pow2;
    PowerSum(n, k);
    DivideTwice(a, Pow2(n), Pow2(k));
  }

  lemma WordHasNoMore(a: Word, k: nat)
    requires k >= 32
    ensures Digit(a, k) == 0
  {
    Powers();
    HighDigits(a, 32, k);
  }

  lemma SignedDigits(a: Word, k: nat)
    ensures Digit(Signed(a), k) == if k < 32 then Digit(a, k) else Digit(a, 31)
  {
    hide Pow2, Digit;
    WrapShift(Signed(a), 0);
    if k < 32 {
      WrapKeepsDigits(Signed(a), k);
    } else {
      WrapKeepsDigits(Signed(a), 31);
      Powers();
      PowerStep(32);
      HighDigits(Signed(a), 31, k);
      HighDigits(Signed(a), 31, 31);
    }
    assert Wrap(Signed(a)) == a;
  }

  lemma LeftShift(a: Word, n: nat, k: nat)
    requires k < 32
    ensures Digit(Shifted(SLL, a, n), k) == if k < n then 0 else Digit(a, k - n)
  {
    hide Pow2, Digit, Wrap;
    WrapKeepsDigits(a * Pow2(n), k);
    if k < n {
      LeftZeros(a, n, k);
    } else {
      LeftDigits(a, n, k - n);
    }
  }

  lemma RightShift(a: Word, n: nat, k: nat)
    requires k < 32
    ensures Digit(Shifted(SRL, a, n), k) == if n + k < 32 then Digit(a, n + k) else 0
  {
    hide Pow2, Digit, Wrap;
    WrapKeepsDigits(a / Pow2(n), k);
    RightDigits(a, n, k);
    if n + k >= 32 {
      WordHasNoMore(a, n + k);
    }
  }

  lemma SignedShift(a: Word, n: nat, k: nat)
    requires k < 32
    ensures Digit(Shifted(SRA, a, n), k) == if n + k < 32 then Digit(a, n + k) else Digit(a, 31)
  {
    hide Pow2, Digit, Wrap, Signed;
    WrapKeepsDigits(Signed(a) / Pow2(n), k);
    RightDigits(Signed(a), n, k);
    SignedDigits(a, n + k);
  }

  lemma ShiftsAre(a: Word, b: Word)
    ensures Alu(SLL, a, b) == Shifted(SLL, a, b % 32) && Alu(SRL, a, b) == Shifted(SRL, a, b % 32)
    ensures Alu(SRA, a, b) == Shifted(SRA, a, b % 32)
  {
    hide Shifted;
  }

  /** Section 2.4: shifts move bits by the low five bits of the second operand; SLL and SRL bring in
      zeros, SRA copies of the sign bit. */
  lemma ShiftsMoveDigits(a: Word, b: Word, k: nat)
    requires k < 32
    ensures var n := b % 32;
      && Digit(Alu(SLL, a, b), k) == (if k < n then 0 else Digit(a, k - n))
      && Digit(Alu(SRL, a, b), k) == (if n + k < 32 then Digit(a, n + k) else 0)
      && Digit(Alu(SRA, a, b), k) == (if n + k < 32 then Digit(a, n + k) else Digit(a, 31))
  {
    hide Digit, Shifted, Alu;
    ShiftsAre(a, b);
    LeftShift(a, b % 32, k);
    RightShift(a, b % 32, k);
    SignedShift(a, b % 32, k);
  }

  // ---- immediates ----

  lemma SignExtendDigits(field: int, width: nat, k: nat)
    requires 0 < width && 0 <= field < Pow2(width)
    ensures Digit(SignExtend(field, width), k) == Digit(field, if k < width then k else width - 1)
  {
    hide Pow2, Digit;
    PowerStep(width);
    if k < width {
      HigherPowersStay(field, 1, width, k);
    } else {
      HighDigits(SignExtend(field, width), width - 1, k);
      TopDigit(field, width);
    }
  }

  lemma TopDigit(field: int, width: nat)
    requires 0 < width && 0 <= field < Pow2(width)
    ensures Digit(field, width - 1) == if field < Pow2(width - 1) then 0 else 1
  {
    hide Pow2;
    PowerStep(width);
    var p := Pow2(width - 1);
    ModUnique(field, p, if field < p then 0 else 1, if field < p then field else field - p);
  }

  /** Bits from y on in one number are those from x on in another when the slices are equal. */
  lemma SliceDigits(a: int, x: nat, b: int, y: nat, n: nat, k: nat)
    requires k < n && a / Pow2(x) % Pow2(n) == b / Pow2(y) % Pow2(n)
    ensures Digit(a, x + k) == Digit(b, y + k)
  {
    hide Pow2;
    CutDigits(a / Pow2(x), n, k);
    CutDigits(b / Pow2(y), n, k);
    RightDigits(a, x, k);
    RightDigits(b, y, k);
  }

  lemma CutDigits(a: int, n: nat, k: nat)
    requires k < n
    ensures Digit(a % Pow2(n), k) == Digit(a, k)
  {
    hide Pow2, Digit;
    HigherPowersStay(a, a / Pow2(n), n, k);
  }

  lemma SmallPowers()
    ensures Pow2(0) == 1 && Pow2(1) == 2 && Pow2(4) == 16 && Pow2(6) == 64 && Pow2(8) == 256 && Pow2(10) == 1024
    ensures Pow2(5) == 32 && Pow2(7) == 128 && Pow2(11) == 0x800 && Pow2(12) == 0x1000 && Pow2(13) == 0x2000
  {
  }

  lemma LargePowers()
    ensures Pow2(15) == 0x8000 && Pow2(19) == 0x8_0000 && Pow2(20) == 0x10_0000 && Pow2(21) == 0x20_0000 && Pow2(25) == 0x200_0000 && Pow2(31) == 0x8000_0000
  {
    Powers();
    assert Pow2(15) == 0x8000;
    PowerStep(21);
    PowerStep(27);
    PowerStep(26);
    PowerStep(32);
  }

  /** Section 2.2: where the register numbers are. */
  lemma RegisterFieldDigits(w: Word, k: nat)
    requires k < 5
    ensures Digit(Rd(w), k) == Digit(w, k + 7) && Digit(Rs1(w), k) == Digit(w, k + 15) && Digit(Rs2(w), k) == Digit(w, k + 20)
  {
    hide Pow2, Digit;
    SmallPowers();
    Powers();
    LargePowers();
    CutDigits(w / 128, 5, k);
    CutDigits(w / 0x8000, 5, k);
    CutDigits(w / 0x10_0000, 5, k);
    RightDigits(w, 7, k);
    RightDigits(w, 15, k);
    RightDigits(w, 20, k);
  }

  /** Section 2.3: where each bit of an immediate is in the word; the sign is always bit 31. */
  lemma IImmediateDigits(w: Word, k: nat)
    ensures Digit(IImm(w), k) == Digit(w, if k < 11 then k + 20 else 31)
  {
    hide Pow2, Digit, IImm, SignExtend;
    SmallPowers();
    LargePowers();
    IImmIsField(w);
    SignExtendDigits(w / 0x10_0000, 12, k);
    RightDigits(w, 20, if k < 12 then k else 11);
  }

  lemma UImmediateDigits(w: Word, k: nat)
    ensures Digit(UImm(w), k) == Digit(w, if k < 19 then k + 12 else 31)
  {
    hide Pow2, Digit, UImm, SignExtend;
    SmallPowers();
    LargePowers();
    UImmIsField(w);
    SignExtendDigits(w / 0x1000, 20, k);
    RightDigits(w, 12, if k < 20 then k else 19);
  }

  lemma SFieldDigits(w: Word, k: nat)
    requires k < 12
    ensures Digit(Funct7(w) * 32 + Rd(w), k) == Digit(w, if k < 5 then k + 7 else k + 20)
  {
    hide Pow2, Digit;
    SmallPowers();
    LargePowers();
    var n := Funct7(w) * 32 + Rd(w);
    assert n / 1 % 32 == w / 128 % 32 && n / 32 % 128 == w / 0x200_0000 % 128;
    if k < 5 {
      SliceDigits(n, 0, w, 7, 5, k);
    } else {
      SliceDigits(n, 5, w, 25, 7, k - 5);
    }
  }

  lemma SImmediateDigits(w: Word, k: nat)
    ensures Digit(SImm(w), k) == Digit(w, if k < 5 then k + 7 else if k < 11 then k + 20 else 31)
  {
    hide Pow2, Digit, SImm, SignExtend;
    SmallPowers();
    SImmIsField(w);
    SignExtendDigits(Funct7(w) * 32 + Rd(w), 12, k);
    SFieldDigits(w, if k < 12 then k else 11);
  }

  lemma BSlices(w: Word)
    ensures var n := BFields(w);
      && n / 1 % 2 == 0 && n / 2 % 16 == w / 256 % 16 && n / 32 % 64 == w / 0x200_0000 % 64
      && n / 0x800 % 2 == w / 128 % 2 && n / 0x1000 % 2 == w / 0x8000_0000 % 2
  {
    BDigits((w / 0x8000_0000) % 2, (w / 128) % 2, (w / 0x200_0000) % 64, (w / 256) % 16, BFields(w));
  }

  lemma BFieldDigits(w: Word, k: nat)
    requires k < 13
    ensures k == 0 ==> Digit(BFields(w), k) == 0
    ensures k != 0 ==> Digit(BFields(w), k) == Digit(w, if k < 5 then k + 7 else if k < 11 then k + 20 else if k == 11 then 7 else 31)
  {
    hide Pow2, BFields;
    SmallPowers();
    LargePowers();
    BSlices(w);
    hide Digit;
    var n := BFields(w);
    if k == 0 {
      LowDigits(n, n);
    } else if k < 5 {
      SliceDigits(n, 1, w, 8, 4, k - 1);
    } else if k < 11 {
      SliceDigits(n, 5, w, 25, 6, k - 5);
    } else if k == 11 {
      SliceDigits(n, 11, w, 7, 1, 0);
    } else {
      SliceDigits(n, 12, w, 31, 1, 0);
    }
  }

  lemma BImmediateDigits(w: Word, k: nat)
    ensures k == 0 ==> Digit(BImm(w), k) == 0
    ensures k != 0 ==> Digit(BImm(w), k) == Digit(w, if k < 5 then k + 7 else if k < 11 then k + 20 else if k == 11 then 7 else 31)
  {
    hide Pow2, Digit, BImm, BFields, SignExtend;
    SmallPowers();
    BImmIsField(w);
    SignExtendDigits(BFields(w), 13, k);
    BFieldDigits(w, if k < 13 then k else 12);
  }

  lemma JSlices(w: Word)
    ensures var n := JFields(w);
      && n / 2 % 1024 == w / 0x20_0000 % 1024 && n / 0x800 % 2 == w / 0x10_0000 % 2
      && n / 0x1000 % 256 == w / 0x1000 % 256 && n / 0x10_0000 % 2 == w / 0x8000_0000 % 2
  {
    JDigits((w / 0x8000_0000) % 2, (w / 0x1000) % 256, (w / 0x10_0000) % 2, (w / 0x20_0000) % 1024, JFields(w));
  }

  lemma JFieldDigits(w: Word, k: nat)
    requires k < 21
    ensures k == 0 ==> Digit(JFields(w), k) == 0
    ensures k != 0 ==> Digit(JFields(w), k) == Digit(w, if k < 11 then k + 20 else if k == 11 then 20 else if k < 20 then k else 31)
  {
    hide Pow2, JFields;
    SmallPowers();
    LargePowers();
    JSlices(w);
    hide Digit;
    var n := JFields(w);
    if k == 0 {
      LowDigits(n, n);
    } else if k < 11 {
      SliceDigits(n, 1, w, 21, 10, k - 1);
    } else if k == 11 {
      SliceDigits(n, 11, w, 20, 1, 0);
    } else if k < 20 {
      SliceDigits(n, 12, w, 12, 8, k - 12);
    } else {
      SliceDigits(n, 20, w, 31, 1, 0);
    }
  }

  lemma JImmediateDigits(w: Word, k: nat)
    ensures k == 0 ==> Digit(JImm(w), k) == 0
    ensures k != 0 ==> Digit(JImm(w), k) == Digit(w, if k < 11 then k + 20 else if k == 11 then 20 else if k < 20 then k else 31)
  {
    hide Pow2, Digit, JImm, JFields, SignExtend;
    LargePowers();
    JImmIsField(w);
    SignExtendDigits(JFields(w), 21, k);
    JFieldDigits(w, if k < 21 then k else 20);
  }

  // ---- corner cases ----

  /** Section 2.4: comparisons give 1 or 0. */
  lemma ComparisonValues(a: Word, b: Word)
    ensures Alu(SLTU, a, b) == (if a < b then 1 else 0)
    ensures Alu(SLT, a, b) == (if Digit(a, 31) == Digit(b, 31) then Alu(SLTU, a, b) else Digit(a, 31))
  {
    hide Digit;
    SignDigit(a);
    SignDigit(b);
  }

  lemma SignDigit(a: Word)
    ensures Digit(a, 31) == if a < 0x8000_0000 then 0 else 1
  {
    hide Pow2;
    Powers();
    PowerStep(32);
  }

  /** Section 7.2: division by zero and overflow. */
  lemma QuotientByZero(a: Word)
    ensures Alu(DIV, a, 0) == 0xFFFF_FFFF && Alu(DIVU, a, 0) == 0xFFFF_FFFF
  {
  }

  lemma RemainderByZero(a: Word)
    ensures Alu(REM, a, 0) == a && Alu(REMU, a, 0) == a
  {
  }

  lemma DivisionOverflow()
    ensures Alu(DIV, 0x8000_0000, 0xFFFF_FFFF) == 0x8000_0000 && Alu(REM, 0x8000_0000, 0xFFFF_FFFF) == 0
  {
  }

  /** Section 2.5: the branches are decided by the orders of SLT and SLTU, each opposite its partner. */
  lemma SignedBranches(a: Word, b: Word)
    ensures Taken(BLT, a, b) <==> Alu(SLT, a, b) == 1
    ensures Taken(BGE, a, b) <==> Alu(SLT, a, b) == 0
  {
    hide Signed;
  }

  lemma UnsignedBranches(a: Word, b: Word)
    ensures Taken(BLTU, a, b) <==> Alu(SLTU, a, b) == 1
    ensures Taken(BGEU, a, b) <==> Alu(SLTU, a, b) == 0
  {
  }

  lemma EqualityBranches(a: Word, b: Word)
    ensures Taken(BEQ, a, b) <==> Taken(BGEU, a, b) && Taken(BGEU, b, a)
    ensures Taken(BNE, a, b) <==> Taken(BLTU, a, b) || Taken(BLTU, b, a)
  {
  }

  // ---- control flow ----

  /** Loads, stores and calls leave pc where it is. */
  lemma AccessesStay(s: State, rd: Register, op: Op, a: Word, n: int, v: Word, host: Host)
    requires IsLoad(op) && n in {1, 2, 4}
    ensures LoadInto(s, rd, op, a).Next? ==> LoadInto(s, rd, op, a).state.pc == s.pc
    ensures WriteTo(s, a, n, v).Next? ==> WriteTo(s, a, n, v).state.pc == s.pc
    ensures StoreConditional(s, rd, a, v).Next? ==> StoreConditional(s, rd, a, v).state.pc == s.pc
    ensures SysCall(s, host).Next? ==> SysCall(s, host).state.pc == s.pc
  {
    hide Load, Loaded, Machine.Store, ClassOf, InBounds;
  }

  lemma StraightPc(i: Instruction, s: State, host: Host)
    requires Effect(i, s, host).Next? && !IsBranch(i.op) && i.op != JAL && i.op != JALR
    ensures Effect(i, s, host).state.pc == s.pc
  {
    hide Effect, ClassOf, Wrap, Alu, RegisterForm, Taken, LoadInto, WriteTo, StoreConditional, SysCall, AccessSize;
    OtherClass(i.op);
    var a, b := s.regs[i.rs1], s.regs[i.rs2];
    if ClassOf(i.op) == Other {
      EffectOfUpper(i, s, host);
      EffectOfSystem(i, s, host);
      AccessesStay(s, i.rd, LW, a, 4, b, host);
    } else {
      EffectByClass(i, s, host);
      AccessesStay(s, i.rd, if IsLoad(i.op) then i.op else LW, Wrap(a + i.imm), AccessSize(i.op), b, host);
    }
  }

  /** Where execution goes on: at pc plus the immediate for JAL and taken branches, at the sum of
      immediate and base for JALR, whose base is the link when rd is rs1, and behind the instruction else. */
  function NextPcOf(i: Instruction, s: State): Word {
    if i.op == JAL || (IsBranch(i.op) && Taken(i.op, s.regs[i.rs1], s.regs[i.rs2])) then Wrap(s.pc + i.imm)
    else if i.op == JALR then Wrap(i.imm + if i.rd == i.rs1 then Wrap(s.pc + 4) else s.regs[i.rs1])
    else Wrap(s.pc + 4)
  }

  lemma NextPc(i: Instruction, s: State, host: Host)
    requires Exec(i, s, host).Next?
    ensures Exec(i, s, host).state.pc == NextPcOf(i, s) && Exec(i, s, host).state.regs[0] == 0
  {
    hide Effect, ClassOf, Taken, Wrap;
    BackAndForth(s.pc + i.imm);
    OtherClass(i.op);
    if i.op == JAL {
      EffectOfJal(i, s, host);
    } else if i.op == JALR {
      EffectOfJalr(i, s, host);
      BackAndForth(i.imm + if i.rd == i.rs1 then Wrap(s.pc + 4) else s.regs[i.rs1]);
    } else if IsBranch(i.op) {
      BranchEffect(i, s, host);
    } else {
      StraightPc(i, s, host);
    }
  }

  lemma BranchEffect(i: Instruction, s: State, host: Host)
    requires IsBranch(i.op)
    ensures Effect(i, s, host) == Next(if Taken(i.op, s.regs[i.rs1], s.regs[i.rs2]) then s.(pc := Wrap(s.pc + i.imm - 4)) else s)
  {
    hide Effect, ClassOf, Taken, Wrap, Alu, RegisterForm, LoadInto, WriteTo, AccessSize;
    EffectByClass(i, s, host);
  }

  lemma BackAndForth(x: int)
    ensures Wrap(Wrap(x - 4) + 4) == Wrap(x)
  {
    WrapSum(4, x - 4);
  }

  /** JAL and JALR leave the address behind them in rd. */
  lemma Links(i: Instruction, s: State, host: Host)
    requires i.op in {JAL, JALR} && i.rd != 0
    ensures Exec(i, s, host).Next? && Exec(i, s, host).state.regs[i.rd] == Wrap(s.pc + 4)
  {
    hide Effect, Wrap;
    if i.op == JAL {
      EffectOfJal(i, s, host);
    } else {
      EffectOfJalr(i, s, host);
    }
  }

  // ---- bytes ----

  /** What is stored is loaded back, cut to the size. */
  lemma StoredIsLoaded(m: Mem, a: Word, v: Word)
    ensures InBounds(a, 1) ==> Load(Store(m, a, 1, v), a, 1) == v % 0x100
    ensures InBounds(a, 2) ==> Load(Store(m, a, 2, v), a, 2) == v % 0x1_0000
    ensures InBounds(a, 4) ==> Load(Store(m, a, 4, v), a, 4) == v
  {
    hide Load, Machine.Store;
    if InBounds(a, 1) {
      ByteRoundTrip(m, a, v);
    }
    if InBounds(a, 2) {
      HalfRoundTrip(m, a, v);
    }
    if InBounds(a, 4) {
      WordRoundTrip(m, a, v);
    }
  }

  lemma ByteRoundTrip(m: Mem, a: Word, v: Word)
    requires InBounds(a, 1)
    ensures Load(Store(m, a, 1, v), a, 1) == v % 0x100
  {
  }

  lemma TwoBytes(v: Word)
    ensures v % 0x100 + 0x100 * (v / 0x100 % 0x100) == v % 0x1_0000
  {
    LowDigit(v, 0x100, 0x100);
  }

  lemma HalfRoundTrip(m: Mem, a: Word, v: Word)
    requires InBounds(a, 2)
    ensures Load(Store(m, a, 2, v), a, 2) == v % 0x1_0000
  {
    TwoBytes(v);
    var s := Store(m, a, 2, v);
    assert s[a] == v % 0x100 && s[a + 1] == v / 0x100 % 0x100;
  }

  /** Little endian: the byte at the lower address is the lower one. */
  lemma LoadsAreLittleEndian(m: Mem, a: Word)
    ensures InBounds(a, 1) ==> Load(m, a, 1) == m[a]
    ensures InBounds(a, 2) ==> Load(m, a, 2) == Load(m, a, 1) + 0x100 * Load(m, a + 1, 1)
    ensures InBounds(a, 4) ==> Load(m, a, 4) == Load(m, a, 2) + 0x1_0000 * Load(m, a + 2, 2)
  {
  }

  /** A store writes its own bytes and no others. */
  lemma StoresNothingElse(m: Mem, a: Word, n: int, v: Word, b: int)
    requires n in {1, 2, 4} && InBounds(a, n) && 0 <= b < MEMORY_SIZE && !(a <= b < a + n)
    ensures Store(m, a, n, v)[b] == m[b]
  {
  }

  /** Section 2.6: LB and LH keep the bits they read and give a number of that many signed bits. */
  lemma BytesSignExtend(v: Word)
    requires v < 0x100
    ensures Loaded(LB, v) % 0x100 == v && -0x80 <= Signed(Loaded(LB, v)) < 0x80 && Loaded(LBU, v) == v
  {
  }

  lemma HalvesSignExtend(v: Word)
    requires v < 0x1_0000
    ensures Loaded(LH, v) % 0x1_0000 == v && -0x8000 <= Signed(Loaded(LH, v)) < 0x8000 && Loaded(LHU, v) == v
  {
  }

  /** Section 8.2 without reservations: LR.W is a LW without offset, SC.W a SW that reports success. */
  lemma AtomicsAreAccesses(i: Instruction, plain: Instruction, s: State, host: Host)
    requires plain.imm == 0 && plain.rs1 == i.rs1 && plain.rs2 == i.rs2 && plain.rd == i.rd
    ensures i.op == LR_W && plain.op == LW ==> Effect(i, s, host) == Effect(plain, s, host)
    ensures i.op == SC_W && plain.op == SW && Effect(plain, s, host).Next? ==>
      Effect(i, s, host) == Next(WithReg(Effect(plain, s, host).state, i.rd, 0))
    ensures i.op == SC_W && plain.op == SW && Effect(plain, s, host).Fault? ==> Effect(i, s, host).Fault?
  {
    hide Effect, Load, Loaded, Machine.Store, ClassOf, WithReg;
    WordAccesses();
    EffectByClass(plain, s, host);
    EffectOfSystem(i, s, host);
  }

  lemma WordAccesses()
    ensures ClassOf(LW) == Loading && ClassOf(SW) == Storing && AccessSize(SW) == 4
  {
  }

  /** Section 2.4: LUI and ADDI build a constant from its upper and lower part, AUIPC and ADDI an address. */
  lemma UpperAndLower(upper: Instruction, lower: Instruction, s: State, host: Host)
    requires upper.op in {LUI, AUIPC} && lower.op == ADDI && upper.rd != 0 && lower.rd == lower.rs1 == upper.rd
    ensures Exec(upper, s, host).Next? && Exec(lower, Exec(upper, s, host).state, host).Next?
    ensures Exec(lower, Exec(upper, s, host).state, host).state.regs[upper.rd] ==
      Wrap((if upper.op == AUIPC then s.pc else 0) + upper.imm * 0x1000 + lower.imm)
  {
    hide Effect, Wrap, ClassOf;
    EffectOfUpper(upper, s, host);
    var t := Exec(upper, s, host).state;
    AddsImmediate(lower, t, host);
    WrapSum(lower.imm, (if upper.op == AUIPC then s.pc else 0) + upper.imm * 0x1000);
  }

  lemma AddsImmediate(i: Instruction, s: State, host: Host)
    requires i.op == ADDI
    ensures Effect(i, s, host) == Next(WithReg(s, i.rd, Wrap(s.regs[i.rs1] + i.imm)))
  {
    hide Effect;
    EffectByClass(i, s, host);
    WrapSum(s.regs[i.rs1], i.imm);
  }

  // ---- calls ----

  /** The guest's call: its number is in x17, the answer goes to x10, and no other register changes. */
  lemma CallRegisters(i: Instruction, s: State, host: Host)
    requires i.op == ECALL
    ensures var r := host(s.regs[17], s.regs, s.mem, s.world);
      && (r.Return? ==> Effect(i, s, host) == Next(State(s.regs[10 := r.a0], s.pc, r.mem, r.world)))
      && (r.Exit? ==> Effect(i, s, host) == Exited(s.mem, r.world))
  {
    hide Effect;
    EffectOfSystem(i, s, host);
  }

  /** The emitted call: with a tracked number or without one, and the same registers. */
  lemma EmittedCallRegisters(num: Option<Word>, c: Frame, host: Host)
    ensures var n := if num.Some? then num.value else c.ctx[17];
      var r := host(n, c.ctx, c.mem, c.world);
      && (r.Return? ==> Do(Call(num), c, host) == Next(c.(ctx := c.ctx[10 := r.a0], mem := r.mem, world := r.world)))
      && (r.Exit? ==> Do(Call(num), c, host) == Exited(c.mem, r.world))
  {
  }

  /** The number handed to the emitted call is the one tracked for x17. */
  lemma EmittedCallNumber(cfg: Config, t: Tracking, i: Instruction)
    requires i.op == ECALL
    ensures Block(cfg, t, i) ==
      SaveRegisters(cfg) + [Call(if t.known[17] then Some(t.value[17]) else None)] + RestoreRegisters(cfg)
  {
    hide SaveRegisters, RestoreRegisters, Operand;
  }
}
