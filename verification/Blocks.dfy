/** Each emitted block does to the generated program's variables what its instruction does to
    the guest, for every aliasing of rd, rs1, rs2 and x0, every mix of tracked and untracked
    operands, and every choice of pinned registers. */
module Blocks {
  import opened Words
  import opened Isa
  import opened Machine
  import opened Cpp
  import opened Translate
  import opened Generated

  /** The register map leaves x0 alone. */
  predicate Proper(cfg: Config) { 0 !in cfg.pins }

  /** The variables represent the guest state.  `ctx.pc` is left out: straight-line code does
      not keep it up to date. */
  ghost predicate Agrees(cfg: Config, c: Frame, s: State) {
    && c.mem == s.mem && c.world == s.world
    && c.ctx[0] == 0 && s.regs[0] == 0
    && forall r: Register :: r != 0 ==> Lookup(cfg.Holder(r), c) == s.regs[r]
  }

  /** A 12-bit immediate, as a word. */
  predicate Tiny(v: Word) { v < 2048 || v >= 0xFFFF_F800 }

  /** Every tracked register holds its tracked value. */
  ghost predicate Sound(t: Tracking, regs: Regs) {
    forall r: Register :: r != 0 && t.known[r] ==> regs[r] == t.value[r] && Tiny(t.value[r])
  }

  lemma OperandStands(cfg: Config, t: Tracking, r: Register, c: Frame, s: State)
    requires Agrees(cfg, c, s) && Sound(t, s.regs)
    ensures var v := Eval(Operand(cfg, t, r), c); v.Some? && Stands(v.value, s.regs[r])
  {
    hide Lookup;
  }

  lemma AssignAgrees(cfg: Config, c: Frame, s: State, rd: Register, v: Word)
    requires Agrees(cfg, c, s) && rd != 0
    ensures Agrees(cfg, Assign(cfg.Holder(rd), v, c), WithReg(s, rd, v))
  {
    var c' := Assign(cfg.Holder(rd), v, c);
    forall r: Register | r != 0
      ensures Lookup(cfg.Holder(r), c') == WithReg(s, rd, v).regs[r]
    {
      assert Lookup(cfg.Holder(r), c) == s.regs[r];
    }
  }

  lemma DecimalValue(n: int, c: Frame)
    requires -0x8000_0000 <= n < 0x1_0000_0000
    ensures var v := Eval(Decimal(n), c); v.Some? && v.value.v == n
    ensures -0x8000_0000 < n < 0x8000_0000 ==> Eval(Decimal(n), c).value.t == I32
    ensures n >= 0x8000_0000 ==> Eval(Decimal(n), c).value.t == I64
  {
  }

  // ---- register-register operations ----

  lemma StandsSmall(v: Value, w: Word)
    requires Stands(v, w)
    ensures Small(v)
  {
  }

  lemma ArithmeticApplies(op: Op, a: Value, b: Value, x: Word, y: Word)
    requires IsArithmetic(op) && Stands(a, x) && Stands(b, y)
    ensures Yields(Apply(OperatorOf(op), a, b), Alu(op, x, y))
  {
    hide Apply, Wrap, Bits, Small, Stands;
    StandsSmall(a, x);
    StandsSmall(b, y);
    AddSmall(a, b);
    BitsSmall(Xor, a, b);
    BitsSmall(Or, a, b);
    BitsSmall(And, a, b);
    StandsFor(a, x);
    StandsFor(b, y);
  }

  lemma ArithmeticCommutes(op: Op, x: Word, y: Word)
    requires IsArithmetic(op) && op != SUB
    ensures Alu(op, x, y) == Alu(op, y, x)
  {
    hide Bitwise, Wrap;
    BitwiseCommutes(Xor, x, y);
    BitwiseCommutes(Or, x, y);
    BitwiseCommutes(And, x, y);
  }

  /** `- rs2` for `0 - rs2`. */
  lemma NegationApplies(b: Value, y: Word)
    requires Stands(b, y)
    ensures Yields(Finish(b.t, -b.v), Alu(SUB, 0, y))
  {
    hide Convert, Wrap;
    FinishYields(b.t, -b.v);
  }

  lemma UpdateApplies(x: Var, op: BinOp, e: Expr, c: Frame, host: Host, v: Word)
    requires Eval(e, c).Some? && Yields(Apply(op, Value(U32, Lookup(x, c)), Eval(e, c).value), v)
    ensures Do(Update(x, op, e), c, host) == Next(Assign(x, v, c))
  {
    hide Apply, Lookup, Wrap, Assign;
    assert Eval(Get(x), c) == Some(Value(U32, Lookup(x, c)));
  }

  lemma SetApplies(x: Var, op: BinOp, l: Expr, r: Expr, c: Frame, host: Host, v: Word)
    requires Eval(l, c).Some? && Eval(r, c).Some? && Yields(Apply(op, Eval(l, c).value, Eval(r, c).value), v)
    ensures Do(Set(x, Bin(op, l, r)), c, host) == Next(Assign(x, v, c))
  {
    hide Apply, Wrap, Assign;
  }

  lemma SetYields(x: Var, e: Expr, c: Frame, host: Host, v: Word)
    requires Yields(Eval(e, c), v)
    ensures Do(Set(x, e), c, host) == Next(Assign(x, v, c))
  {
    hide Eval, Wrap, Assign;
  }

  lemma HolderHolds(cfg: Config, r: Register, c: Frame, s: State)
    requires Agrees(cfg, c, s) && r != 0
    ensures Lookup(cfg.Holder(r), c) == s.regs[r] && Stands(Value(U32, Lookup(cfg.Holder(r), c)), s.regs[r])
  {
    hide Lookup;
  }

  lemma OpStmtComputes(cfg: Config, t: Tracking, i: Instruction, c: Frame, s: State, host: Host)
    requires Agrees(cfg, c, s) && Sound(t, s.regs) && i.rd != 0 && IsArithmetic(i.op)
    ensures Do(OpStmt(cfg, t, i, OperatorOf(i.op), i.op == SUB), c, host)
            == Next(Assign(cfg.Holder(i.rd), Alu(i.op, s.regs[i.rs1], s.regs[i.rs2]), c))
  {
    hide Agrees, Sound, Operand, Eval, Lookup, Apply, Assign, Alu, Stands, OperatorOf, Do;
    var d, a, b := cfg.Holder(i.rd), Operand(cfg, t, i.rs1), Operand(cfg, t, i.rs2);
    var x, y, op := s.regs[i.rs1], s.regs[i.rs2], OperatorOf(i.op);
    OperandStands(cfg, t, i.rs1, c, s);
    OperandStands(cfg, t, i.rs2, c, s);
    HolderHolds(cfg, i.rd, c, s);
    var u, v, w := Eval(a, c).value, Eval(b, c).value, Value(U32, Lookup(d, c));
    if i.rd == i.rs1 {
      ArithmeticApplies(i.op, w, v, x, y);
      UpdateApplies(d, op, b, c, host, Alu(i.op, x, y));
    } else if i.rd == i.rs2 && i.op != SUB {
      ArithmeticApplies(i.op, w, u, y, x);
      ArithmeticCommutes(i.op, x, y);
      UpdateApplies(d, op, a, c, host, Alu(i.op, x, y));
    } else if i.rd == i.rs2 && i.rs1 == 0 {
      NegationApplies(v, y);
      ZeroRegister(cfg, c, s);
      NegYields(b, c, Alu(i.op, x, y));
      SetYields(d, Neg(b), c, host, Alu(i.op, x, y));
    } else {
      ArithmeticApplies(i.op, u, v, x, y);
      SetApplies(d, op, a, b, c, host, Alu(i.op, x, y));
    }
  }

  lemma ZeroRegister(cfg: Config, c: Frame, s: State)
    requires Agrees(cfg, c, s)
    ensures s.regs[0] == 0
  {
  }

  lemma NegYields(e: Expr, c: Frame, w: Word)
    requires Eval(e, c).Some? && Yields(Finish(Eval(e, c).value.t, -Eval(e, c).value.v), w)
    ensures Yields(Eval(Neg(e), c), w)
  {
    hide Finish, Wrap;
  }

  lemma StandsFor(v: Value, w: Word)
    requires Stands(v, w)
    ensures v.v == w && Wrap(v.v) == w
  {
  }

  // ---- shifts and comparisons ----

  lemma Low5Value(b: Value, y: Word)
    requires Stands(b, y)
    ensures Apply(Bit(And), b, Value(I32, 0x1F)) == Some(Value(Common(b.t, I32), y % 32))
  {
    hide Bitwise, Convert;
    Powers();
    AndMask(y, 5);
    var t := Common(b.t, I32);
    ConvertFits(t, y);
    ConvertFits(t, 0x1F);
    ConvertFits(t, y % 32);
  }

  lemma ShiftYields(op: Op, a: Expr, n: Expr, c: Frame, x: Word, k: nat)
    requires op in {SLL, SRL, SRA} && k < 32
    requires Eval(a, c).Some? && Stands(Eval(a, c).value, x)
    requires Eval(n, c).Some? && Eval(n, c).value.v == k
    ensures Yields(Eval(ShiftExpr(op, a, n), c), Shifted(op, x, k))
  {
    hide Wrap, Pow2, Signed, Convert, Stands;
    var u, v := Eval(a, c).value, Eval(n, c).value;
    ShiftStands(u, x, v);
    CastStands(u, x);
    if op == SRA {
      assert Eval(Cast(I32, a), c) == Some(Value(I32, Signed(x)));
      assert Eval(Bin(Shr, Cast(I32, a), n), c) == Some(Value(I32, Signed(x) / Pow2(k)));
      ConvertWraps(U32, Signed(x) / Pow2(k));
    }
  }

  lemma Low5Yields(b: Expr, c: Frame, y: Word)
    requires Eval(b, c).Some? && Stands(Eval(b, c).value, y)
    ensures Eval(Low5(b), c).Some? && Eval(Low5(b), c).value.v == y % 32
  {
    hide Apply, Stands;
    assert Eval(Hex(0x1F), c) == Some(Value(I32, 0x1F));
    Low5Value(Eval(b, c).value, y);
  }

  lemma TruthYields(b: bool)
    ensures Yields(Truthy(b), Truth(b))
  {
  }

  lemma SignedLessYields(op: BinOp, a: Expr, b: Expr, c: Frame, x: Word, y: Word)
    requires op == Less || op == AtLeast
    requires Eval(a, c).Some? && Stands(Eval(a, c).value, x)
    requires Eval(b, c).Some? && Stands(Eval(b, c).value, y)
    ensures Eval(Bin(op, Cast(I32, a), Cast(I32, b)), c)
            == Truthy(if op == Less then Signed(x) < Signed(y) else Signed(x) >= Signed(y))
  {
    hide Wrap, Signed, Convert, Stands;
    CastStands(Eval(a, c).value, x);
    CastStands(Eval(b, c).value, y);
    assert Eval(Cast(I32, a), c) == Some(Value(I32, Signed(x)));
    assert Eval(Cast(I32, b), c) == Some(Value(I32, Signed(y)));
    SignedFits(x);
    SignedFits(y);
    ConvertFits(I32, Signed(x));
    ConvertFits(I32, Signed(y));
  }

  lemma SignedFits(x: Word)
    ensures Fits(I32, Signed(x)) && Fits(I64, Signed(x))
  {
  }

  lemma CompareYields(op: BinOp, a: Expr, b: Expr, c: Frame, x: Word, y: Word)
    requires op in {Less, AtLeast, Equal, Differ}
    requires Eval(a, c).Some? && Stands(Eval(a, c).value, x)
    requires Eval(b, c).Some? && Stands(Eval(b, c).value, y)
    ensures Eval(Bin(op, a, b), c)
            == Truthy(match op { case Less => x < y case AtLeast => x >= y case Equal => x == y case _ => x != y })
  {
    hide Apply, Stands;
    CompareStands(Eval(a, c).value, Eval(b, c).value, x, y);
  }

  // ---- products ----

  lemma MaskedProduct(v: Value)
    ensures Yields(Apply(Bit(And), v, Value(U32, 0xFFFF_FFFF)), Wrap(v.v))
  {
    hide Apply, Bitwise, Wrap;
    BitsSmall(And, v, Value(U32, 0xFFFF_FFFF));
    Powers();
    AndMask(Wrap(v.v), 32);
    WrapWord(0xFFFF_FFFF);
    SmallModulo(Wrap(v.v));
  }

  lemma SmallModulo(w: Word)
    ensures w % 0x1_0000_0000 == w
  {
  }

  lemma UnsignedProduct(x: int, y: int)
    ensures Fits(U64, x) && Fits(U64, y) ==> Apply(Times, Value(U64, x), Value(U64, y)) == Some(Value(U64, Wrap64(x * y)))
  {
    hide Wrap64;
    if Fits(U64, x) && Fits(U64, y) {
      Wrap64Fits(x);
      Wrap64Fits(y);
    }
  }

  lemma Wrap64Fits(x: int)
    requires Fits(U64, x)
    ensures Wrap64(x) == x
  {
  }

  lemma ProductBound(a: int, b: int, m: int)
    requires -m <= a <= m && -m <= b <= m
    ensures -(m * m) <= a * b <= m * m
  {
    NonNegativeProduct(m - a, m - b);
    NonNegativeProduct(m + a, m + b);
    NonNegativeProduct(m - a, m + b);
    NonNegativeProduct(m + a, m - b);
    assert (m - a) * (m - b) + (m + a) * (m + b) == 2 * (m * m) + 2 * (a * b);
    assert (m - a) * (m + b) + (m + a) * (m - b) == 2 * (m * m) - 2 * (a * b);
  }

  lemma SignedProductFits(x: Word, y: Word)
    ensures Fits(I64, Signed(x) * Signed(y))
  {
    hide Signed;
    SignedFits(x);
    SignedFits(y);
    ProductBound(Signed(x), Signed(y), 0x8000_0000);
  }

  lemma SignedProduct(x: Word, y: Word)
    ensures Apply(Times, Value(I64, Signed(x)), Value(I64, Signed(y))) == Some(Value(I64, Signed(x) * Signed(y)))
  {
    hide Signed, Convert, Fits;
    SignedFits(x);
    SignedFits(y);
    SignedProductFits(x, y);
    ConvertFits(I64, Signed(x));
    ConvertFits(I64, Signed(y));
    ConvertFits(I64, Signed(x) * Signed(y));
  }

  lemma MixedProduct(x: Word, y: Word)
    ensures Apply(Times, Value(I64, Signed(x)), Value(U64, y)) == Some(Value(U64, Wrap64(Wrap64(Signed(x)) * y)))
  {
    hide Signed, Wrap64;
    Wrap64Fits(y);
  }

  lemma HighHalf(v: Value)
    requires v.t == I64 || v.t == U64
    ensures Apply(Shr, v, Value(I32, 32)) == Some(Value(v.t, v.v / 0x1_0000_0000))
  {
    hide Pow2, Convert;
    Powers();
  }

  lemma ProductYields(op: Op, a: Expr, b: Expr, c: Frame, x: Word, y: Word)
    requires op in {MUL, MULH, MULHSU, MULHU}
    requires Eval(a, c).Some? && Stands(Eval(a, c).value, x)
    requires Eval(b, c).Some? && Stands(Eval(b, c).value, y)
    ensures Yields(Eval(ProductExpr(op, a, b), c), Multiplied(op, x, y))
  {
    hide Signed, Wrap, Wrap64, Convert, Stands, Apply;
    CastStands(Eval(a, c).value, x);
    CastStands(Eval(b, c).value, y);
    WidenCasts(a, c, x);
    WidenCasts(b, c, y);
    var ux, uy, sx, sy := Cast(U64, a), Cast(U64, b), Cast(I64, Cast(I32, a)), Cast(I64, Cast(I32, b));
    assert Eval(Dec(32), c) == Some(Value(I32, 32));
    assert Eval(Hex(0xFFFF_FFFF), c) == Some(Value(U32, 0xFFFF_FFFF));
    if op == MUL {
      UnsignedProduct(x, y);
      assert Eval(Bin(Times, ux, uy), c) == Some(Value(U64, Wrap64(x * y)));
      MaskedProduct(Value(U64, Wrap64(x * y)));
    } else if op == MULH {
      SignedProduct(x, y);
      assert Eval(Bin(Times, sx, sy), c) == Some(Value(I64, Signed(x) * Signed(y)));
      HighHalf(Value(I64, Signed(x) * Signed(y)));
    } else if op == MULHSU {
      MixedProduct(x, y);
      assert Eval(Bin(Times, sx, uy), c) == Some(Value(U64, Wrap64(Wrap64(Signed(x)) * y)));
      HighHalf(Value(U64, Wrap64(Wrap64(Signed(x)) * y)));
    } else {
      UnsignedProduct(x, y);
      assert Eval(Bin(Times, ux, uy), c) == Some(Value(U64, Wrap64(x * y)));
      HighHalf(Value(U64, Wrap64(x * y)));
    }
  }

  lemma WidenCasts(a: Expr, c: Frame, x: Word)
    requires Eval(a, c).Some? && Stands(Eval(a, c).value, x)
    ensures Eval(Cast(U64, a), c) == Some(Value(U64, x))
    ensures Eval(Cast(I64, Cast(I32, a)), c) == Some(Value(I64, Signed(x)))
  {
    hide Signed, Wrap, Wrap64, Convert, Stands;
    CastStands(Eval(a, c).value, x);
    assert Eval(Cast(I32, a), c) == Some(Value(I32, Signed(x)));
    SignedFits(x);
    ConvertFits(I64, Signed(x));
  }

  // ---- quotients and remainders ----

  /** The one pair of operands on which the emitted remainder is not the guest's. */
  predicate RemOverflows(op: Op, x: Word, y: Word) { op == REM && Overflows(x, y) }

  lemma ConditionYields(a: Expr, b: Expr, c: Frame, x: Word, y: Word)
    requires Eval(a, c).Some? && Stands(Eval(a, c).value, x)
    requires Eval(b, c).Some? && Stands(Eval(b, c).value, y)
    ensures Eval(Bin(Equal, b, Dec(0)), c) == Truthy(y == 0)
    ensures Eval(Bin(Both, Bin(Equal, a, Hex(0x8000_0000)), Bin(Equal, b, Hex(0xFFFF_FFFF))), c) == Truthy(Overflows(x, y))
  {
    hide Stands, Apply;
    assert Eval(Dec(0), c) == Some(Value(I32, 0));
    assert Eval(Hex(0x8000_0000), c) == Some(Value(U32, 0x8000_0000));
    assert Eval(Hex(0xFFFF_FFFF), c) == Some(Value(U32, 0xFFFF_FFFF));
    LiteralsStand();
    CompareYields(Equal, b, Dec(0), c, y, 0);
    CompareYields(Equal, a, Hex(0x8000_0000), c, x, 0x8000_0000);
    CompareYields(Equal, b, Hex(0xFFFF_FFFF), c, y, 0xFFFF_FFFF);
    BothTruths(x == 0x8000_0000, y == 0xFFFF_FFFF);
  }

  lemma LiteralsStand()
    ensures Stands(Value(I32, 0), 0) && Stands(Value(U32, 0x8000_0000), 0x8000_0000) && Stands(Value(U32, 0xFFFF_FFFF), 0xFFFF_FFFF)
  {
  }

  lemma BothTruths(p: bool, q: bool)
    ensures Apply(Both, Truthy(p).value, Truthy(q).value) == Truthy(p && q)
  {
  }

  lemma TruncUnsigned(x: Word, y: Word)
    requires y != 0
    ensures TruncDiv(x, y) == x / y && TruncRem(x, y) == x % y && 0 <= x / y <= x
  {
    if y >= 2 {
      HalfAtMost(x, y);
    }
  }

  lemma UnsignedDivision(a: Value, b: Value, x: Word, y: Word)
    requires Stands(a, x) && Stands(b, y) && y != 0
    ensures Yields(Apply(Quot, a, b), Divided(DIVU, x, y))
    ensures Yields(Apply(Rem, a, b), Divided(REMU, x, y))
  {
    hide Convert, TruncDiv, TruncRem, Wrap;
    var t := Common(a.t, b.t);
    ConvertFits(t, x);
    ConvertFits(t, y);
    TruncUnsigned(x, y);
    FinishYields(t, x / y);
    FinishYields(t, x % y);
    WrapWord(x % y);
  }

  lemma TruncDivFits(a: int, b: int)
    requires Fits(I32, a) && Fits(I32, b) && b != 0
    requires !(a == -0x8000_0000 && b == -1)
    ensures Fits(I32, TruncDiv(a, b))
  {
    var m, n := if a < 0 then -a else a, if b < 0 then -b else b;
    if n >= 2 {
      HalfAtMost(m, n);
    }
  }

  lemma HalfAtMost(m: int, n: int)
    requires m >= 0 && n >= 2
    ensures 0 <= m / n <= m / 2
  {
    var q := m / n;
    assert m == q * n + m % n;
    NonNegativeProduct(q, n - 2);
    assert q * n == q * 2 + q * (n - 2);
  }

  lemma TruncRemFits(a: int, b: int)
    requires Fits(I32, a) && b != 0
    ensures Fits(I32, TruncRem(a, b))
  {
    var m, n := if a < 0 then -a else a, if b < 0 then -b else b;
    var q := m / n;
    assert 0 <= m - n * q <= m by {
      assert m == q * n + m % n;
      QuotientSign(m, n);
      NonNegativeProduct(q, n);
    }
    RemSigns(a, b, q);
  }

  lemma QuotientSign(m: int, n: int)
    requires m >= 0 && n > 0
    ensures m / n >= 0
  {
  }

  lemma RemSigns(a: int, b: int, q: int)
    requires b != 0 && q == (if a < 0 then -a else a) / (if b < 0 then -b else b)
    ensures TruncRem(a, b) == if a < 0 then -(-a - (if b < 0 then -b else b) * q) else a - (if b < 0 then -b else b) * q
  {
  }

  lemma SignedDivision(x: Word, y: Word)
    requires y != 0 && !Overflows(x, y)
    ensures var a, b := Value(I32, Signed(x)), Value(I32, Signed(y));
      Yields(Apply(Quot, a, b), Divided(DIV, x, y)) && Yields(Apply(Rem, a, b), Divided(REM, x, y))
  {
    hide Convert, TruncDiv, TruncRem, Wrap;
    SignedFits(x);
    SignedFits(y);
    ConvertFits(I32, Signed(x));
    ConvertFits(I32, Signed(y));
    TruncDivFits(Signed(x), Signed(y));
    TruncRemFits(Signed(x), Signed(y));
    FinishYields(I32, TruncDiv(Signed(x), Signed(y)));
    FinishYields(I32, TruncRem(Signed(x), Signed(y)));
  }

  lemma SignedDivisionYields(op: BinOp, a: Expr, b: Expr, c: Frame, x: Word, y: Word)
    requires op in {Quot, Rem} && y != 0 && !Overflows(x, y)
    requires Eval(a, c).Some? && Stands(Eval(a, c).value, x)
    requires Eval(b, c).Some? && Stands(Eval(b, c).value, y)
    ensures Yields(Eval(Cast(U32, Bin(op, Cast(I32, a), Cast(I32, b))), c), Divided(if op == Quot then DIV else REM, x, y))
  {
    hide Apply, Convert, Stands, Divided, Signed, Wrap;
    CastStands(Eval(a, c).value, x);
    CastStands(Eval(b, c).value, y);
    assert Eval(Cast(I32, a), c) == Some(Value(I32, Signed(x)));
    assert Eval(Cast(I32, b), c) == Some(Value(I32, Signed(y)));
    SignedDivision(x, y);
    var r := Apply(op, Value(I32, Signed(x)), Value(I32, Signed(y)));
    assert Eval(Bin(op, Cast(I32, a), Cast(I32, b)), c) == r;
    ConvertWraps(U32, r.value.v);
  }

  lemma OneArm(cond: Expr, yes: Stmt, no: Stmt, c: Frame, host: Host, p: bool)
    requires Eval(cond, c) == Truthy(p)
    ensures Do(IfElse(cond, yes, no), c, host) == if p then Do(yes, c, host) else Do(no, c, host)
  {
    hide Eval;
  }

  lemma StandsYields(e: Expr, c: Frame, x: Word)
    requires Eval(e, c).Some? && Stands(Eval(e, c).value, x)
    ensures Yields(Eval(e, c), x)
  {
    hide Eval;
  }

  lemma LiteralsYield(c: Frame)
    ensures Yields(Eval(Neg(Dec(1)), c), 0xFFFF_FFFF)
    ensures Yields(Eval(Hex(0xFFFF_FFFF), c), 0xFFFF_FFFF)
    ensures Yields(Eval(Hex(0x8000_0000), c), 0x8000_0000)
    ensures Yields(Eval(Dec(0), c), 0)
  {
  }

  /** What the emitted quotient or remainder computes: the guest's result, except that the
      overflowing remainder comes out as 0x80000000. */
  function EmittedQuotient(op: Op, x: Word, y: Word): Word
    requires op in {DIV, DIVU, REM, REMU}
  {
    if RemOverflows(op, x, y) then 0x8000_0000 else Divided(op, x, y)
  }

  lemma DivideComputes(op: Op, d: Var, a: Expr, b: Expr, c: Frame, host: Host, x: Word, y: Word)
    requires op in {DIV, DIVU, REM, REMU}
    requires Eval(a, c).Some? && Stands(Eval(a, c).value, x)
    requires Eval(b, c).Some? && Stands(Eval(b, c).value, y)
    ensures Do(DivideStmt(op, d, a, b), c, host) == Next(Assign(d, EmittedQuotient(op, x, y), c))
  {
    hide Do, Eval, Assign, Stands, TruncDiv, TruncRem, Wrap, Signed, Truthy;
    ConditionYields(a, b, c, x, y);
    LiteralsYield(c);
    StandsYields(a, c, x);
    var stmt := DivideStmt(op, d, a, b);
    OneArm(stmt.cond, stmt.yes, stmt.no, c, host, y == 0);
    if y == 0 {
      SetYields(d, stmt.yes.e, c, host, EmittedQuotient(op, x, y));
    } else if op == DIVU || op == REMU {
      UnsignedQuotientYields(op, a, b, c, x, y);
      SetYields(d, stmt.no.e, c, host, EmittedQuotient(op, x, y));
    } else {
      var inner := stmt.no;
      OneArm(inner.cond, inner.yes, inner.no, c, host, Overflows(x, y));
      if Overflows(x, y) {
        SetYields(d, inner.yes.e, c, host, EmittedQuotient(op, x, y));
      } else {
        SignedDivisionYields(if op == DIV then Quot else Rem, a, b, c, x, y);
        SetYields(d, inner.no.e, c, host, EmittedQuotient(op, x, y));
      }
    }
  }

  lemma UnsignedQuotientYields(op: Op, a: Expr, b: Expr, c: Frame, x: Word, y: Word)
    requires op in {DIVU, REMU} && y != 0
    requires Eval(a, c).Some? && Stands(Eval(a, c).value, x)
    requires Eval(b, c).Some? && Stands(Eval(b, c).value, y)
    ensures Yields(Eval(Bin(if op == DIVU then Quot else Rem, a, b), c), Divided(op, x, y))
  {
    hide Apply, Stands, Divided;
    UnsignedDivision(Eval(a, c).value, Eval(b, c).value, x, y);
  }

  // ---- computing blocks ----

  function EmittedAlu(op: Op, x: Word, y: Word): Word
    requires IsRegisterOp(op)
  {
    if RemOverflows(op, x, y) then 0x8000_0000 else Alu(op, x, y)
  }

  lemma ComputeComputes(cfg: Config, t: Tracking, i: Instruction, c: Frame, s: State, host: Host)
    requires Agrees(cfg, c, s) && Sound(t, s.regs) && i.rd != 0 && IsRegisterOp(i.op)
    ensures Do(ComputeStmt(cfg, t, i), c, host)
            == Next(Assign(cfg.Holder(i.rd), EmittedAlu(i.op, s.regs[i.rs1], s.regs[i.rs2]), c))
  {
    hide Do, Agrees, Sound, Operand, Eval, Lookup, Assign, Stands, OpStmt, ShiftExpr, ProductExpr, DivideStmt,
      Multiplied, Divided, Shifted, Bits, Signed, Wrap, Truth, Truthy, Overflows;
    var d, a, b := cfg.Holder(i.rd), Operand(cfg, t, i.rs1), Operand(cfg, t, i.rs2);
    var x, y := s.regs[i.rs1], s.regs[i.rs2];
    OperandStands(cfg, t, i.rs1, c, s);
    OperandStands(cfg, t, i.rs2, c, s);
    if IsArithmetic(i.op) {
      OpStmtComputes(cfg, t, i, c, s, host);
    } else if i.op in {SLL, SRL, SRA} {
      Low5Yields(b, c, y);
      ShiftYields(i.op, a, Low5(b), c, x, y % 32);
      SetYields(d, ShiftExpr(i.op, a, Low5(b)), c, host, Alu(i.op, x, y));
    } else if i.op == SLT {
      SignedLessYields(Less, a, b, c, x, y);
      TruthYields(Signed(x) < Signed(y));
      SetYields(d, Bin(Less, Cast(I32, a), Cast(I32, b)), c, host, Alu(i.op, x, y));
    } else if i.op == SLTU {
      CompareYields(Less, a, b, c, x, y);
      TruthYields(x < y);
      SetYields(d, Bin(Less, a, b), c, host, Alu(i.op, x, y));
    } else if i.op in {MUL, MULH, MULHSU, MULHU} {
      ProductYields(i.op, a, b, c, x, y);
      SetYields(d, ProductExpr(i.op, a, b), c, host, Alu(i.op, x, y));
    } else {
      DivideComputes(i.op, d, a, b, c, host, x, y);
    }
  }

  /** What decoding guarantees about immediates. */
  predicate Twelve(i: Instruction) {
    && -2048 <= i.imm < 2048
    && (i.op in {SLLI, SRLI, SRAI} ==> i.rs2 == i.imm % 32)
  }

  lemma SmallImmediate(a: Value, x: Word, n: int)
    requires Stands(a, x) && -2048 <= n <= 2048
    ensures Yields(Apply(Plus, a, Value(I32, n)), Wrap(x + n))
    ensures Yields(Apply(Minus, a, Value(I32, n)), Wrap(x - n))
  {
    hide Apply, Wrap;
    AddSmall(a, Value(I32, n));
  }

  lemma AddImmediateComputes(cfg: Config, t: Tracking, i: Instruction, c: Frame, s: State, host: Host)
    requires Agrees(cfg, c, s) && Sound(t, s.regs) && i.rd != 0 && -2048 <= i.imm < 2048
    ensures Do(AddImmediateStmt(cfg, t, i), c, host) == Next(Assign(cfg.Holder(i.rd), Wrap(s.regs[i.rs1] + i.imm), c))
  {
    hide Do, Agrees, Sound, Operand, Decimal, Eval, Lookup, Apply, Assign, Stands, Wrap;
    var d, a, x, n: int := cfg.Holder(i.rd), Operand(cfg, t, i.rs1), s.regs[i.rs1], i.imm;
    OperandStands(cfg, t, i.rs1, c, s);
    HolderHolds(cfg, i.rd, c, s);
    DecimalValue(n, c);
    DecimalValue(-n, c);
    var v, u, w := Wrap(x + n), Eval(a, c).value, Value(U32, Lookup(d, c));
    ZeroRegister(cfg, c, s);
    WrapWord(x);
    if n == 0 {
      StandsYields(a, c, x);
      SetYields(d, a, c, host, v);
    } else if i.rs1 == 0 {
      SetYields(d, Decimal(n), c, host, v);
    } else if n < 0 {
      if i.rs1 == i.rd {
        SmallImmediate(w, x, -n);
        UpdateApplies(d, Minus, Decimal(-n), c, host, v);
      } else {
        SmallImmediate(u, x, -n);
        SetApplies(d, Minus, a, Decimal(-n), c, host, v);
      }
    } else {
      if i.rs1 == i.rd {
        SmallImmediate(w, x, n);
        UpdateApplies(d, Plus, Decimal(n), c, host, v);
      } else {
        SmallImmediate(u, x, n);
        SetApplies(d, Plus, a, Decimal(n), c, host, v);
      }
    }
  }

  lemma BitsImmediateYields(op: BitOp, a: Expr, imm: Int32, c: Frame, x: Word)
    requires Eval(a, c).Some? && Stands(Eval(a, c).value, x) && -2048 <= imm < 2048
    ensures Yields(Eval(Bin(Bit(op), a, Decimal(imm)), c), Bits(op, x, Wrap(imm)))
  {
    hide Apply, Decimal, Wrap, Bits;
    DecimalValue(imm, c);
    BitsSmall(op, Eval(a, c).value, Eval(Decimal(imm), c).value);
    WrapWord(x);
  }

  lemma LessImmediateYields(a: Expr, imm: Int32, c: Frame, x: Word)
    requires Eval(a, c).Some? && Stands(Eval(a, c).value, x) && -2048 <= imm < 2048
    ensures Eval(Bin(Less, Cast(I32, a), Decimal(imm)), c) == Truthy(Signed(x) < imm)
    ensures Eval(Bin(Less, a, Decimal(Wrap(imm))), c) == Truthy(x < Wrap(imm))
  {
    hide Decimal, Wrap, Stands, Signed, Convert;
    DecimalValue(imm, c);
    DecimalValue(Wrap(imm), c);
    CastStands(Eval(a, c).value, x);
    assert Eval(Cast(I32, a), c) == Some(Value(I32, Signed(x)));
    SignedFits(x);
    ConvertFits(I32, Signed(x));
    ConvertFits(I32, imm);
    ImmediateStands(imm, Eval(Decimal(Wrap(imm)), c).value);
    CompareStands(Eval(a, c).value, Eval(Decimal(Wrap(imm)), c).value, x, Wrap(imm));
  }

  lemma ImmediateStands(imm: Int32, v: Value)
    requires -2048 <= imm < 2048 && v.v == Wrap(imm)
    requires (v.v < 0x8000_0000 ==> v.t == I32) && (v.v >= 0x8000_0000 ==> v.t == I64)
    ensures Stands(v, Wrap(imm))
  {
  }

  lemma ShiftForms(op: Op, a: Expr, n: Expr)
    requires op in {SLLI, SRLI, SRAI}
    ensures RegisterForm(op) in {SLL, SRL, SRA} && ShiftExpr(RegisterForm(op), a, n) == ShiftExpr(op, a, n)
  {
  }

  lemma ComputeImmediateComputes(cfg: Config, t: Tracking, i: Instruction, c: Frame, s: State, host: Host)
    requires Agrees(cfg, c, s) && Sound(t, s.regs) && i.rd != 0 && IsImmediateOp(i.op) && Twelve(i)
    ensures Do(ComputeImmediateStmt(cfg, t, i), c, host)
            == Next(Assign(cfg.Holder(i.rd), Alu(RegisterForm(i.op), s.regs[i.rs1], Wrap(i.imm)), c))
  {
    hide Do, Agrees, Sound, Operand, Decimal, Eval, Lookup, Assign, Stands, AddImmediateStmt, ShiftExpr,
      Multiplied, Divided, Shifted, Bits, Signed, Wrap, Truth, Truthy;
    var d, a, x, n: int := cfg.Holder(i.rd), Operand(cfg, t, i.rs1), s.regs[i.rs1], i.imm;
    var v := Alu(RegisterForm(i.op), x, Wrap(i.imm));
    OperandStands(cfg, t, i.rs1, c, s);
    WrapSum(x, n);
    SignedWrap(i.imm);
    if i.op == ADDI {
      AddImmediateComputes(cfg, t, i, c, s, host);
    } else if i.op in {SLLI, SRLI, SRAI} {
      ShiftForms(i.op, a, Decimal(i.rs2));
      WrapLow5(n);
      DecimalValue(i.rs2, c);
      ShiftYields(RegisterForm(i.op), a, Decimal(i.rs2), c, x, i.rs2);
      SetYields(d, ShiftExpr(i.op, a, Decimal(i.rs2)), c, host, v);
    } else if i.op == SLTI {
      LessImmediateYields(a, i.imm, c, x);
      TruthYields(Signed(x) < n);
      SetYields(d, Bin(Less, Cast(I32, a), Decimal(i.imm)), c, host, v);
    } else if i.op == SLTIU {
      LessImmediateYields(a, i.imm, c, x);
      TruthYields(x < Wrap(n));
      SetYields(d, Bin(Less, a, Decimal(Wrap(i.imm))), c, host, v);
    } else {
      var op := if i.op == XORI then Xor else if i.op == ORI then Or else And;
      BitsImmediateYields(op, a, i.imm, c, x);
      SetYields(d, Bin(Bit(op), a, Decimal(i.imm)), c, host, v);
    }
  }

  // ---- memory ----

  lemma AddressComputes(cfg: Config, t: Tracking, i: Instruction, c: Frame, s: State, host: Host)
    requires Agrees(cfg, c, s) && Sound(t, s.regs) && -2048 <= i.imm < 2048
    ensures Do(AddressStmt(cfg, t, i), c, host) == Next(c.(address := Wrap(s.regs[i.rs1] + i.imm)))
  {
    hide Do, Agrees, Sound, Operand, Decimal, Eval, Apply, Stands, Wrap;
    var a, x := Operand(cfg, t, i.rs1), s.regs[i.rs1];
    OperandStands(cfg, t, i.rs1, c, s);
    DecimalValue(i.imm, c);
    WrapWord(x);
    if i.imm == 0 {
      StandsYields(a, c, x);
      SetYields(Address, a, c, host, x);
    } else {
      SmallImmediate(Eval(a, c).value, x, i.imm);
      SetApplies(Address, Plus, a, Decimal(i.imm), c, host, Wrap(x + i.imm));
    }
  }

  lemma LoadComputes(op: Op, c: Frame)
    requires IsLoad(op) && InBounds(c.address, AccessSize(op))
    ensures Yields(Eval(LoadExpr(op), c), Loaded(op, Load(c.mem, c.address, AccessSize(op))))
  {
    hide Load;
    var size := AccessSize(op);
    var v := Load(c.mem, c.address, size);
    assert Eval(Get(Address), c) == Some(Value(U32, c.address));
    WrapWord(c.address);
    ReadYields(op, c.mem, c.address);
    if op == LB || op == LH {
      assert Eval(Read(size, true, Get(Address)), c) == ReadValue(size, true, c.mem, c.address);
      ConvertWraps(I32, ReadValue(size, true, c.mem, c.address).value.v);
    } else {
      assert Eval(Read(size, op == LW, Get(Address)), c) == ReadValue(size, op == LW, c.mem, c.address);
    }
  }

  lemma ReadYields(op: Op, m: Mem, a: Word)
    requires IsLoad(op) && InBounds(a, AccessSize(op))
    ensures Yields(ReadValue(AccessSize(op), op in {LB, LH, LW}, m, a), Loaded(op, Load(m, a, AccessSize(op))))
  {
    LoadRange(m, a);
  }

  lemma LoadRange(m: Mem, a: Word)
    ensures InBounds(a, 1) ==> Load(m, a, 1) < 0x100
    ensures InBounds(a, 2) ==> Load(m, a, 2) < 0x1_0000
  {
  }

  // ---- upper immediates ----

  lemma Shift12Wraps(imm: Int32)
    ensures Wrap(Shift12(imm)) == Wrap(imm * 0x1000)
    ensures 0 <= imm < 0x8_0000 ==> Shift12(imm) == imm * 0x1000
    ensures -0x8_0000 <= imm < 0 ==> Shift12(imm) < 0
  {
  }

  /** The sum printed for AUIPC: two hexadecimal literals of type `int`. */
  function UpperSum(i: Instruction): Expr { Bin(Plus, Hex(i.address), HexSigned(Shift12(i.imm))) }

  /** The second literal is a literal, and the sum does not overflow an `int`. */
  predicate UpperSumOk(i: Instruction) { 0 <= i.imm && i.address + i.imm * 0x1000 < 0x8000_0000 }

  /** Exactly when AUIPC is translated to something with a meaning. */
  lemma UpperSumDefined(i: Instruction, c: Frame)
    requires -0x8_0000 <= i.imm < 0x8_0000 && i.address < 0x8000_0000
    ensures Eval(UpperSum(i), c).Some? <==> UpperSumOk(i)
    ensures UpperSumOk(i) ==> Yields(Eval(UpperSum(i), c), Wrap(i.address + i.imm * 0x1000))
  {
    hide Shift12, Wrap, Convert;
    Shift12Wraps(i.imm);
    assert Eval(Hex(i.address), c) == Some(Value(I32, i.address));
    if i.imm >= 0 {
      var n := i.imm * 0x1000;
      assert Eval(HexSigned(Shift12(i.imm)), c) == Some(Value(I32, n));
      ConvertFits(I32, i.address);
      ConvertFits(I32, n);
      if UpperSumOk(i) {
        FinishYields(I32, i.address + n);
      }
    } else {
      assert Eval(HexSigned(Shift12(i.imm)), c).None?;
    }
  }

  // ---- pinned registers ----

  lemma SavesTail(pins: seq<Register>)
    requires pins != []
    ensures Saves(pins)[1..] == Saves(pins[1..]) && Restores(pins)[1..] == Restores(pins[1..])
  {
  }

  lemma SaveOne(r: Register, c: Frame, host: Host)
    ensures Do(Set(Ctx(r), Get(Pinned(r))), c, host) == Next(c.(ctx := c.ctx[r := c.pins[r]]))
    ensures Do(Set(Pinned(r), Get(Ctx(r))), c, host) == Next(c.(pins := c.pins[r := c.ctx[r]]))
  {
    WrapWord(c.pins[r]);
    WrapWord(c.ctx[r]);
  }

  /** Saving copies the pinned registers into the context and touches nothing else. */
  lemma {:induction false} SavesRun(pins: seq<Register>, c: Frame, host: Host) returns (ctx: Regs)
    ensures DoAll(Saves(pins), c, host) == Next(c.(ctx := ctx))
    ensures forall r: Register :: ctx[r] == if r in pins then c.pins[r] else c.ctx[r]
    decreases |pins|
  {
    hide Do;
    if pins == [] {
      ctx := c.ctx;
    } else {
      SavesTail(pins);
      SaveOne(pins[0], c, host);
      ctx := SavesRun(pins[1..], c.(ctx := c.ctx[pins[0] := c.pins[pins[0]]]), host);
    }
  }

  lemma {:induction false} RestoresRun(pins: seq<Register>, c: Frame, host: Host) returns (regs: Regs)
    ensures DoAll(Restores(pins), c, host) == Next(c.(pins := regs))
    ensures forall r: Register :: regs[r] == if r in pins then c.ctx[r] else c.pins[r]
    decreases |pins|
  {
    hide Do;
    if pins == [] {
      regs := c.pins;
    } else {
      SavesTail(pins);
      SaveOne(pins[0], c, host);
      regs := RestoresRun(pins[1..], c.(pins := c.pins[pins[0] := c.ctx[pins[0]]]), host);
    }
  }

  /** After a save the context holds all guest registers. */
  lemma SaveGathers(cfg: Config, c: Frame, s: State, host: Host)
    requires Proper(cfg) && Agrees(cfg, c, s)
    ensures DoAll(SaveRegisters(cfg), c, host) == Next(c.(ctx := s.regs))
  {
    hide Do;
    var ctx := c.ctx;
    if cfg.pinRegisters {
      ctx := SavesRun(cfg.pins, c, host);
    }
    forall r: Register
      ensures ctx[r] == s.regs[r]
    {
      if r != 0 {
        assert Lookup(cfg.Holder(r), c) == s.regs[r];
      }
    }
    assert ctx == s.regs;
  }

  /** After a load the variables represent what the context holds. */
  lemma RestoreSpreads(cfg: Config, c: Frame, s: State, host: Host) returns (c': Frame)
    requires Proper(cfg) && c.ctx == s.regs && s.regs[0] == 0 && c.mem == s.mem && c.world == s.world
    ensures DoAll(RestoreRegisters(cfg), c, host) == Next(c')
    ensures Agrees(cfg, c', s) && c'.ctx == c.ctx && c'.pc == c.pc && c'.index == c.index
  {
    hide Do;
    c' := c;
    if cfg.pinRegisters {
      var regs := RestoresRun(cfg.pins, c, host);
      c' := c.(pins := regs);
    }
  }

  // ---- jumps ----

  lemma BranchTestYields(op: Op, a: Expr, b: Expr, c: Frame, x: Word, y: Word)
    requires IsBranch(op)
    requires Eval(a, c).Some? && Stands(Eval(a, c).value, x)
    requires Eval(b, c).Some? && Stands(Eval(b, c).value, y)
    ensures Eval(BranchTest(op, a, b), c) == Truthy(Taken(op, x, y))
  {
    hide Eval, Stands, Signed, Truthy;
    match op
    case BEQ => CompareYields(Equal, a, b, c, x, y);
    case BNE => CompareYields(Differ, a, b, c, x, y);
    case BLT => SignedLessYields(Less, a, b, c, x, y);
    case BGE => SignedLessYields(AtLeast, a, b, c, x, y);
    case BLTU => CompareYields(Less, a, b, c, x, y);
    case BGEU => CompareYields(AtLeast, a, b, c, x, y);
  }

  lemma LinkYields(a: Word, c: Frame)
    ensures Yields(Eval(Hex(a), c), a)
  {
    WrapWord(a);
  }

  /** `ctx.pc = imm + rs1` reads rs1 before rd is written. */
  lemma IndirectTarget(imm: Int32, a: Expr, c: Frame, host: Host, x: Word)
    requires Eval(a, c).Some? && Stands(Eval(a, c).value, x) && -2048 <= imm < 2048
    ensures Do(Set(Pc, Bin(Plus, Decimal(imm), a)), c, host) == Next(c.(pc := Wrap(imm + x)))
  {
    hide Do, Eval, Apply, Decimal, Wrap;
    DecimalValue(imm, c);
    AddSmall(Eval(Decimal(imm), c).value, Eval(a, c).value);
    SetApplies(Pc, Plus, Decimal(imm), a, c, host, Wrap(imm + x));
  }

  /** `if (ctx.pc == 0x...)` of a hardcoded prediction. */
  lemma PredictionTest(a: Word, c: Frame)
    ensures Eval(Bin(Equal, Get(Pc), Hex(a)), c) == Truthy(c.pc == a)
  {
    assert Eval(Get(Pc), c) == Some(Value(U32, c.pc));
    WrapWord(a);
    WrapWord(c.pc);
  }
}
