/** The fragment of C++ that the translator emits, as syntax with a typed evaluator.  Literals
    get the type the standard gives them, operands undergo the usual arithmetic conversions,
    and undefined behaviour (signed overflow, bad shifts, division by zero, access outside the
    memory array) evaluates to `None`. */
module Cpp {
  import opened Words
  import opened Isa
  import opened Machine

  datatype Option<+T> = None | Some(value: T)

  datatype CType = I32 | U32 | I64 | U64
  datatype Value = Value(t: CType, v: int)

  datatype BinOp = Plus | Minus | Times | Quot | Rem | Bit(op: BitOp) | Shl | Shr | Less | AtLeast | Equal | Differ | Both

  /** Variables of the generated program: a pinned register `x5`, a context slot `ctx.reg[5]`,
      `ctx.pc`, `address` and `pcDispatchIndex`, all `uint32_t`. */
  datatype Var = Pinned(r: Register) | Ctx(r: Register) | Pc | Address | Index

  datatype Expr =
    | Dec(n: nat)
    | Hex(n: nat)
    | BadLiteral
    | Get(x: Var)
    | Neg(e: Expr)
    | Bin(op: BinOp, l: Expr, r: Expr)
    | Cast(t: CType, e: Expr)
    | Read(size: int, signed: bool, e: Expr)

  /** What the generated program works on. */
  datatype Frame = Frame(ctx: Regs, pins: Regs, pc: Word, address: Word, index: Word, mem: Mem, world: World)

  function Lookup(x: Var, c: Frame): Word {
    match x
    case Pinned(r) => c.pins[r]
    case Ctx(r) => c.ctx[r]
    case Pc => c.pc
    case Address => c.address
    case Index => c.index
  }

  function Assign(x: Var, v: Word, c: Frame): Frame {
    match x
    case Pinned(r) => c.(pins := c.pins[r := v])
    case Ctx(r) => c.(ctx := c.ctx[r := v])
    case Pc => c.(pc := v)
    case Address => c.(address := v)
    case Index => c.(index := v)
  }

  // ---- types ----

  predicate IsSigned(t: CType) { t == I32 || t == I64 }

  function Width(t: CType): nat { if t == I32 || t == U32 then 32 else 64 }

  predicate Fits(t: CType, v: int) {
    match t
    case I32 => -0x8000_0000 <= v < 0x8000_0000
    case U32 => 0 <= v < 0x1_0000_0000
    case I64 => -0x8000_0000_0000_0000 <= v < 0x8000_0000_0000_0000
    case U64 => 0 <= v < 0x1_0000_0000_0000_0000
  }

  /** Conversion to an integer type: modulo 2^width. */
  function Convert(t: CType, v: int): int {
    match t
    case I32 => Signed(Wrap(v))
    case U32 => Wrap(v)
    case I64 => if Wrap64(v) < 0x8000_0000_0000_0000 then Wrap64(v) else Wrap64(v) - 0x1_0000_0000_0000_0000
    case U64 => Wrap64(v)
  }

  /** The usual arithmetic conversions on promoted types. */
  function Common(a: CType, b: CType): CType {
    if a == U64 || b == U64 then U64
    else if a == I64 || b == I64 then I64
    else if a == U32 || b == U32 then U32
    else I32
  }

  /** The result of an arithmetic operation in type t. */
  function Finish(t: CType, v: int): Option<Value> {
    if IsSigned(t) && !Fits(t, v) then None else Some(Value(t, Convert(t, v)))
  }

  function Truthy(b: bool): Option<Value> { Some(Value(I32, if b then 1 else 0)) }

  function Apply(op: BinOp, a: Value, b: Value): Option<Value> {
    var t := Common(a.t, b.t);
    var x, y := Convert(t, a.v), Convert(t, b.v);
    match op
    case Plus => Finish(t, x + y)
    case Minus => Finish(t, x - y)
    case Times => Finish(t, x * y)
    case Quot => if y == 0 then None else Finish(t, TruncDiv(x, y))
    case Rem => if y == 0 || !Fits(t, TruncDiv(x, y)) then None else Finish(t, TruncRem(x, y))
    case Bit(bits) => Some(Value(t, Convert(t, Bitwise(bits, x, y))))
    case Shl => if 0 <= b.v < Width(a.t) then Some(Value(a.t, Convert(a.t, a.v * Pow2(b.v)))) else None
    case Shr => if 0 <= b.v < Width(a.t) then Some(Value(a.t, a.v / Pow2(b.v))) else None
    case Less => Truthy(x < y)
    case AtLeast => Truthy(x >= y)
    case Equal => Truthy(x == y)
    case Differ => Truthy(x != y)
    case Both => Truthy(a.v != 0 && b.v != 0)
  }

  function ReadValue(size: int, signed: bool, m: Mem, a: Word): Option<Value> {
    if size !in {1, 2, 4} || !InBounds(a, size) then None
    else
      var v := Load(m, a, size);
      if size == 4 then Some(if signed then Value(I32, Signed(v)) else Value(U32, v))
      else if size == 2 then Some(Value(I32, if signed && v >= 0x8000 then v - 0x1_0000 else v))
      else Some(Value(I32, if signed && v >= 0x80 then v - 0x100 else v))
  }

  function Eval(e: Expr, c: Frame): Option<Value> {
    match e
    case Dec(n) => if n < 0x8000_0000 then Some(Value(I32, n)) else Some(Value(I64, n))
    case Hex(n) =>
      if n < 0x8000_0000 then Some(Value(I32, n))
      else if n < 0x1_0000_0000 then Some(Value(U32, n))
      else Some(Value(I64, n))
    case BadLiteral => None
    case Get(x) => Some(Value(U32, Lookup(x, c)))
    case Neg(e1) => (match Eval(e1, c) case None => None case Some(v) => Finish(v.t, -v.v))
    case Bin(op, l, r) => (match (Eval(l, c), Eval(r, c))
      case (Some(a), Some(b)) => Apply(op, a, b)
      case _ => None)
    case Cast(t, e1) => (match Eval(e1, c) case None => None case Some(v) => Some(Value(t, Convert(t, v.v))))
    case Read(size, signed, e1) => (match Eval(e1, c)
      case None => None
      case Some(v) => ReadValue(size, signed, c.mem, Wrap(v.v)))
  }

  // ---- operands: literals and variables that stand for a 32-bit word ----

  /** A register operand: its value is the word, and it is an `int` only when it is tiny. */
  predicate Stands(v: Value, w: Word) {
    v.v == w && (v.t == U32 || v.t == I64 || (v.t == I32 && w < 2048))
  }

  /** A register operand or a 12-bit immediate. */
  predicate Small(v: Value) {
    match v.t
    case U32 => 0 <= v.v < 0x1_0000_0000
    case I64 => 0 <= v.v < 0x1_0000_0000
    case I32 => -2048 <= v.v <= 2048
    case U64 => false
  }

  /** The result truncates to the word. */
  predicate Yields(r: Option<Value>, w: Word) { r.Some? && Wrap(r.value.v) == w }

  lemma ConvertWraps(t: CType, v: int)
    ensures Wrap(Convert(t, v)) == Wrap(v)
  {
    hide Wrap;
    var q := v / 0x1_0000_0000_0000_0000;
    assert v - Wrap64(v) == (q * 0x1_0000_0000) * 0x1_0000_0000;
    WrapShift(v, -q * 0x1_0000_0000);
    WrapShift(v, (-q - 1) * 0x1_0000_0000);
    WrapShift(Wrap(v), -1);
    WrapShift(v, 0);
    WrapWord(Wrap(v));
  }

  lemma WrapWord(w: Word)
    ensures Wrap(w) == w
  {
  }

  lemma ConvertFits(t: CType, v: int)
    requires Fits(t, v)
    ensures Convert(t, v) == v
  {
  }

  lemma FinishYields(t: CType, v: int)
    requires IsSigned(t) ==> Fits(t, v)
    ensures Yields(Finish(t, v), Wrap(v))
  {
    hide Convert, Wrap;
    ConvertWraps(t, v);
  }

  lemma WrapAdds(a: int, b: int)
    ensures Wrap(Wrap(a) + Wrap(b)) == Wrap(a + b) && Wrap(Wrap(a) - Wrap(b)) == Wrap(a - b)
  {
    hide Wrap;
    WrapSum(Wrap(a), b);
    WrapSum(b, a);
    WrapDifference(Wrap(a), b);
    WrapSum(-b, a);
  }

  lemma SmallCommon(a: Value, b: Value)
    requires Small(a) && Small(b)
    ensures var t := Common(a.t, b.t);
      IsSigned(t) ==> Convert(t, a.v) == a.v && Convert(t, b.v) == b.v && Fits(t, a.v + b.v) && Fits(t, a.v - b.v)
  {
    hide Convert;
    var t := Common(a.t, b.t);
    if IsSigned(t) {
      ConvertFits(t, a.v);
      ConvertFits(t, b.v);
    }
  }

  lemma AddSmall(a: Value, b: Value)
    requires Small(a) && Small(b)
    ensures Yields(Apply(Plus, a, b), Wrap(a.v + b.v))
    ensures Yields(Apply(Minus, a, b), Wrap(a.v - b.v))
  {
    hide Convert, Common, Finish, Wrap, Small, Fits;
    SmallCommon(a, b);
    var t := Common(a.t, b.t);
    var x, y := Convert(t, a.v), Convert(t, b.v);
    FinishYields(t, x + y);
    FinishYields(t, x - y);
    ConvertWraps(t, a.v);
    ConvertWraps(t, b.v);
    WrapAdds(x, y);
    WrapAdds(a.v, b.v);
  }

  lemma BitsSmall(op: BitOp, a: Value, b: Value)
    ensures Yields(Apply(Bit(op), a, b), Bits(op, Wrap(a.v), Wrap(b.v)))
  {
    hide Bitwise, Convert, Common, Wrap;
    var t := Common(a.t, b.t);
    var x, y := Convert(t, a.v), Convert(t, b.v);
    ConvertWraps(t, a.v);
    ConvertWraps(t, b.v);
    ConvertWraps(t, Bitwise(op, x, y));
    BitwiseWraps(op, x, y);
  }

  lemma CompareStands(a: Value, b: Value, x: Word, y: Word)
    requires Stands(a, x) && Stands(b, y)
    ensures Apply(Less, a, b) == Truthy(x < y) && Apply(AtLeast, a, b) == Truthy(x >= y)
    ensures Apply(Equal, a, b) == Truthy(x == y) && Apply(Differ, a, b) == Truthy(x != y)
  {
    hide Convert;
    var t := Common(a.t, b.t);
    ConvertFits(t, x);
    ConvertFits(t, y);
  }

  /** `a << s` and `a >> s` on an operand, for a 5-bit amount. */
  lemma ShiftStands(a: Value, x: Word, n: Value)
    requires Stands(a, x) && 0 <= n.v < 32
    ensures Yields(Apply(Shl, a, n), Shifted(SLL, x, n.v))
    ensures Yields(Apply(Shr, a, n), Shifted(SRL, x, n.v))
  {
    hide Convert, Wrap, Pow2;
    ConvertWraps(a.t, x * Pow2(n.v));
  }

  /** `static_cast<int32_t>` of an operand. */
  lemma CastStands(a: Value, x: Word)
    requires Stands(a, x)
    ensures Convert(I32, a.v) == Signed(x) && Convert(U64, a.v) == x
  {
  }
}
