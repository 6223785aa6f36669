/** What the translator emits for each instruction, and around all of them. */
module Translate {
  import opened Words
  import opened Isa
  import opened Machine
  import opened Cpp

  datatype Stmt =
    | Label(at: Word)
    | ExitLabel
    | InvalidLabel
    | Set(x: Var, e: Expr)
    | Update(x: Var, op: BinOp, e: Expr)
    | WriteMem(size: int, a: Expr, v: Expr)
    | IfElse(cond: Expr, yes: Stmt, no: Stmt)
    | IfGoto(cond: Expr, target: Word)
    | Goto(target: Word)
    | Dispatch
    | Continue
    | Call(num: Option<Word>)
    | Print
    | Fallback
    | Leave

  /** Everything a translation depends on besides the instructions.  `predicted` holds, for
      each indirect jump, the targets hardcoded by branch prediction. */
  datatype Config = Config(pins: seq<Register>, pinRegisters: bool, chaining: bool,
                           leaders: set<Word>, predicted: map<Word, seq<Word>>, start: Word) {
    predicate Pins(r: Register) { pinRegisters && r in pins }

    /** The variable that holds a guest register. */
    function Holder(r: Register): Var { if Pins(r) then Pinned(r) else Ctx(r) }
  }

  // ---- constant tracking ----

  datatype Track = Track(known: seq<bool>, value: seq<Word>)
  type Tracking = t: Track | |t.known| == 32 && |t.value| == 32
    witness Track(seq(32, _ => false), seq(32, _ => 0))

  function Forget(t: Tracking, r: Register): Tracking { t.(known := t.known[r := false]) }

  function Learn(t: Tracking, r: Register, v: Word): Tracking {
    t.(known := t.known[r := true], value := t.value[r := v])
  }

  function Reset(t: Tracking): Tracking { t.(known := seq(32, _ => false)) }

  // ---- expressions ----

  /** A signed number printed in decimal. */
  function Decimal(n: int): Expr { if n < 0 then Neg(Dec(-n)) else Dec(n) }

  /** A signed number printed after `0x`: a minus sign makes it no literal at all. */
  function HexSigned(n: int): Expr { if n < 0 then BadLiteral else Hex(n) }

  /** REG for a source field: x0 and tracked registers are literals. */
  function Operand(cfg: Config, t: Tracking, r: Register): Expr {
    if r == 0 then Dec(0) else if t.known[r] then Dec(t.value[r]) else Get(cfg.Holder(r))
  }

  function Shift12(imm: Int32): Int32 { Signed(Wrap(imm * 0x1000)) }

  // ---- one instruction ----

  /** Statements that write to x0 are dropped. */
  function ToRd(i: Instruction, s: Stmt): seq<Stmt> { if i.rd == 0 then [] else [s] }

  /** emitOp: op-assignment when rd is an operand, commuted if the operator allows it. */
  function OpStmt(cfg: Config, t: Tracking, i: Instruction, op: BinOp, ordered: bool): Stmt {
    var d, a, b := cfg.Holder(i.rd), Operand(cfg, t, i.rs1), Operand(cfg, t, i.rs2);
    if i.rd == i.rs1 then Update(d, op, b)
    else if i.rd == i.rs2 && !ordered then Update(d, op, a)
    else if i.rd == i.rs2 && i.rs1 == 0 then Set(d, Neg(b))
    else Set(d, Bin(op, a, b))
  }

  predicate IsArithmetic(op: Op) { op in {ADD, SUB, XOR, OR, AND} }

  /** The C++ operator of an instruction emitted as `rd = rs1 op rs2`. */
  function OperatorOf(op: Op): BinOp
    requires IsArithmetic(op)
  {
    if op == ADD then Plus else if op == SUB then Minus else if op == XOR then Bit(Xor)
    else if op == OR then Bit(Or) else Bit(And)
  }

  function Low5(e: Expr): Expr { Bin(Bit(And), e, Hex(0x1F)) }

  function ShiftExpr(op: Op, a: Expr, n: Expr): Expr {
    if op == SLL || op == SLLI then Bin(Shl, a, n)
    else if op == SRL || op == SRLI then Bin(Shr, a, n)
    else Cast(U32, Bin(Shr, Cast(I32, a), n))
  }

  function ProductExpr(op: Op, a: Expr, b: Expr): Expr {
    if op == MUL then Bin(Bit(And), Bin(Times, Cast(U64, a), Cast(U64, b)), Hex(0xFFFF_FFFF))
    else if op == MULH then Bin(Shr, Bin(Times, Cast(I64, Cast(I32, a)), Cast(I64, Cast(I32, b))), Dec(32))
    else if op == MULHSU then Bin(Shr, Bin(Times, Cast(I64, Cast(I32, a)), Cast(U64, b)), Dec(32))
    else Bin(Shr, Bin(Times, Cast(U64, a), Cast(U64, b)), Dec(32))
  }

  function DivideStmt(op: Op, d: Var, a: Expr, b: Expr): Stmt {
    var zero := Bin(Equal, b, Dec(0));
    var overflow := Bin(Both, Bin(Equal, a, Hex(0x8000_0000)), Bin(Equal, b, Hex(0xFFFF_FFFF)));
    if op == DIV then
      IfElse(zero, Set(d, Neg(Dec(1))),
        IfElse(overflow, Set(d, Hex(0x8000_0000)), Set(d, Cast(U32, Bin(Quot, Cast(I32, a), Cast(I32, b))))))
    else if op == DIVU then
      IfElse(zero, Set(d, Hex(0xFFFF_FFFF)), Set(d, Bin(Quot, a, b)))
    else if op == REM then
      IfElse(zero, Set(d, a),
        IfElse(overflow, Set(d, Hex(0x8000_0000)), Set(d, Cast(U32, Bin(Rem, Cast(I32, a), Cast(I32, b))))))
    else
      IfElse(zero, Set(d, a), Set(d, Bin(Rem, a, b)))
  }

  function ComputeStmt(cfg: Config, t: Tracking, i: Instruction): Stmt
    requires IsRegisterOp(i.op)
  {
    var d, a, b := cfg.Holder(i.rd), Operand(cfg, t, i.rs1), Operand(cfg, t, i.rs2);
    match i.op
    case ADD => OpStmt(cfg, t, i, Plus, false)
    case SUB => OpStmt(cfg, t, i, Minus, true)
    case XOR => OpStmt(cfg, t, i, Bit(Xor), false)
    case OR => OpStmt(cfg, t, i, Bit(Or), false)
    case AND => OpStmt(cfg, t, i, Bit(And), false)
    case SLL | SRL | SRA => Set(d, ShiftExpr(i.op, a, Low5(b)))
    case SLT => Set(d, Bin(Less, Cast(I32, a), Cast(I32, b)))
    case SLTU => Set(d, Bin(Less, a, b))
    case MUL | MULH | MULHSU | MULHU => Set(d, ProductExpr(i.op, a, b))
    case DIV | DIVU | REM | REMU => DivideStmt(i.op, d, a, b)
  }

  function AddImmediateStmt(cfg: Config, t: Tracking, i: Instruction): Stmt {
    var d, a, n: int := cfg.Holder(i.rd), Operand(cfg, t, i.rs1), i.imm;
    if n == 0 then Set(d, a)
    else if i.rs1 == 0 then Set(d, Decimal(n))
    else if n < 0 then (if i.rs1 == i.rd then Update(d, Minus, Decimal(-n)) else Set(d, Bin(Minus, a, Decimal(-n))))
    else (if i.rs1 == i.rd then Update(d, Plus, Decimal(n)) else Set(d, Bin(Plus, a, Decimal(n))))
  }

  function ComputeImmediateStmt(cfg: Config, t: Tracking, i: Instruction): Stmt
    requires IsImmediateOp(i.op)
  {
    var d, a, imm := cfg.Holder(i.rd), Operand(cfg, t, i.rs1), Decimal(i.imm);
    match i.op
    case ADDI => AddImmediateStmt(cfg, t, i)
    case XORI => Set(d, Bin(Bit(Xor), a, imm))
    case ORI => Set(d, Bin(Bit(Or), a, imm))
    case ANDI => Set(d, Bin(Bit(And), a, imm))
    case SLLI | SRLI | SRAI => Set(d, ShiftExpr(i.op, a, Decimal(i.rs2)))
    case SLTI => Set(d, Bin(Less, Cast(I32, a), imm))
    case SLTIU => Set(d, Bin(Less, a, Decimal(Wrap(i.imm))))
  }

  function AddressStmt(cfg: Config, t: Tracking, i: Instruction): Stmt {
    var a := Operand(cfg, t, i.rs1);
    Set(Address, if i.imm == 0 then a else Bin(Plus, a, Decimal(i.imm)))
  }

  function LoadExpr(op: Op): Expr
    requires IsLoad(op)
  {
    match op
    case LB => Cast(I32, Read(1, true, Get(Address)))
    case LH => Cast(I32, Read(2, true, Get(Address)))
    case LW => Read(4, true, Get(Address))
    case LBU => Read(1, false, Get(Address))
    case LHU => Read(2, false, Get(Address))
  }

  function BranchTest(op: Op, a: Expr, b: Expr): Expr
    requires IsBranch(op)
  {
    match op
    case BEQ => Bin(Equal, a, b)
    case BNE => Bin(Differ, a, b)
    case BLT => Bin(Less, Cast(I32, a), Cast(I32, b))
    case BGE => Bin(AtLeast, Cast(I32, a), Cast(I32, b))
    case BLTU => Bin(Less, a, b)
    case BGEU => Bin(AtLeast, a, b)
  }

  /** The target of a direct jump or branch. */
  function DirectTarget(i: Instruction): Word { Wrap(i.address + i.imm) }

  function LinkStmts(cfg: Config, i: Instruction): seq<Stmt> {
    ToRd(i, Set(cfg.Holder(i.rd), Hex(Wrap(i.address + 4))))
  }

  function IndexStmt(cfg: Config): Stmt {
    Set(Index, Bin(Quot, Bin(Minus, Get(Pc), Hex(cfg.start)), Dec(4)))
  }

  /** Direct jumps to the predicted targets that are leaders. */
  function Predictions(cfg: Config, targets: seq<Word>): seq<Stmt> {
    if targets == [] then []
    else (if targets[0] in cfg.leaders then [IfGoto(Bin(Equal, Get(Pc), Hex(targets[0])), targets[0])] else [])
         + Predictions(cfg, targets[1..])
  }

  function PredictedAt(cfg: Config, address: Word): seq<Word> {
    if address in cfg.predicted then cfg.predicted[address] else []
  }

  function IndirectExit(cfg: Config): seq<Stmt> {
    if cfg.chaining then [IndexStmt(cfg), Dispatch] else [Continue]
  }

  function Saves(pins: seq<Register>): seq<Stmt> {
    seq(|pins|, k requires 0 <= k < |pins| => Set(Ctx(pins[k]), Get(Pinned(pins[k]))))
  }

  function Restores(pins: seq<Register>): seq<Stmt> {
    seq(|pins|, k requires 0 <= k < |pins| => Set(Pinned(pins[k]), Get(Ctx(pins[k]))))
  }

  function SaveRegisters(cfg: Config): seq<Stmt> { if cfg.pinRegisters then Saves(cfg.pins) else [] }

  function RestoreRegisters(cfg: Config): seq<Stmt> { if cfg.pinRegisters then Restores(cfg.pins) else [] }

  function OtherBlock(cfg: Config, t: Tracking, i: Instruction): seq<Stmt> {
    var d, a, b := cfg.Holder(i.rd), Operand(cfg, t, i.rs1), Operand(cfg, t, i.rs2);
    match i.op
    case JAL => LinkStmts(cfg, i) + [Goto(DirectTarget(i))]
    case JALR =>
      [Set(Pc, Bin(Plus, Decimal(i.imm), a))] + LinkStmts(cfg, i)
      + Predictions(cfg, PredictedAt(cfg, i.address)) + IndirectExit(cfg)
    case LUI => ToRd(i, Set(d, Decimal(Shift12(i.imm))))
    case AUIPC => ToRd(i, Set(d, Bin(Plus, Hex(i.address), HexSigned(Shift12(i.imm)))))
    case ECALL =>
      SaveRegisters(cfg) + [Call(if t.known[A7] then Some(t.value[A7]) else None)] + RestoreRegisters(cfg)
    case LR_W => ToRd(i, Set(d, Read(4, false, a)))
    case SC_W => [WriteMem(4, a, b)] + ToRd(i, Set(d, Dec(0)))
    case INVALID => SaveRegisters(cfg) + [Print] + RestoreRegisters(cfg)
    case _ => []
  }

  /** The statements of one instruction, after its label. */
  function Block(cfg: Config, t: Tracking, i: Instruction): seq<Stmt> {
    match ClassOf(i.op)
    case Computing => ToRd(i, ComputeStmt(cfg, t, i))
    case ComputingImmediate => ToRd(i, ComputeImmediateStmt(cfg, t, i))
    case Loading => [AddressStmt(cfg, t, i)] + ToRd(i, Set(cfg.Holder(i.rd), LoadExpr(i.op)))
    case Storing => [AddressStmt(cfg, t, i), WriteMem(AccessSize(i.op), Get(Address), Operand(cfg, t, i.rs2))]
    case Branching => [IfGoto(BranchTest(i.op, Operand(cfg, t, i.rs1), Operand(cfg, t, i.rs2)), DirectTarget(i))]
    case Other => OtherBlock(cfg, t, i)
  }

  /** Tracking after one instruction. */
  function After(t: Tracking, i: Instruction): Tracking {
    if IsStore(i.op) || IsBranch(i.op) || i.op in {EBREAK, FENCE, INVALID} then t
    else if i.op == ECALL then Forget(t, A0)
    else if i.op == ADDI && i.imm != 0 && i.rs1 == 0 then Learn(t, i.rd, Wrap(i.imm))
    else Forget(t, i.rd)
  }

  // ---- the whole program ----

  /** Tracking is dropped where control can enter from elsewhere. */
  function Entry(cfg: Config, t: Tracking, i: Instruction): Tracking {
    if i.address in cfg.leaders then Reset(t) else t
  }

  function Labelled(cfg: Config, t: Tracking, i: Instruction): seq<Stmt> {
    (if i.address in cfg.leaders then [Label(i.address)] else []) + Block(cfg, Entry(cfg, t, i), i)
  }

  function NothingKnown(): Tracking { Track(seq(32, _ => false), seq(32, _ => 0)) }

  /** Tracking when instruction n is reached in emission order. */
  function TrackAt(cfg: Config, instrs: seq<Instruction>, n: nat): Tracking
    requires n <= |instrs|
  {
    if n == 0 then NothingKnown()
    else After(Entry(cfg, TrackAt(cfg, instrs, n - 1), instrs[n - 1]), instrs[n - 1])
  }

  /** The code of the first n instructions. */
  function BodyUpTo(cfg: Config, instrs: seq<Instruction>, n: nat): seq<Stmt>
    requires n <= |instrs|
  {
    if n == 0 then []
    else BodyUpTo(cfg, instrs, n - 1) + Labelled(cfg, TrackAt(cfg, instrs, n - 1), instrs[n - 1])
  }

  /** Register load and dispatch loop head. */
  function Prologue(cfg: Config): seq<Stmt> { RestoreRegisters(cfg) + [IndexStmt(cfg), Dispatch] }

  function ExitBlock(cfg: Config): seq<Stmt> { [ExitLabel] + SaveRegisters(cfg) + [Print, Leave] }

  /** The fallback block closes the dispatch loop. */
  function FallbackBlock(cfg: Config): seq<Stmt> {
    [InvalidLabel] + SaveRegisters(cfg) + [Fallback] + RestoreRegisters(cfg) + [Continue]
  }

  function Code(cfg: Config, instrs: seq<Instruction>): seq<Stmt> {
    Prologue(cfg) + BodyUpTo(cfg, instrs, |instrs|) + ExitBlock(cfg) + FallbackBlock(cfg)
  }

  /** One dispatch slot per instruction: its label if it is a leader, the fallback otherwise;
      one more slot, for the address just past the text, leaves the program. */
  function Slots(cfg: Config, count: nat): seq<Stmt>
    requires cfg.start + 4 * count <= MEMORY_SIZE
  {
    seq(count, k requires 0 <= k < count => if cfg.start + 4 * k in cfg.leaders then Label(cfg.start + 4 * k) else InvalidLabel)
    + [ExitLabel]
  }
}
