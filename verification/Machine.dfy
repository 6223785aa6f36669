/** Guest machine state and the meaning of one decoded instruction. */
module Machine {
  import opened Words
  import opened Isa

  const DATA_SIZE := 0x8_0000
  const MMAP_SIZE := 0x8_0000
  const MEMORY_SIZE := DATA_SIZE + MMAP_SIZE

  const A0: Register := 10
  const A7: Register := 17

  type Regs = r: seq<Word> | |r| == 32 witness seq(32, _ => 0)
  type Mem = m: seq<Byte> | |m| == MEMORY_SIZE witness seq(MEMORY_SIZE, _ => 0)

  /** Everything outside the guest.  The host's answers may depend on it in any way, so
      counting the calls made so far already covers a host that answers at random. */
  type World = int
  datatype Reply = Return(a0: Word, mem: Mem, world: World) | Exit(world: World)
  /** Syscall::handle: the number, the registers, memory and host state decide the reply.
      Handlers write memory, host state and register a0, and no other register. */
  type Host = (Word, Regs, Mem, World) -> Reply

  datatype State = State(regs: Regs, pc: Word, mem: Mem, world: World)

  /** `Fault` is undefined behaviour: an access outside the memory array. */
  datatype Outcome<+S> = Next(state: S) | Exited(mem: Mem, world: World) | Fault

  // ---- memory: memcpy of 1, 2 or 4 bytes, least significant byte first ----

  predicate InBounds(a: Word, n: int) { a + n <= MEMORY_SIZE }

  function ByteAt(m: Mem, a: int): (b: int)
    requires 0 <= a < MEMORY_SIZE
    ensures 0 <= b < 256
  {
    m[a]
  }

  function Load(m: Mem, a: Word, n: int): Word
    requires n in {1, 2, 4} && InBounds(a, n)
  {
    if n == 1 then ByteAt(m, a)
    else if n == 2 then ByteAt(m, a) + 0x100 * ByteAt(m, a + 1)
    else ByteAt(m, a) + 0x100 * ByteAt(m, a + 1) + 0x1_0000 * ByteAt(m, a + 2) + 0x100_0000 * ByteAt(m, a + 3)
  }

  function Store(m: Mem, a: Word, n: int, v: Word): Mem
    requires n in {1, 2, 4} && InBounds(a, n)
  {
    if n == 1 then m[a := v % 0x100]
    else if n == 2 then m[a := v % 0x100][a + 1 := v / 0x100 % 0x100]
    else m[a := v % 0x100][a + 1 := v / 0x100 % 0x100][a + 2 := v / 0x1_0000 % 0x100][a + 3 := v / 0x100_0000]
  }

  lemma FourBytes(v: Word)
    ensures v % 0x100 + 0x100 * (v / 0x100 % 0x100) + 0x1_0000 * (v / 0x1_0000 % 0x100) + 0x100_0000 * (v / 0x100_0000) == v
  {
    var b := v / 0x100;
    assert v / 0x1_0000 == b / 0x100 && v / 0x100_0000 == b / 0x1_0000;
  }

  lemma StoredBytes(m: Mem, a: Word, v: Word)
    requires InBounds(a, 4)
    ensures var s := Store(m, a, 4, v);
      s[a] == v % 0x100 && s[a + 1] == v / 0x100 % 0x100 && s[a + 2] == v / 0x1_0000 % 0x100 && s[a + 3] == v / 0x100_0000
  {
  }

  /** A word written is read back. */
  lemma WordRoundTrip(m: Mem, a: Word, v: Word)
    requires InBounds(a, 4)
    ensures Load(Store(m, a, 4, v), a, 4) == v
  {
    hide Store;
    StoredBytes(m, a, v);
    FourBytes(v);
  }

  // ---- arithmetic ----

  /** C++ integer division and remainder truncate toward zero. */
  function TruncDiv(a: int, b: int): int
    requires b != 0
  {
    var q := (if a < 0 then -a else a) / (if b < 0 then -b else b);
    if (a < 0) == (b < 0) then q else -q
  }

  function TruncRem(a: int, b: int): int
    requires b != 0
  {
    a - b * TruncDiv(a, b)
  }

  function Wrap64(x: int): int { x % 0x1_0000_0000_0000_0000 }

  function Truth(b: bool): Word { if b then 1 else 0 }

  datatype Class = Computing | ComputingImmediate | Loading | Storing | Branching | Other

  function ClassOf(op: Op): Class {
    match op
    case ADD | SUB | XOR | OR | AND | SLL | SRL | SRA | SLT | SLTU => Computing
    case MUL | MULH | MULHSU | MULHU | DIV | DIVU | REM | REMU => Computing
    case ADDI | XORI | ORI | ANDI | SLLI | SRLI | SRAI | SLTI | SLTIU => ComputingImmediate
    case LB | LH | LW | LBU | LHU => Loading
    case SB | SH | SW => Storing
    case BEQ | BNE | BLT | BGE | BLTU | BGEU => Branching
    case _ => Other
  }

  predicate IsRegisterOp(op: Op) { ClassOf(op) == Computing }
  predicate IsImmediateOp(op: Op) { ClassOf(op) == ComputingImmediate }
  predicate IsLoad(op: Op) { ClassOf(op) == Loading }
  predicate IsStore(op: Op) { ClassOf(op) == Storing }
  predicate IsBranch(op: Op) { ClassOf(op) == Branching }

  function Shifted(op: Op, a: Word, n: nat): Word
    requires op in {SLL, SRL, SRA}
  {
    if op == SLL then Wrap(a * Pow2(n))
    else if op == SRL then Wrap(a / Pow2(n))
    else Wrap(Signed(a) / Pow2(n))
  }

  function Bits(op: BitOp, a: Word, b: Word): Word {
    BitwiseInRange(op, a, b);
    Bitwise(op, a, b)
  }

  /** Signed overflow of a 32-bit division. */
  predicate Overflows(a: Word, b: Word) { a == 0x8000_0000 && b == 0xFFFF_FFFF }

  function Divided(op: Op, a: Word, b: Word): Word
    requires op in {DIV, DIVU, REM, REMU}
  {
    if b == 0 then (if op == DIV || op == DIVU then 0xFFFF_FFFF else a)
    else if op == DIVU then Wrap(a / b)
    else if op == REMU then a % b
    else if Overflows(a, b) then (if op == DIV then 0x8000_0000 else 0)
    else if op == DIV then Wrap(TruncDiv(Signed(a), Signed(b)))
    else Wrap(TruncRem(Signed(a), Signed(b)))
  }

  function Multiplied(op: Op, a: Word, b: Word): Word
    requires op in {MUL, MULH, MULHSU, MULHU}
  {
    if op == MUL then Wrap(Wrap64(a * b))
    else if op == MULH then Wrap((Signed(a) * Signed(b)) / 0x1_0000_0000)
    else if op == MULHSU then Wrap(Wrap64(Wrap64(Signed(a)) * b) / 0x1_0000_0000)
    else Wrap(Wrap64(a * b) / 0x1_0000_0000)
  }

  function Alu(op: Op, a: Word, b: Word): Word
    requires IsRegisterOp(op)
  {
    if op == ADD then Wrap(a + b)
    else if op == SUB then Wrap(a - b)
    else if op == XOR then Bits(Xor, a, b)
    else if op == OR then Bits(Or, a, b)
    else if op == AND then Bits(And, a, b)
    else if op == SLT then Truth(Signed(a) < Signed(b))
    else if op == SLTU then Truth(a < b)
    else if op in {SLL, SRL, SRA} then Shifted(op, a, b % 32)
    else if op in {MUL, MULH, MULHSU, MULHU} then Multiplied(op, a, b)
    else Divided(op, a, b)
  }

  function RegisterForm(op: Op): (r: Op)
    requires IsImmediateOp(op)
    ensures IsRegisterOp(r)
  {
    match op
    case ADDI => ADD case XORI => XOR case ORI => OR case ANDI => AND
    case SLLI => SLL case SRLI => SRL case SRAI => SRA case SLTI => SLT case SLTIU => SLTU
  }

  function AccessSize(op: Op): (n: int)
    ensures n in {1, 2, 4}
  {
    if op in {LB, LBU, SB} then 1 else if op in {LH, LHU, SH} then 2 else 4
  }

  function Loaded(op: Op, v: Word): Word
    requires IsLoad(op)
  {
    if op == LB && v >= 0x80 then Wrap(v - 0x100)
    else if op == LH && v >= 0x8000 then Wrap(v - 0x1_0000)
    else v
  }

  predicate Taken(op: Op, a: Word, b: Word)
    requires IsBranch(op)
  {
    match op
    case BEQ => a == b
    case BNE => a != b
    case BLT => Signed(a) < Signed(b)
    case BGE => Signed(a) >= Signed(b)
    case BLTU => a < b
    case BGEU => a >= b
  }

  // ---- one instruction ----

  function WithReg(s: State, r: Register, v: Word): State { s.(regs := s.regs[r := v]) }

  /** The tail of every step: advance pc past the instruction and clear x0. */
  function Retire(s: State): State { s.(regs := s.regs[0 := 0], pc := Wrap(s.pc + 4)) }

  function SysCall(s: State, host: Host): Outcome<State> {
    match host(s.regs[A7], s.regs, s.mem, s.world)
    case Return(a0, mem, world) => Next(State(s.regs[A0 := a0], s.pc, mem, world))
    case Exit(world) => Exited(s.mem, world)
  }

  function LoadInto(s: State, rd: Register, op: Op, a: Word): Outcome<State>
    requires IsLoad(op)
  {
    var n := AccessSize(op);
    if InBounds(a, n) then Next(WithReg(s, rd, Loaded(op, Load(s.mem, a, n)))) else Fault
  }

  function WriteTo(s: State, a: Word, n: int, v: Word): Outcome<State>
    requires n in {1, 2, 4}
  {
    if InBounds(a, n) then Next(s.(mem := Store(s.mem, a, n, v))) else Fault
  }

  /** SC.W always succeeds: there are no reservations. */
  function StoreConditional(s: State, rd: Register, a: Word, v: Word): Outcome<State> {
    match WriteTo(s, a, 4, v)
    case Next(t) => Next(WithReg(t, rd, 0))
    case failed => failed
  }

  /** The effect of an instruction before the common tail: jumps leave pc four short of their
      target, and JALR reads rs1 after rd has been overwritten. */
  function Effect(i: Instruction, s: State, host: Host): Outcome<State> {
    var a, b := s.regs[i.rs1], s.regs[i.rs2];
    match ClassOf(i.op)
    case Computing => Next(WithReg(s, i.rd, Alu(i.op, a, b)))
    case ComputingImmediate => Next(WithReg(s, i.rd, Alu(RegisterForm(i.op), a, Wrap(i.imm))))
    case Loading => LoadInto(s, i.rd, i.op, Wrap(a + i.imm))
    case Storing => WriteTo(s, Wrap(a + i.imm), AccessSize(i.op), b)
    case Branching => Next(if Taken(i.op, a, b) then s.(pc := Wrap(s.pc + i.imm - 4)) else s)
    case Other => OtherEffect(i, s, host)
  }

  function OtherEffect(i: Instruction, s: State, host: Host): Outcome<State> {
    var a, b := s.regs[i.rs1], s.regs[i.rs2];
    if i.op == JAL then Next(WithReg(s, i.rd, Wrap(s.pc + 4)).(pc := Wrap(s.pc + i.imm - 4)))
    else if i.op == JALR then
      var t := WithReg(s, i.rd, Wrap(s.pc + 4));
      Next(t.(pc := Wrap(i.imm + t.regs[i.rs1] - 4)))
    else if i.op == LUI then Next(WithReg(s, i.rd, Wrap(i.imm * 0x1000)))
    else if i.op == AUIPC then Next(WithReg(s, i.rd, Wrap(s.pc + i.imm * 0x1000)))
    else if i.op == ECALL then SysCall(s, host)
    else if i.op == LR_W then LoadInto(s, i.rd, LW, a)
    else if i.op == SC_W then StoreConditional(s, i.rd, a, b)
    else Next(s)
  }

  /** One step on a decoded instruction. */
  function Exec(i: Instruction, s: State, host: Host): Outcome<State> {
    match Effect(i, s, host)
    case Next(t) => Next(Retire(t))
    case failed => failed
  }

  // ---- the effect, case by case ----

  lemma EffectByClass(i: Instruction, s: State, host: Host)
    ensures var a, b, e := s.regs[i.rs1], s.regs[i.rs2], Effect(i, s, host);
      && (ClassOf(i.op) == Computing ==> e == Next(WithReg(s, i.rd, Alu(i.op, a, b))))
      && (ClassOf(i.op) == ComputingImmediate ==> e == Next(WithReg(s, i.rd, Alu(RegisterForm(i.op), a, Wrap(i.imm)))))
      && (ClassOf(i.op) == Loading ==> e == LoadInto(s, i.rd, i.op, Wrap(a + i.imm)))
      && (ClassOf(i.op) == Storing ==> e == WriteTo(s, Wrap(a + i.imm), AccessSize(i.op), b))
      && (ClassOf(i.op) == Branching ==> e == Next(if Taken(i.op, a, b) then s.(pc := Wrap(s.pc + i.imm - 4)) else s))
  {
    hide ClassOf, Alu, RegisterForm, LoadInto, WriteTo, AccessSize, Taken, OtherEffect, Wrap, WithReg;
  }

  lemma OtherClass(op: Op)
    ensures op in {JAL, JALR, LUI, AUIPC, ECALL, LR_W, SC_W, EBREAK, FENCE, INVALID} <==> ClassOf(op) == Other
    ensures IsLoad(LW)
  {
  }

  lemma EffectOfJal(i: Instruction, s: State, host: Host)
    requires i.op == JAL
    ensures Effect(i, s, host) == Next(WithReg(s, i.rd, Wrap(s.pc + 4)).(pc := Wrap(s.pc + i.imm - 4)))
  {
    hide Wrap;
  }

  lemma EffectOfJalr(i: Instruction, s: State, host: Host)
    requires i.op == JALR
    ensures Effect(i, s, host) ==
      Next(var t := WithReg(s, i.rd, Wrap(s.pc + 4)); t.(pc := Wrap(i.imm + t.regs[i.rs1] - 4)))
  {
    hide Wrap;
  }

  lemma EffectOfUpper(i: Instruction, s: State, host: Host)
    ensures i.op == LUI ==> Effect(i, s, host) == Next(WithReg(s, i.rd, Wrap(i.imm * 0x1000)))
    ensures i.op == AUIPC ==> Effect(i, s, host) == Next(WithReg(s, i.rd, Wrap(s.pc + i.imm * 0x1000)))
  {
    hide ClassOf, LoadInto, WriteTo, SysCall, Wrap, WithReg;
    OtherClass(i.op);
  }

  lemma EffectOfSystem(i: Instruction, s: State, host: Host)
    ensures var e := Effect(i, s, host);
      && (i.op == ECALL ==> e == SysCall(s, host))
      && (i.op == LR_W ==> e == LoadInto(s, i.rd, LW, s.regs[i.rs1]))
      && (i.op == SC_W ==> e == StoreConditional(s, i.rd, s.regs[i.rs1], s.regs[i.rs2]))
      && (i.op in {EBREAK, FENCE, INVALID} ==> e == Next(s))
  {
    hide ClassOf, LoadInto, WriteTo, Wrap, WithReg, SysCall;
    OtherClass(i.op);
  }

  // ---- what an instruction writes ----

  predicate WritesNothing(op: Op) { IsStore(op) || IsBranch(op) || op in {EBREAK, FENCE, INVALID} }

  /** The one register an instruction may write: a0 for a system call, rd for all others. */
  function Destination(i: Instruction): Register { if i.op == ECALL then A0 else i.rd }

  ghost predicate Touches(i: Instruction, s: State, u: State) {
    forall r: Register :: WritesNothing(i.op) || r != Destination(i) ==> u.regs[r] == s.regs[r]
  }

  lemma OtherTouches(i: Instruction, s: State, host: Host)
    requires ClassOf(i.op) == Other && Effect(i, s, host).Next?
    ensures Touches(i, s, Effect(i, s, host).state)
  {
    hide Effect, ClassOf, Load, Loaded, Store, Wrap;
    OtherClass(i.op);
    EffectOfUpper(i, s, host);
    EffectOfSystem(i, s, host);
    if i.op == JAL {
      EffectOfJal(i, s, host);
    } else if i.op == JALR {
      EffectOfJalr(i, s, host);
    }
  }

  /** No instruction writes a register other than its destination. */
  lemma EffectTouches(i: Instruction, s: State, host: Host)
    requires Effect(i, s, host).Next?
    ensures Touches(i, s, Effect(i, s, host).state)
  {
    hide Effect, ClassOf, Load, Loaded, Store, Wrap, Alu, RegisterForm, Taken, AccessSize;
    OtherClass(i.op);
    EffectByClass(i, s, host);
    if ClassOf(i.op) == Other {
      OtherTouches(i, s, host);
    }
  }
}
