/** The interpreter engines.  Each works in place on the guest context, one C++ statement at
    a time; the contracts tie all of them to the one meaning in `Machine.Exec`. */
module Interpreter {
  import opened Words
  import opened Isa
  import opened Machine

  datatype Status = Running | Stopped | Faulted

  /** What an outcome looks like from outside: a status and, unless it is a fault, a state. */
  ghost predicate Shows(status: Status, view: State, o: Outcome<State>) {
    match o
    case Next(t) => status == Running && view == t
    case Exited(mem, world) => status == Stopped && view.mem == mem && view.world == world
    case Fault => status == Faulted
  }

  lemma ShiftAmount(w: Word)
    ensures Wrap(IImm(w)) % 32 == Rs2(w)
  {
    hide IImm;
    Powers();
    IImmIsField(w);
  }

  lemma EcallTest(w: Word)
    ensures IImm(w) == 0 <==> w / 0x10_0000 == 0
  {
    hide IImm;
    Powers();
    IImmIsField(w);
  }

  // ---- the chained-if engine ----

  method ChainImmediate(w: Word, a: Word) returns (handled: bool, value: Word)
    ensures handled == IsImmediateOp(Kind(w))
    ensures handled ==> value == Alu(RegisterForm(Kind(w)), a, Wrap(IImm(w)))
  {
    hide Opcode, Funct3, Funct7, Funct5, Rs2, IImm, Bitwise, Signed, Pow2, Wrap, Multiplied, Divided;
    ShiftAmount(w);
    SignedWrap(IImm(w));
    WrapSum(a, IImm(w));
    var op, funct3 := Opcode(w), Funct3(w);
    handled, value := true, 0;
    if op == 0x13 && funct3 == 0x0 {
      value := Wrap(a + IImm(w));
    } else if op == 0x13 && funct3 == 0x4 {
      value := Bits(Xor, a, Wrap(IImm(w)));
    } else if op == 0x13 && funct3 == 0x6 {
      value := Bits(Or, a, Wrap(IImm(w)));
    } else if op == 0x13 && funct3 == 0x7 {
      value := Bits(And, a, Wrap(IImm(w)));
    } else if op == 0x13 && funct3 == 0x1 && Funct7(w) == 0x00 {
      value := Wrap(a * Pow2(Rs2(w)));
    } else if op == 0x13 && funct3 == 0x5 && Funct7(w) == 0x00 {
      value := Wrap(a / Pow2(Rs2(w)));
    } else if op == 0x13 && funct3 == 0x5 && Funct7(w) == 0x20 {
      value := Wrap(Signed(a) / Pow2(Rs2(w)));
    } else if op == 0x13 && funct3 == 0x2 {
      value := Truth(Signed(a) < IImm(w));
    } else if op == 0x13 && funct3 == 0x3 {
      value := Truth(a < Wrap(IImm(w)));
    } else {
      handled := false;
    }
  }

  method ChainRegister(w: Word, a: Word, b: Word) returns (handled: bool, value: Word)
    ensures handled == (IsRegisterOp(Kind(w)) && Funct7(w) != 1)
    ensures handled ==> value == Alu(Kind(w), a, b)
  {
    hide Opcode, Funct3, Funct7, Funct5, Bitwise, Signed, Pow2, Wrap;
    var op, funct3, funct7 := Opcode(w), Funct3(w), Funct7(w);
    handled, value := true, 0;
    if op == 0x33 && funct3 == 0x0 && funct7 == 0x00 {
      value := Wrap(a + b);
    } else if op == 0x33 && funct3 == 0x0 && funct7 == 0x20 {
      value := Wrap(a - b);
    } else if op == 0x33 && funct3 == 0x4 && funct7 == 0x00 {
      value := Bits(Xor, a, b);
    } else if op == 0x33 && funct3 == 0x6 && funct7 == 0x00 {
      value := Bits(Or, a, b);
    } else if op == 0x33 && funct3 == 0x7 && funct7 == 0x00 {
      value := Bits(And, a, b);
    } else if op == 0x33 && funct3 == 0x1 && funct7 == 0x00 {
      value := Wrap(a * Pow2(b % 32));
    } else if op == 0x33 && funct3 == 0x5 && funct7 == 0x00 {
      value := Wrap(a / Pow2(b % 32));
    } else if op == 0x33 && funct3 == 0x5 && funct7 == 0x20 {
      value := Wrap(Signed(a) / Pow2(b % 32));
    } else if op == 0x33 && funct3 == 0x2 && funct7 == 0x00 {
      value := Truth(Signed(a) < Signed(b));
    } else if op == 0x33 && funct3 == 0x3 && funct7 == 0x00 {
      value := Truth(a < b);
    } else {
      handled := false;
    }
  }

  method ChainMulDiv(w: Word, a: Word, b: Word) returns (handled: bool, value: Word)
    ensures handled == (IsRegisterOp(Kind(w)) && Funct7(w) == 1)
    ensures handled ==> value == Alu(Kind(w), a, b)
  {
    hide Opcode, Funct3, Funct7, Funct5, Signed, Wrap, Wrap64, TruncDiv, TruncRem;
    var op, funct3, funct7 := Opcode(w), Funct3(w), Funct7(w);
    handled, value := true, 0;
    if op == 0x33 && funct3 == 0x0 && funct7 == 0x01 {
      value := Wrap(Wrap64(a * b));
    } else if op == 0x33 && funct3 == 0x1 && funct7 == 0x01 {
      value := Wrap((Signed(a) * Signed(b)) / 0x1_0000_0000);
    } else if op == 0x33 && funct3 == 0x2 && funct7 == 0x01 {
      value := Wrap(Wrap64(Wrap64(Signed(a)) * b) / 0x1_0000_0000);
    } else if op == 0x33 && funct3 == 0x3 && funct7 == 0x01 {
      value := Wrap(Wrap64(a * b) / 0x1_0000_0000);
    } else if op == 0x33 && funct3 == 0x4 && funct7 == 0x01 {
      value := DivideSigned(a, b);
    } else if op == 0x33 && funct3 == 0x5 && funct7 == 0x01 {
      value := if b == 0 then 0xFFFF_FFFF else Wrap(a / b);
    } else if op == 0x33 && funct3 == 0x6 && funct7 == 0x01 {
      value := RemainderSigned(a, b);
    } else if op == 0x33 && funct3 == 0x7 && funct7 == 0x01 {
      value := if b == 0 then a else a % b;
    } else {
      handled := false;
    }
  }

  method DivideSigned(a: Word, b: Word) returns (value: Word)
    ensures value == Divided(DIV, a, b)
  {
    hide TruncDiv;
    if b == 0 {
      value := Wrap(-1);
    } else if a == 0x8000_0000 && b == 0xFFFF_FFFF {
      value := 0x8000_0000;
    } else {
      value := Wrap(TruncDiv(Signed(a), Signed(b)));
    }
  }

  method RemainderSigned(a: Word, b: Word) returns (value: Word)
    ensures value == Divided(REM, a, b)
  {
    hide TruncRem;
    if b == 0 {
      value := a;
    } else if a == 0x8000_0000 && b == 0xFFFF_FFFF {
      value := 0;
    } else {
      value := Wrap(TruncRem(Signed(a), Signed(b)));
    }
  }

  method ChainBranch(w: Word, a: Word, b: Word) returns (handled: bool, taken: bool)
    ensures handled == IsBranch(Kind(w))
    ensures handled ==> taken == Taken(Kind(w), a, b)
  {
    hide Opcode, Funct3, Funct7, Funct5, Signed;
    var op, funct3 := Opcode(w), Funct3(w);
    handled, taken := true, false;
    if op == 0x63 && funct3 == 0x0 {
      taken := a == b;
    } else if op == 0x63 && funct3 == 0x1 {
      taken := a != b;
    } else if op == 0x63 && funct3 == 0x4 {
      taken := Signed(a) < Signed(b);
    } else if op == 0x63 && funct3 == 0x5 {
      taken := Signed(a) >= Signed(b);
    } else if op == 0x63 && funct3 == 0x6 {
      taken := a < b;
    } else if op == 0x63 && funct3 == 0x7 {
      taken := a >= b;
    } else {
      handled := false;
    }
  }

  /** memory.read<T>: which signed or unsigned integer of n bytes. */
  function Extend(n: int, signed: bool, v: Word): int {
    if signed && n == 1 && v >= 0x80 then v - 0x100
    else if signed && n == 2 && v >= 0x8000 then v - 0x1_0000
    else if signed && n == 4 then Signed(v)
    else v
  }

  predicate SignedLoad(op: Op) { op == LB || op == LH || op == LW }

  /** Assigning the number read to a register is what the load means. */
  lemma LoadedIsExtended(op: Op, v: Word)
    requires IsLoad(op)
    ensures Loaded(op, v) == Wrap(Extend(AccessSize(op), SignedLoad(op), v))
  {
    WrapShift(Signed(v), 1);
    WrapShift(Signed(v), 0);
  }

  lemma WordIsExtended(v: Word)
    ensures IsLoad(LW) && AccessSize(LW) == 4 && Loaded(LW, v) == Wrap(Extend(4, true, v))
  {
    LoadedIsExtended(LW, v);
  }

  method ChainLoadType(w: Word) returns (handled: bool, n: int, signed: bool)
    ensures handled == IsLoad(Kind(w))
    ensures handled ==> n == AccessSize(Kind(w)) && signed == SignedLoad(Kind(w))
  {
    hide Opcode, Funct3, Funct7, Funct5;
    var opcode, funct3 := Opcode(w), Funct3(w);
    handled, n, signed := true, 0, false;
    if opcode == 0x03 && funct3 == 0x0 {
      n, signed := 1, true;
    } else if opcode == 0x03 && funct3 == 0x4 {
      n, signed := 1, false;
    } else if opcode == 0x03 && funct3 == 0x1 {
      n, signed := 2, true;
    } else if opcode == 0x03 && funct3 == 0x5 {
      n, signed := 2, false;
    } else if opcode == 0x03 && funct3 == 0x2 {
      n, signed := 4, true;
    } else {
      handled := false;
    }
  }

  method ChainStoreSize(w: Word) returns (handled: bool, n: int)
    ensures handled == IsStore(Kind(w))
    ensures handled ==> n == AccessSize(Kind(w))
  {
    hide Opcode, Funct3, Funct7, Funct5;
    var opcode, funct3 := Opcode(w), Funct3(w);
    handled, n := true, 0;
    if opcode == 0x23 && funct3 == 0x0 {
      n := 1;
    } else if opcode == 0x23 && funct3 == 0x1 {
      n := 2;
    } else if opcode == 0x23 && funct3 == 0x2 {
      n := 4;
    } else {
      handled := false;
    }
  }

  // ---- the nested-switch engine ----

  method SwitchImmediate(w: Word, a: Word) returns (handled: bool, value: Word)
    requires Opcode(w) == 0x13
    ensures handled == (Kind(w) != INVALID)
    ensures handled ==> IsImmediateOp(Kind(w)) && value == Alu(RegisterForm(Kind(w)), a, Wrap(IImm(w)))
  {
    hide Opcode, Funct3, Funct7, Funct5, Rs2, IImm, Bitwise, Signed, Pow2, Wrap, Multiplied, Divided;
    ShiftAmount(w);
    SignedWrap(IImm(w));
    WrapSum(a, IImm(w));
    handled, value := true, 0;
    match Funct3(w)
    case 0 => value := Wrap(a + IImm(w));
    case 1 =>
      if Funct7(w) == 0x00 {
        value := Wrap(a * Pow2(Rs2(w)));
      } else {
        handled := false;
      }
    case 2 => value := Truth(Signed(a) < IImm(w));
    case 3 => value := Truth(a < Wrap(IImm(w)));
    case 4 => value := Bits(Xor, a, Wrap(IImm(w)));
    case 5 =>
      if Funct7(w) == 0x00 {
        value := Wrap(a / Pow2(Rs2(w)));
      } else if Funct7(w) == 0x20 {
        value := Wrap(Signed(a) / Pow2(Rs2(w)));
      } else {
        handled := false;
      }
    case 6 => value := Bits(Or, a, Wrap(IImm(w)));
    case _ => value := Bits(And, a, Wrap(IImm(w)));
  }

  method SwitchRegister(w: Word, a: Word, b: Word) returns (handled: bool, value: Word)
    requires Opcode(w) == 0x33
    ensures handled == (Kind(w) != INVALID)
    ensures handled ==> IsRegisterOp(Kind(w)) && value == Alu(Kind(w), a, b)
  {
    hide Opcode, Funct3, Funct7, Funct5, Bitwise, Signed, Pow2, Wrap, Wrap64, Divided;
    var funct3, funct7 := Funct3(w), Funct7(w);
    handled, value := true, 0;
    match funct3
    case 0 =>
      if funct7 == 0x00 {
        value := Wrap(a + b);
      } else if funct7 == 0x20 {
        value := Wrap(a - b);
      } else if funct7 == 0x01 {
        value := Wrap(Wrap64(a * b));
      } else {
        handled := false;
      }
    case 1 =>
      if funct7 == 0x00 {
        value := Wrap(a * Pow2(b % 32));
      } else if funct7 == 0x01 {
        value := Wrap((Signed(a) * Signed(b)) / 0x1_0000_0000);
      } else {
        handled := false;
      }
    case 2 =>
      if funct7 == 0x00 {
        value := Truth(Signed(a) < Signed(b));
      } else if funct7 == 0x01 {
        value := Wrap(Wrap64(Wrap64(Signed(a)) * b) / 0x1_0000_0000);
      } else {
        handled := false;
      }
    case 3 =>
      if funct7 == 0x00 {
        value := Truth(a < b);
      } else if funct7 == 0x01 {
        value := Wrap(Wrap64(a * b) / 0x1_0000_0000);
      } else {
        handled := false;
      }
    case _ => handled, value := SwitchRegisterHigh(w, a, b);
  }

  method SwitchRegisterHigh(w: Word, a: Word, b: Word) returns (handled: bool, value: Word)
    requires Opcode(w) == 0x33 && Funct3(w) >= 4
    ensures handled == (Kind(w) != INVALID)
    ensures handled ==> IsRegisterOp(Kind(w)) && value == Alu(Kind(w), a, b)
  {
    hide Opcode, Funct3, Funct7, Funct5, Bitwise, Signed, Pow2, Wrap;
    var funct3, funct7 := Funct3(w), Funct7(w);
    handled, value := true, 0;
    match funct3
    case 4 =>
      if funct7 == 0x00 {
        value := Bits(Xor, a, b);
      } else if funct7 == 0x01 {
        value := DivideSigned(a, b);
      } else {
        handled := false;
      }
    case 5 =>
      if funct7 == 0x00 {
        value := Wrap(a / Pow2(b % 32));
      } else if funct7 == 0x20 {
        value := Wrap(Signed(a) / Pow2(b % 32));
      } else if funct7 == 0x01 {
        value := if b == 0 then 0xFFFF_FFFF else Wrap(a / b);
      } else {
        handled := false;
      }
    case 6 =>
      if funct7 == 0x00 {
        value := Bits(Or, a, b);
      } else if funct7 == 0x01 {
        value := RemainderSigned(a, b);
      } else {
        handled := false;
      }
    case _ =>
      if funct7 == 0x00 {
        value := Bits(And, a, b);
      } else if funct7 == 0x01 {
        value := if b == 0 then a else a % b;
      } else {
        handled := false;
      }
  }

  method SwitchBranch(w: Word, a: Word, b: Word) returns (taken: bool)
    requires Opcode(w) == 0x63
    ensures Kind(w) == INVALID ==> !taken
    ensures Kind(w) != INVALID ==> IsBranch(Kind(w)) && taken == Taken(Kind(w), a, b)
  {
    hide Opcode, Funct3, Funct7, Funct5, Signed;
    taken := false;
    match Funct3(w)
    case 0 => taken := a == b;
    case 1 => taken := a != b;
    case 4 => taken := Signed(a) < Signed(b);
    case 5 => taken := Signed(a) >= Signed(b);
    case 6 => taken := a < b;
    case 7 => taken := a >= b;
    case _ =>
  }

  method SwitchLoadType(w: Word) returns (n: int, signed: bool)
    requires Opcode(w) == 0x03
    ensures Kind(w) == INVALID <==> n == 0
    ensures n != 0 ==> IsLoad(Kind(w)) && n == AccessSize(Kind(w)) && signed == SignedLoad(Kind(w))
  {
    hide Opcode, Funct3, Funct7, Funct5;
    n, signed := 0, false;
    match Funct3(w)
    case 0 => n, signed := 1, true;
    case 1 => n, signed := 2, true;
    case 2 => n, signed := 4, true;
    case 4 => n, signed := 1, false;
    case 5 => n, signed := 2, false;
    case _ =>
  }

  method SwitchStoreSize(w: Word) returns (n: int)
    requires Opcode(w) == 0x23
    ensures Kind(w) == INVALID <==> n == 0
    ensures n != 0 ==> IsStore(Kind(w)) && n == AccessSize(Kind(w))
  {
    hide Opcode, Funct3, Funct7, Funct5;
    n := 0;
    match Funct3(w)
    case 0 => n := 1;
    case 1 => n := 2;
    case 2 => n := 4;
    case _ =>
  }

  /** The JALR case has no `break` when funct3 is nonzero and runs on into LUI. */
  predicate FallsIntoLui(w: Word) { Opcode(w) == 0x67 && Funct3(w) != 0 }

  /** Only the switch engine asks for funct3 == 0 before it makes a system call. */
  predicate SkipsCall(w: Word) { Opcode(w) == 0x73 && w / 0x10_0000 == 0 && Funct3(w) != 0 }

  /** The meaning of a raw word to the switch engine. */
  function SwitchEffect(w: Word, s: State, host: Host): Outcome<State> {
    if FallsIntoLui(w) then Next(WithReg(s, Rd(w), Wrap(UImm(w) * 0x1000)))
    else if SkipsCall(w) then Next(s)
    else Effect(Decode(w, s.pc), s, host)
  }

  function SwitchExec(w: Word, s: State, host: Host): Outcome<State> {
    match SwitchEffect(w, s, host)
    case Next(t) => Next(Retire(t))
    case failed => failed
  }

  // ---- the predecoded engine ----

  method PredecodedRegister(op: Op, a: Word, b: Word) returns (value: Word)
    requires IsRegisterOp(op)
    ensures value == Alu(op, a, b)
  {
    hide Bitwise, Signed, Pow2, Wrap, Wrap64;
    match op
    case ADD => value := Wrap(a + b);
    case SUB => value := Wrap(a - b);
    case XOR => value := Bits(Xor, a, b);
    case OR => value := Bits(Or, a, b);
    case AND => value := Bits(And, a, b);
    case SLL => value := Wrap(a * Pow2(b % 32));
    case SRL => value := Wrap(a / Pow2(b % 32));
    case SRA => value := Wrap(Signed(a) / Pow2(b % 32));
    case SLT => value := Truth(Signed(a) < Signed(b));
    case SLTU => value := Truth(a < b);
    case MUL => value := Wrap(Wrap64(a * b));
    case MULH => value := Wrap((Signed(a) * Signed(b)) / 0x1_0000_0000);
    case MULHSU => value := Wrap(Wrap64(Wrap64(Signed(a)) * b) / 0x1_0000_0000);
    case MULHU => value := Wrap(Wrap64(a * b) / 0x1_0000_0000);
    case DIV => value := DivideSigned(a, b);
    case DIVU => value := if b == 0 then 0xFFFF_FFFF else Wrap(a / b);
    case REM => value := RemainderSigned(a, b);
    case REMU => value := if b == 0 then a else a % b;
  }

  method PredecodedImmediate(op: Op, a: Word, imm: Int32) returns (value: Word)
    requires IsImmediateOp(op)
    ensures value == Alu(RegisterForm(op), a, Wrap(imm))
  {
    hide Bitwise, Signed, Pow2, Wrap;
    SignedWrap(imm);
    WrapSum(a, imm);
    WrapLow5(imm);
    match op
    case ADDI => value := Wrap(a + imm);
    case XORI => value := Bits(Xor, a, Wrap(imm));
    case ORI => value := Bits(Or, a, Wrap(imm));
    case ANDI => value := Bits(And, a, Wrap(imm));
    case SLLI => value := Wrap(a * Pow2(imm % 32));
    case SRLI => value := Wrap(a / Pow2(imm % 32));
    case SRAI => value := Wrap(Signed(a) / Pow2(imm % 32));
    case SLTI => value := Truth(Signed(a) < imm);
    case SLTIU => value := Truth(a < Wrap(imm));
  }

  method PredecodedLoadType(op: Op) returns (n: int, signed: bool)
    requires IsLoad(op)
    ensures n == AccessSize(op) && signed == SignedLoad(op)
  {
    match op
    case LB => n, signed := 1, true;
    case LH => n, signed := 2, true;
    case LW => n, signed := 4, true;
    case LBU => n, signed := 1, false;
    case LHU => n, signed := 2, false;
  }

  method PredecodedStoreSize(op: Op) returns (n: int)
    requires IsStore(op)
    ensures n == AccessSize(op)
  {
    match op
    case SB => n := 1;
    case SH => n := 2;
    case SW => n := 4;
  }

  method PredecodedBranch(op: Op, a: Word, b: Word) returns (taken: bool)
    requires IsBranch(op)
    ensures taken == Taken(op, a, b)
  {
    hide Signed;
    match op
    case BEQ => taken := a == b;
    case BNE => taken := a != b;
    case BLT => taken := Signed(a) < Signed(b);
    case BGE => taken := Signed(a) >= Signed(b);
    case BLTU => taken := a < b;
    case BGEU => taken := a >= b;
  }

  lemma Formats(op: Op)
    requires HasRow(op)
    ensures IsImmediateOp(op) || IsLoad(op) || op == JALR ==> Row(op).format == I
    ensures IsStore(op) ==> Row(op).format == S
    ensures IsBranch(op) ==> Row(op).format == B
    ensures op == JAL ==> Row(op).format == J
    ensures op == LUI || op == AUIPC ==> Row(op).format == U
  {
  }

  /** What decoding makes of the fields, class by class. */
  lemma DecodedFields(w: Word, address: Word)
    ensures var d, op := Decode(w, address), Kind(w);
      && d.op == op
      && (op != INVALID ==> d.rd == Rd(w) && d.rs1 == Rs1(w) && d.rs2 == Rs2(w) && d.word == w)
      && (IsImmediateOp(op) || IsLoad(op) || op == JALR ==> d.imm == IImm(w))
      && (IsStore(op) ==> d.imm == SImm(w))
      && (IsBranch(op) ==> d.imm == BImm(w))
      && (op == JAL ==> d.imm == JImm(w))
      && (op == LUI || op == AUIPC ==> d.imm == UImm(w))
  {
    hide Kind, Row, ClassOf, IImm, SImm, BImm, JImm, UImm, Rd, Rs1, Rs2;
    KindHasNoFence(w);
    OtherClass(Kind(w));
    if HasRow(Kind(w)) {
      Formats(Kind(w));
    }
  }

  // The effect of a raw word, in terms of its fields.

  lemma WordComputes(w: Word, s: State, host: Host)
    ensures ClassOf(Kind(w)) == Computing ==>
      Effect(Decode(w, s.pc), s, host) == Next(WithReg(s, Rd(w), Alu(Kind(w), s.regs[Rs1(w)], s.regs[Rs2(w)])))
    ensures ClassOf(Kind(w)) == ComputingImmediate ==>
      Effect(Decode(w, s.pc), s, host) == Next(WithReg(s, Rd(w), Alu(RegisterForm(Kind(w)), s.regs[Rs1(w)], Wrap(IImm(w)))))
  {
    hide Decode, Effect, Kind, ClassOf, Alu, RegisterForm, LoadInto, WriteTo, SysCall, AccessSize, Taken, Wrap,
      Rd, Rs1, Rs2, IImm, SImm, BImm, JImm, UImm;
    DecodedFields(w, s.pc);
    OtherClass(Kind(w));
    EffectByClass(Decode(w, s.pc), s, host);
  }

  lemma WordLoads(w: Word, s: State, host: Host)
    ensures ClassOf(Kind(w)) == Loading ==>
      Effect(Decode(w, s.pc), s, host) == LoadInto(s, Rd(w), Kind(w), Wrap(s.regs[Rs1(w)] + IImm(w)))
  {
    hide Decode, Effect, Kind, ClassOf, Alu, RegisterForm, LoadInto, WriteTo, SysCall, AccessSize, Taken, Wrap,
      Rd, Rs1, Rs2, IImm, SImm, BImm, JImm, UImm;
    DecodedFields(w, s.pc);
    OtherClass(Kind(w));
    EffectByClass(Decode(w, s.pc), s, host);
  }

  lemma WordStores(w: Word, s: State, host: Host)
    ensures ClassOf(Kind(w)) == Storing ==>
      Effect(Decode(w, s.pc), s, host) ==
      WriteTo(s, Wrap(s.regs[Rs1(w)] + SImm(w)), AccessSize(Kind(w)), s.regs[Rs2(w)])
  {
    hide Decode, Effect, Kind, ClassOf, Alu, RegisterForm, LoadInto, WriteTo, SysCall, AccessSize, Taken, Wrap,
      Rd, Rs1, Rs2, IImm, SImm, BImm, JImm, UImm;
    DecodedFields(w, s.pc);
    OtherClass(Kind(w));
    EffectByClass(Decode(w, s.pc), s, host);
  }

  lemma WordBranches(w: Word, s: State, host: Host)
    ensures ClassOf(Kind(w)) == Branching ==>
      Effect(Decode(w, s.pc), s, host) ==
      Next(if Taken(Kind(w), s.regs[Rs1(w)], s.regs[Rs2(w)]) then s.(pc := Wrap(s.pc + BImm(w) - 4)) else s)
  {
    hide Decode, Effect, Kind, ClassOf, Alu, RegisterForm, LoadInto, WriteTo, SysCall, AccessSize, Taken, Wrap,
      Rd, Rs1, Rs2, IImm, SImm, BImm, JImm, UImm;
    DecodedFields(w, s.pc);
    OtherClass(Kind(w));
    EffectByClass(Decode(w, s.pc), s, host);
  }

  lemma WordJal(w: Word, s: State, host: Host)
    requires Kind(w) == JAL
    ensures Effect(Decode(w, s.pc), s, host) ==
      Next(WithReg(s, Rd(w), Wrap(s.pc + 4)).(pc := Wrap(s.pc + JImm(w) - 4)))
  {
    hide Decode, Effect, Kind, ClassOf, Alu, RegisterForm, LoadInto, WriteTo, SysCall, AccessSize, Taken, Wrap,
      Rd, Rs1, Rs2, IImm, SImm, BImm, JImm, UImm;
    DecodedFields(w, s.pc);
    EffectOfJal(Decode(w, s.pc), s, host);
  }

  lemma WordJalr(w: Word, s: State, host: Host)
    requires Kind(w) == JALR
    ensures Effect(Decode(w, s.pc), s, host) ==
      Next(var t := WithReg(s, Rd(w), Wrap(s.pc + 4)); t.(pc := Wrap(IImm(w) + t.regs[Rs1(w)] - 4)))
  {
    hide Decode, Effect, Kind, ClassOf, Alu, RegisterForm, LoadInto, WriteTo, SysCall, AccessSize, Taken, Wrap,
      Rd, Rs1, Rs2, IImm, SImm, BImm, JImm, UImm;
    DecodedFields(w, s.pc);
    EffectOfJalr(Decode(w, s.pc), s, host);
  }

  lemma WordUppers(w: Word, s: State, host: Host)
    ensures var e := Effect(Decode(w, s.pc), s, host);
      && (Kind(w) == LUI ==> e == Next(WithReg(s, Rd(w), Wrap(UImm(w) * 0x1000))))
      && (Kind(w) == AUIPC ==> e == Next(WithReg(s, Rd(w), Wrap(s.pc + UImm(w) * 0x1000))))
  {
    hide Decode, Effect, Kind, ClassOf, Alu, RegisterForm, LoadInto, WriteTo, SysCall, AccessSize, Taken, Wrap,
      Rd, Rs1, Rs2, IImm, SImm, BImm, JImm, UImm;
    DecodedFields(w, s.pc);
    EffectOfUpper(Decode(w, s.pc), s, host);
  }

  lemma WordSystem(w: Word, s: State, host: Host)
    ensures var e := Effect(Decode(w, s.pc), s, host);
      && (Kind(w) == ECALL ==> e == SysCall(s, host))
      && (Kind(w) == LR_W ==> e == LoadInto(s, Rd(w), LW, s.regs[Rs1(w)]))
      && (Kind(w) == SC_W ==> e == StoreConditional(s, Rd(w), s.regs[Rs1(w)], s.regs[Rs2(w)]))
      && (Kind(w) in {EBREAK, FENCE, INVALID} ==> e == Next(s))
  {
    hide Decode, Effect, Kind, ClassOf, Alu, RegisterForm, LoadInto, WriteTo, SysCall, AccessSize, Taken, Wrap,
      Rd, Rs1, Rs2, IImm, SImm, BImm, JImm, UImm;
    DecodedFields(w, s.pc);
    EffectOfSystem(Decode(w, s.pc), s, host);
  }

  lemma WordInvalid(w: Word, s: State, host: Host)
    requires Kind(w) == INVALID || Kind(w) == EBREAK
    ensures Effect(Decode(w, s.pc), s, host) == Next(s)
  {
    hide Decode, Effect, Kind, WriteTo, LoadInto, SysCall, Wrap, Rd, Rs1, Rs2, IImm, SImm, BImm, JImm, UImm;
    DecodedFields(w, s.pc);
    EffectOfSystem(Decode(w, s.pc), s, host);
  }

  lemma KindsOfOpcode(w: Word)
    ensures Opcode(w) == 0x17 <==> Kind(w) == AUIPC
    ensures Opcode(w) == 0x37 <==> Kind(w) == LUI
    ensures Opcode(w) !in {0x13, 0x33, 0x03, 0x23, 0x63, 0x6F, 0x67, 0x37, 0x17, 0x73, 0x2F} ==> Kind(w) == INVALID
  {
    hide Opcode, Funct3, Funct7, Funct5;
  }

  lemma AtomicKinds(w: Word)
    requires Opcode(w) == 0x2F
    ensures Kind(w) == LR_W <==> Funct3(w) == 2 && Funct5(w) == 2
    ensures Kind(w) == SC_W <==> Funct3(w) == 2 && Funct5(w) == 3
    ensures Kind(w) in {LR_W, SC_W, INVALID}
  {
    hide Opcode, Funct3, Funct7, Funct5;
  }

  lemma CallKinds(w: Word)
    requires Opcode(w) == 0x73
    ensures Kind(w) == ECALL <==> IImm(w) == 0
    ensures IImm(w) == 0 <==> w / 0x10_0000 == 0
    ensures Kind(w) in {ECALL, EBREAK, INVALID}
  {
    hide Opcode, Funct3, Funct7, Funct5, IImm;
    EcallTest(w);
  }

  lemma JumpTests(w: Word)
    ensures Kind(w) == JAL <==> Opcode(w) == 0x6F
    ensures Kind(w) == JALR <==> Opcode(w) == 0x67 && Funct3(w) == 0
  {
    hide Opcode, Funct3, Funct7, Funct5;
  }

  lemma KindTests(w: Word)
    ensures var op, f3 := Opcode(w), Funct3(w);
      && (Kind(w) == JAL <==> op == 0x6F)
      && (Kind(w) == JALR <==> op == 0x67 && f3 == 0)
      && (Kind(w) == LUI <==> op == 0x37)
      && (Kind(w) == AUIPC <==> op == 0x17)
      && (Kind(w) == ECALL <==> op == 0x73 && IImm(w) == 0)
      && (Kind(w) == LR_W <==> op == 0x2F && f3 == 2 && Funct5(w) == 2)
      && (Kind(w) == SC_W <==> op == 0x2F && f3 == 2 && Funct5(w) == 3)
  {
    hide Opcode, Funct3, Funct7, Funct5, IImm;
    EcallTest(w);
  }

  class Context {
    const reg: array<Word>
    const data: array<Byte>
    var pc: Word
    var world: World

    ghost predicate Valid()
    {
      reg.Length == 32 && data.Length == MEMORY_SIZE && reg as object != data
    }

    ghost function View(): State
      reads this, reg, data
      requires Valid()
    {
      State(reg[..], pc, data[..], world)
    }

    // ---- memory access and system calls, shared by the engines ----

    /** The two statements of JAL. */
    method JumpAndLink(rd: Register, offset: Int32)
      requires Valid()
      modifies this`pc, reg
      ensures View() == WithReg(old(View()), rd, Wrap(old(pc) + 4)).(pc := Wrap(old(pc) + offset - 4))
    {
      hide Wrap;
      reg[rd] := Wrap(pc + 4);
      pc := Wrap(pc + offset - 4);
    }

    /** The two statements of JALR: rd is overwritten before rs1 is read. */
    method JumpRegister(rd: Register, rs1: Register, offset: Int32)
      requires Valid()
      modifies this`pc, reg
      ensures View() == (var t := WithReg(old(View()), rd, Wrap(old(pc) + 4)); t.(pc := Wrap(offset + t.regs[rs1] - 4)))
    {
      hide Wrap;
      reg[rd] := Wrap(pc + 4);
      pc := Wrap(offset + reg[rs1] - 4);
    }

    /** memory.read<T>(address), assigned to a register. */
    method Read(address: Word, n: int, signed: bool) returns (status: Status, value: Word)
      requires Valid() && n in {1, 2, 4}
      ensures status == if InBounds(address, n) then Running else Faulted
      ensures status == Running ==> value == Wrap(Extend(n, signed, Load(data[..], address, n)))
    {
      status, value := Faulted, 0;
      if !InBounds(address, n) { return; }
      status := Running;
      var bytes: int := data[address];
      if n >= 2 {
        var second: int := data[address + 1];
        bytes := bytes + 0x100 * second;
      }
      if n == 4 {
        var third: int, fourth: int := data[address + 2], data[address + 3];
        bytes := bytes + 0x1_0000 * third + 0x100_0000 * fourth;
      }
      value := Wrap(Extend(n, signed, bytes));
    }

    method WriteBytes(address: Word, n: int, value: Word) returns (status: Status)
      requires Valid() && n in {1, 2, 4}
      modifies data
      ensures Shows(status, View(), WriteTo(old(View()), address, n, value))
    {
      if !InBounds(address, n) {
        return Faulted;
      }
      data[address] := value % 0x100;
      if n >= 2 {
        data[address + 1] := value / 0x100 % 0x100;
      }
      if n == 4 {
        data[address + 2] := value / 0x1_0000 % 0x100;
        data[address + 3] := value / 0x100_0000;
      }
      return Running;
    }

    method HandleSyscall(host: Host) returns (status: Status)
      requires Valid()
      modifies this, reg, data
      ensures Shows(status, View(), SysCall(old(View()), host))
    {
      var reply := host(reg[A7], reg[..], data[..], world);
      world := reply.world;
      if reply.Exit? {
        return Stopped;
      }
      forall k | 0 <= k < data.Length {
        data[k] := reply.mem[k];
      }
      reg[A0] := reply.a0;
      assert data[..] == reply.mem;
      return Running;
    }

    // ---- the chained-if engine ----

    method ChainCompute(w: Word, host: Host) returns (handled: bool)
      requires Valid()
      modifies reg
      ensures handled == (ClassOf(Kind(w)) in {Computing, ComputingImmediate})
      ensures handled ==> Next(View()) == Effect(Decode(w, pc), old(View()), host)
      ensures !handled ==> View() == old(View())
    {
      hide Effect, Kind, Decode, Alu, ClassOf, RegisterForm, Funct7, Rd, Rs1, Rs2, IImm, Wrap;
      WordComputes(w, View(), host);
      var a, b := reg[Rs1(w)], reg[Rs2(w)];
      var value;
      handled, value := ChainImmediate(w, a);
      if !handled {
        handled, value := ChainRegister(w, a, b);
      }
      if !handled {
        handled, value := ChainMulDiv(w, a, b);
      }
      if handled {
        reg[Rd(w)] := value;
      }
    }

    method ChainLoad(w: Word, host: Host) returns (handled: bool, status: Status)
      requires Valid()
      modifies reg
      ensures handled == (ClassOf(Kind(w)) == Loading)
      ensures handled ==> Shows(status, View(), Effect(Decode(w, pc), old(View()), host))
      ensures !handled ==> View() == old(View())
    {
      hide Effect, Kind, Decode, ClassOf, Rd, Rs1, IImm, Wrap, Load, Loaded, Extend, AccessSize, SignedLoad;
      WordLoads(w, View(), host);
      var n, signed;
      handled, n, signed := ChainLoadType(w);
      status := Running;
      if handled {
        var address := Wrap(reg[Rs1(w)] + IImm(w));
        var value;
        status, value := Read(address, n, signed);
        if status == Running {
          LoadedIsExtended(Kind(w), Load(data[..], address, n));
          reg[Rd(w)] := value;
        }
      }
    }

    method ChainStore(w: Word, host: Host) returns (handled: bool, status: Status)
      requires Valid()
      modifies data
      ensures handled == (ClassOf(Kind(w)) == Storing)
      ensures handled ==> Shows(status, View(), Effect(Decode(w, pc), old(View()), host))
      ensures !handled ==> View() == old(View())
    {
      hide Effect, Kind, Decode, ClassOf, Rs1, Rs2, SImm, Wrap, WriteTo, AccessSize;
      WordStores(w, View(), host);
      var n;
      handled, n := ChainStoreSize(w);
      status := Running;
      if handled {
        status := WriteBytes(Wrap(reg[Rs1(w)] + SImm(w)), n, reg[Rs2(w)]);
      }
    }

    method ChainBranches(w: Word, host: Host) returns (handled: bool)
      requires Valid()
      modifies this`pc
      ensures handled == (ClassOf(Kind(w)) == Branching)
      ensures handled ==> Next(View()) == Effect(Decode(w, old(pc)), old(View()), host)
      ensures !handled ==> View() == old(View())
    {
      hide Effect, Kind, Decode, ClassOf, Rs1, Rs2, BImm, Wrap, Taken;
      WordBranches(w, View(), host);
      var taken;
      handled, taken := ChainBranch(w, reg[Rs1(w)], reg[Rs2(w)]);
      if handled && taken {
        pc := Wrap(pc + BImm(w) - 4);
      }
    }

    /** The branches of the chain, up to the common tail. */
    method ChainBody(w: Word, host: Host) returns (status: Status)
      requires Valid()
      modifies this, reg, data
      ensures Shows(status, View(), Effect(Decode(w, old(pc)), old(View()), host))
    {
      hide Kind, Decode, Effect, ClassOf;
      status := Running;
      var handled := ChainCompute(w, host);
      if !handled {
        handled, status := ChainLoad(w, host);
      }
      if !handled {
        handled, status := ChainStore(w, host);
      }
      if !handled {
        handled := ChainBranches(w, host);
        status := Running;
      }
      if !handled {
        status := ChainRest(w, host);
      }
    }

    method ChainRest(w: Word, host: Host) returns (status: Status)
      requires Valid()
      requires ClassOf(Kind(w)) == Other
      modifies this, reg, data
      ensures Shows(status, View(), Effect(Decode(w, old(pc)), old(View()), host))
    {
      hide Effect, Kind, Decode, ClassOf;
      OtherClass(Kind(w));
      status := Running;
      var handled := ChainJump(w, host);
      if !handled {
        handled := ChainUpper(w, host);
      }
      if !handled {
        status := ChainSystem(w, host);
      }
    }

    /** Interpreter::runInstruction: the chained-if engine on one raw word. */
    method RunInstruction(w: Word, host: Host) returns (status: Status)
      requires Valid()
      modifies this, reg, data
      ensures Shows(status, View(), Exec(Decode(w, old(pc)), old(View()), host))
    {
      hide Decode, Effect, Wrap;
      status := ChainBody(w, host);
      if status == Running {
        pc := Wrap(pc + 4);
        reg[0] := 0;
      }
    }

    method ChainJump(w: Word, host: Host) returns (handled: bool)
      requires Valid()
      modifies this`pc, reg
      ensures handled == (Kind(w) == JAL || Kind(w) == JALR)
      ensures handled ==> Next(View()) == Effect(Decode(w, old(pc)), old(View()), host)
      ensures !handled ==> View() == old(View())
    {
      hide Effect, Kind, Decode, Opcode, Funct3, Rd, Rs1, IImm, JImm, Wrap;
      JumpTests(w);
      var op, funct3, rs1, rd := Opcode(w), Funct3(w), Rs1(w), Rd(w);
      handled := true;
      if op == 0x6F {
        WordJal(w, View(), host);
        JumpAndLink(rd, JImm(w));
      } else if op == 0x67 && funct3 == 0x0 {
        WordJalr(w, View(), host);
        JumpRegister(rd, rs1, IImm(w));
      } else {
        handled := false;
      }
    }

    method ChainUpper(w: Word, host: Host) returns (handled: bool)
      requires Valid()
      modifies reg
      ensures handled == (Kind(w) == LUI || Kind(w) == AUIPC)
      ensures handled ==> Next(View()) == Effect(Decode(w, pc), old(View()), host)
      ensures !handled ==> View() == old(View())
    {
      hide Effect, Kind, Decode, Opcode, Funct3, Funct5, Rd, UImm, Wrap;
      WordUppers(w, View(), host);
      KindTests(w);
      var op, rd := Opcode(w), Rd(w);
      handled := true;
      if op == 0x37 {
        reg[rd] := Wrap(UImm(w) * 0x1000);
      } else if op == 0x17 {
        reg[rd] := Wrap(pc + UImm(w) * 0x1000);
      } else {
        handled := false;
      }
    }

    method ChainSystem(w: Word, host: Host) returns (status: Status)
      requires Valid()
      requires ClassOf(Kind(w)) == Other && Kind(w) !in {JAL, JALR, LUI, AUIPC}
      modifies this, reg, data
      ensures Shows(status, View(), Effect(Decode(w, old(pc)), old(View()), host))
    {
      hide Effect, Kind, Decode, ClassOf, Loaded, Load, WriteTo, SysCall, Opcode, Funct3, Funct5, Rd, Rs1, Rs2, IImm;
      WordSystem(w, View(), host);
      KindTests(w);
      OtherClass(LW);
      OtherClass(Kind(w));
      var op, funct3, rs1, rs2, rd := Opcode(w), Funct3(w), Rs1(w), Rs2(w), Rd(w);
      status := Running;
      if op == 0x73 && IImm(w) == 0 {
        status := HandleSyscall(host);
      } else if op == 0x2F && funct3 == 0x2 && Funct5(w) == 0x02 {
        var value;
        status, value := Read(reg[rs1], 4, true);
        if status == Running {
          WordIsExtended(Load(data[..], reg[rs1], 4));
          reg[rd] := value;
        }
      } else if op == 0x2F && funct3 == 0x2 && Funct5(w) == 0x03 {
        status := WriteBytes(reg[rs1], 4, reg[rs2]);
        if status == Running {
          reg[rd] := 0;
        }
      }
    }

    // ---- the nested-switch engine ----

    method SwitchCompute(w: Word, host: Host)
      requires Valid() && (Opcode(w) == 0x13 || Opcode(w) == 0x33)
      modifies reg
      ensures Next(View()) == Effect(Decode(w, pc), old(View()), host)
    {
      hide Effect, Kind, Decode, Alu, ClassOf, RegisterForm, Opcode, Rd, Rs1, Rs2, IImm, Wrap;
      var handled, value;
      if Opcode(w) == 0x13 {
        handled, value := SwitchImmediate(w, reg[Rs1(w)]);
      } else {
        handled, value := SwitchRegister(w, reg[Rs1(w)], reg[Rs2(w)]);
      }
      if handled {
        WordComputes(w, View(), host);
        reg[Rd(w)] := value;
      } else {
        WordInvalid(w, View(), host);
      }
    }

    method SwitchLoad(w: Word, host: Host) returns (status: Status)
      requires Valid() && Opcode(w) == 0x03
      modifies reg
      ensures Shows(status, View(), Effect(Decode(w, pc), old(View()), host))
    {
      hide Effect, Kind, Decode, ClassOf, Opcode, Rd, Rs1, IImm, Wrap, Load, Loaded, Extend, AccessSize, SignedLoad;
      var n, signed := SwitchLoadType(w);
      status := Running;
      if n != 0 {
        WordLoads(w, View(), host);
        var address := Wrap(reg[Rs1(w)] + IImm(w));
        var value;
        status, value := Read(address, n, signed);
        if status == Running {
          LoadedIsExtended(Kind(w), Load(data[..], address, n));
          reg[Rd(w)] := value;
        }
      } else {
        WordInvalid(w, View(), host);
      }
    }

    method SwitchStore(w: Word, host: Host) returns (status: Status)
      requires Valid() && Opcode(w) == 0x23
      modifies data
      ensures Shows(status, View(), Effect(Decode(w, pc), old(View()), host))
    {
      hide Effect, Kind, Decode, ClassOf, Opcode, Rs1, Rs2, SImm, Wrap, WriteTo, AccessSize;
      var n := SwitchStoreSize(w);
      status := Running;
      if n != 0 {
        WordStores(w, View(), host);
        status := WriteBytes(Wrap(reg[Rs1(w)] + SImm(w)), n, reg[Rs2(w)]);
      } else {
        WordInvalid(w, View(), host);
      }
    }

    method SwitchBranches(w: Word, host: Host)
      requires Valid() && Opcode(w) == 0x63
      modifies this`pc
      ensures Next(View()) == Effect(Decode(w, old(pc)), old(View()), host)
    {
      hide Effect, Kind, Decode, ClassOf, Opcode, Rs1, Rs2, BImm, Wrap, Taken;
      var taken := SwitchBranch(w, reg[Rs1(w)], reg[Rs2(w)]);
      if Kind(w) == INVALID {
        WordInvalid(w, View(), host);
      } else {
        WordBranches(w, View(), host);
      }
      if taken {
        pc := Wrap(pc + BImm(w) - 4);
      }
    }

    method SwitchJump(w: Word, host: Host)
      requires Valid() && Opcode(w) in {0x6F, 0x67, 0x37}
      modifies this`pc, reg
      ensures Next(View()) == SwitchEffect(w, old(View()), host)
    {
      hide Effect, Kind, Decode, Opcode, Funct3, Rd, Rs1, IImm, JImm, UImm, Wrap;
      JumpTests(w);
      KindsOfOpcode(w);
      if Opcode(w) == 0x6F {
        WordJal(w, View(), host);
        JumpAndLink(Rd(w), JImm(w));
      } else if Opcode(w) == 0x67 && Funct3(w) == 0x0 {
        WordJalr(w, View(), host);
        JumpRegister(Rd(w), Rs1(w), IImm(w));
      } else {
        WordUppers(w, View(), host);
        reg[Rd(w)] := Wrap(UImm(w) * 0x1000);
      }
    }

    method SwitchSystem(w: Word, host: Host) returns (status: Status)
      requires Valid() && Opcode(w) == 0x73
      modifies this, reg, data
      ensures Shows(status, View(), SwitchEffect(w, old(View()), host))
    {
      hide Effect, Kind, Decode, SysCall, LoadInto, WriteTo, Opcode, Funct3, Rd, Rs1, Rs2, IImm;
      CallKinds(w);
      status := Running;
      if Funct3(w) == 0x0 && IImm(w) == 0 {
        WordSystem(w, View(), host);
        status := HandleSyscall(host);
      } else if Kind(w) != ECALL {
        WordInvalid(w, View(), host);
      }
    }

    method SwitchAtomic(w: Word, host: Host) returns (status: Status)
      requires Valid() && Opcode(w) == 0x2F
      modifies reg, data
      ensures Shows(status, View(), Effect(Decode(w, pc), old(View()), host))
    {
      hide Effect, Kind, Decode, SysCall, ClassOf, Loaded, Load, WriteTo, Opcode, Funct3, Funct5, Rd, Rs1, Rs2;
      AtomicKinds(w);
      WordSystem(w, View(), host);
      OtherClass(LW);
      status := Running;
      if Funct3(w) == 0x2 {
        if Funct5(w) == 0x02 {
          var value;
          status, value := Read(reg[Rs1(w)], 4, true);
          if status == Running {
            WordIsExtended(Load(data[..], reg[Rs1(w)], 4));
            reg[Rd(w)] := value;
          }
        } else if Funct5(w) == 0x03 {
          status := WriteBytes(reg[Rs1(w)], 4, reg[Rs2(w)]);
          if status == Running {
            reg[Rd(w)] := 0;
          }
        }
      }
    }

    method SwitchBody(w: Word, host: Host) returns (status: Status)
      requires Valid()
      modifies this, reg, data
      ensures Shows(status, View(), SwitchEffect(w, old(View()), host))
    {
      hide Effect, Kind, Decode, Opcode, Rd, UImm, Wrap;
      status := Running;
      match Opcode(w)
      case 0x13 => SwitchCompute(w, host);
      case 0x33 => SwitchCompute(w, host);
      case 0x03 => status := SwitchLoad(w, host);
      case 0x23 => status := SwitchStore(w, host);
      case 0x63 => SwitchBranches(w, host);
      case 0x6F => SwitchJump(w, host);
      case 0x67 => SwitchJump(w, host);
      case 0x37 => SwitchJump(w, host);
      case 0x73 => status := SwitchSystem(w, host);
      case 0x2F => status := SwitchAtomic(w, host);
      case _ => SwitchDefault(w, host);
    }

    method SwitchDefault(w: Word, host: Host)
      requires Valid() && Opcode(w) !in {0x13, 0x33, 0x03, 0x23, 0x63, 0x6F, 0x67, 0x37, 0x73, 0x2F}
      modifies reg
      ensures Next(View()) == Effect(Decode(w, pc), old(View()), host)
    {
      hide Effect, Kind, Decode, Opcode, Rd, UImm, Wrap;
      KindsOfOpcode(w);
      if Opcode(w) == 0x17 {
        WordUppers(w, View(), host);
        reg[Rd(w)] := Wrap(pc + UImm(w) * 0x1000);
      } else {
        WordInvalid(w, View(), host);
      }
    }

    /** Interpreter::runInstructionSwitch: the nested-switch engine on one raw word. */
    method RunInstructionSwitch(w: Word, host: Host) returns (status: Status)
      requires Valid()
      modifies this, reg, data
      ensures Shows(status, View(), SwitchExec(w, old(View()), host))
    {
      hide SwitchEffect, Wrap;
      status := SwitchBody(w, host);
      if status == Running {
        pc := Wrap(pc + 4);
        reg[0] := 0;
      }
    }

    // ---- the predecoded engine ----

    method PredecodedCompute(i: Instruction, host: Host)
      requires Valid() && ClassOf(i.op) in {Computing, ComputingImmediate}
      modifies reg
      ensures Next(View()) == Effect(i, old(View()), host)
    {
      hide Effect, Alu, ClassOf, RegisterForm, LoadInto, WriteTo, AccessSize, Taken, Wrap;
      EffectByClass(i, View(), host);
      var value;
      if ClassOf(i.op) == Computing {
        value := PredecodedRegister(i.op, reg[i.rs1], reg[i.rs2]);
      } else {
        value := PredecodedImmediate(i.op, reg[i.rs1], i.imm);
      }
      reg[i.rd] := value;
    }

    method PredecodedMemory(i: Instruction, host: Host) returns (status: Status)
      requires Valid() && ClassOf(i.op) in {Loading, Storing}
      modifies reg, data
      ensures Shows(status, View(), Effect(i, old(View()), host))
    {
      hide Effect, Alu, ClassOf, RegisterForm, Load, Loaded, WriteTo, AccessSize, Taken, Wrap, Extend, SignedLoad;
      EffectByClass(i, View(), host);
      var address := Wrap(reg[i.rs1] + i.imm);
      if ClassOf(i.op) == Loading {
        var n, signed := PredecodedLoadType(i.op);
        var value;
        status, value := Read(address, n, signed);
        if status == Running {
          LoadedIsExtended(i.op, Load(data[..], address, n));
          reg[i.rd] := value;
        }
      } else {
        var n := PredecodedStoreSize(i.op);
        status := WriteBytes(address, n, reg[i.rs2]);
      }
    }

    method PredecodedBranches(i: Instruction, host: Host)
      requires Valid() && ClassOf(i.op) == Branching
      modifies this`pc
      ensures Next(View()) == Effect(i, old(View()), host)
    {
      hide Effect, Alu, ClassOf, RegisterForm, LoadInto, WriteTo, AccessSize, Taken, Wrap;
      EffectByClass(i, View(), host);
      var taken := PredecodedBranch(i.op, reg[i.rs1], reg[i.rs2]);
      if taken {
        pc := Wrap(pc + i.imm - 4);
      }
    }

    method PredecodedJump(i: Instruction, host: Host)
      requires Valid() && i.op in {JAL, JALR, LUI, AUIPC}
      modifies this`pc, reg
      ensures Next(View()) == Effect(i, old(View()), host)
    {
      hide Effect, Wrap;
      match i.op
      case JAL =>
        EffectOfJal(i, View(), host);
        JumpAndLink(i.rd, i.imm);
      case JALR =>
        EffectOfJalr(i, View(), host);
        JumpRegister(i.rd, i.rs1, i.imm);
      case LUI =>
        EffectOfUpper(i, View(), host);
        reg[i.rd] := Wrap(i.imm * 0x1000);
      case AUIPC =>
        EffectOfUpper(i, View(), host);
        reg[i.rd] := Wrap(pc + i.imm * 0x1000);
    }

    method PredecodedSystem(i: Instruction, host: Host) returns (status: Status)
      requires Valid() && i.op in {ECALL, LR_W, SC_W, EBREAK, FENCE, INVALID}
      modifies this, reg, data
      ensures Shows(status, View(), Effect(i, old(View()), host))
    {
      hide Effect, ClassOf, Load, Loaded, WriteTo, SysCall, Wrap;
      EffectOfSystem(i, View(), host);
      OtherClass(LW);
      status := Running;
      if i.op == ECALL {
        status := HandleSyscall(host);
      } else if i.op == LR_W {
        var value;
        status, value := Read(reg[i.rs1], 4, true);
        if status == Running {
          WordIsExtended(Load(data[..], reg[i.rs1], 4));
          reg[i.rd] := value;
        }
      } else if i.op == SC_W {
        status := WriteBytes(reg[i.rs1], 4, reg[i.rs2]);
        if status == Running {
          reg[i.rd] := 0;
        }
      }
    }

    method PredecodedBody(i: Instruction, host: Host) returns (status: Status)
      requires Valid()
      modifies this, reg, data
      ensures Shows(status, View(), Effect(i, old(View()), host))
    {
      hide Effect, ClassOf;
      OtherClass(i.op);
      status := Running;
      match ClassOf(i.op)
      case Computing => PredecodedCompute(i, host);
      case ComputingImmediate => PredecodedCompute(i, host);
      case Loading => status := PredecodedMemory(i, host);
      case Storing => status := PredecodedMemory(i, host);
      case Branching => PredecodedBranches(i, host);
      case Other =>
        if i.op in {JAL, JALR, LUI, AUIPC} {
          PredecodedJump(i, host);
        } else {
          status := PredecodedSystem(i, host);
        }
    }

    /** Interpreter::runInstructionPredecoded: one step on a decoded instruction. */
    method RunInstructionPredecoded(i: Instruction, host: Host) returns (status: Status)
      requires Valid()
      modifies this, reg, data
      ensures Shows(status, View(), Exec(i, old(View()), host))
    {
      hide Effect, Wrap;
      status := PredecodedBody(i, host);
      if status == Running {
        pc := Wrap(pc + 4);
        reg[0] := 0;
      }
    }
  }
}
