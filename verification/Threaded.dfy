/** The direct-threaded engine: one handler per label, each of which ends by stepping pc, clearing
    x0 and fetching the next entry of the table, whose handler is then jumped to. */
module Threaded {
  import opened Words
  import opened Isa
  import opened Machine
  import opened Interpreter
  import opened Predecode
  import opened Cpp

  /** The label table: EBREAK, FENCE and INVALID share one label, all others have their own. */
  function LabelOf(op: Op): Op {
    match op
    case EBREAK => INVALID
    case FENCE => INVALID
    case _ => op
  }

  lemma SharedLabel(i: Instruction, s: State, host: Host)
    ensures Exec(i.(op := LabelOf(i.op)), s, host) == Exec(i, s, host)
  {
    hide Effect;
    EffectOfSystem(i, s, host);
    EffectOfSystem(i.(op := INVALID), s, host);
  }

  // ---- what the handlers assign ----

  method RegisterHandler(mark: Op, a: Word, b: Word) returns (value: Word)
    requires IsRegisterOp(mark) && mark !in {MUL, MULH, MULHSU, MULHU, DIV, DIVU, REM, REMU}
    ensures value == Alu(mark, a, b)
  {
    hide Bitwise, Signed, Pow2, Wrap, Multiplied, Divided;
    if mark == ADD {
      value := Wrap(a + b);
    } else if mark == SUB {
      value := Wrap(a - b);
    } else if mark == XOR {
      value := Bits(Xor, a, b);
    } else if mark == OR {
      value := Bits(Or, a, b);
    } else if mark == AND {
      value := Bits(And, a, b);
    } else if mark == SLL {
      value := Wrap(a * Pow2(b % 32));
    } else if mark == SRL {
      value := Wrap(a / Pow2(b % 32));
    } else if mark == SRA {
      var shift := b % 32;
      value := Wrap(Signed(a) / Pow2(shift));
    } else if mark == SLT {
      value := if Signed(a) < Signed(b) then 1 else 0;
    } else {
      value := if a < b then 1 else 0;
    }
  }

  method ProductHandler(mark: Op, a: Word, b: Word) returns (value: Word)
    requires mark in {MUL, MULH, MULHSU, MULHU}
    ensures value == Multiplied(mark, a, b)
  {
    hide Signed, Wrap, Wrap64;
    if mark == MUL {
      value := Wrap(Wrap64(a * b));
    } else if mark == MULH {
      value := Wrap((Signed(a) * Signed(b)) / 0x1_0000_0000);
    } else if mark == MULHSU {
      value := Wrap(Wrap64(Wrap64(Signed(a)) * b) / 0x1_0000_0000);
    } else {
      value := Wrap(Wrap64(a * b) / 0x1_0000_0000);
    }
  }

  method QuotientHandler(mark: Op, a: Word, b: Word) returns (value: Word)
    requires mark in {DIV, DIVU, REM, REMU}
    ensures value == Divided(mark, a, b)
  {
    hide TruncDiv, TruncRem, Wrap;
    if mark == DIV {
      if b == 0 {
        value := 0xFFFF_FFFF;
      } else if a == 0x8000_0000 && b == 0xFFFF_FFFF {
        value := 0x8000_0000;
      } else {
        value := Wrap(TruncDiv(Signed(a), Signed(b)));
      }
    } else if mark == DIVU {
      if b == 0 {
        value := 0xFFFF_FFFF;
      } else {
        value := Wrap(a / b);
      }
    } else if mark == REM {
      if b == 0 {
        value := a;
      } else if a == 0x8000_0000 && b == 0xFFFF_FFFF {
        value := 0;
      } else {
        value := Wrap(TruncRem(Signed(a), Signed(b)));
      }
    } else {
      if b == 0 {
        value := a;
      } else {
        value := a % b;
      }
    }
  }

  lemma AluOfProducts(mark: Op, a: Word, b: Word)
    ensures mark in {MUL, MULH, MULHSU, MULHU} ==> IsRegisterOp(mark) && Alu(mark, a, b) == Multiplied(mark, a, b)
    ensures mark in {DIV, DIVU, REM, REMU} ==> IsRegisterOp(mark) && Alu(mark, a, b) == Divided(mark, a, b)
  {
    hide Multiplied, Divided;
  }

  method ImmediateHandler(mark: Op, a: Word, imm: Int32) returns (value: Word)
    requires IsImmediateOp(mark)
    ensures value == Alu(RegisterForm(mark), a, Wrap(imm))
  {
    hide Bitwise, Signed, Pow2, Wrap, Multiplied, Divided;
    SignedWrap(imm);
    WrapSum(a, imm);
    WrapLow5(imm);
    if mark == ADDI {
      value := Wrap(a + imm);
    } else if mark == XORI {
      value := Bits(Xor, a, Wrap(imm));
    } else if mark == ORI {
      value := Bits(Or, a, Wrap(imm));
    } else if mark == ANDI {
      value := Bits(And, a, Wrap(imm));
    } else if mark == SLLI {
      value := Wrap(a * Pow2(imm % 32));
    } else if mark == SRLI {
      value := Wrap(a / Pow2(imm % 32));
    } else if mark == SRAI {
      var shift := imm % 32;
      value := Wrap(Signed(a) / Pow2(shift));
    } else if mark == SLTI {
      value := if Signed(a) < imm then 1 else 0;
    } else {
      value := if a < Wrap(imm) then 1 else 0;
    }
  }

  method BranchHandler(mark: Op, a: Word, b: Word) returns (taken: bool)
    requires IsBranch(mark)
    ensures taken == Taken(mark, a, b)
  {
    hide Signed;
    if mark == BEQ {
      taken := a == b;
    } else if mark == BNE {
      taken := a != b;
    } else if mark == BLT {
      taken := Signed(a) < Signed(b);
    } else if mark == BGE {
      taken := Signed(a) >= Signed(b);
    } else if mark == BLTU {
      taken := a < b;
    } else {
      taken := a >= b;
    }
  }

  /** The T of memory.read<T>. */
  method LoadHandler(mark: Op) returns (n: int, signed: bool)
    requires IsLoad(mark)
    ensures n == AccessSize(mark) && signed == SignedLoad(mark)
  {
    if mark == LB {
      n, signed := 1, true;
    } else if mark == LH {
      n, signed := 2, true;
    } else if mark == LW {
      n, signed := 4, true;
    } else if mark == LBU {
      n, signed := 1, false;
    } else {
      n, signed := 2, false;
    }
  }

  method StoreHandler(mark: Op) returns (n: int)
    requires IsStore(mark)
    ensures n == AccessSize(mark)
  {
    if mark == SB {
      n := 1;
    } else if mark == SH {
      n := 2;
    } else {
      n := 4;
    }
  }

  // ---- the handlers ----

  /** The table entry fetched for a pc; None is a read past the table, undefined. */
  function Fetched(count: nat, start: Word, pc: Word): Option<nat> {
    if Slot(start, pc) < count then Some(Slot(start, pc)) else None
  }

  /** DISPATCH: step pc, clear x0, fetch the next entry. */
  method Dispatch(ctx: Context, count: nat, start: Word) returns (next: Option<nat>)
    requires ctx.Valid()
    modifies ctx`pc, ctx.reg
    ensures ctx.View() == Retire(old(ctx.View())) && next == Fetched(count, start, ctx.pc)
  {
    hide Wrap, Slot;
    ctx.pc := Wrap(ctx.pc + 4);
    ctx.reg[0] := 0;
    var index := Slot(start, ctx.pc);
    next := if index < count then Some(index) else None;
  }

  method ComputeHandler(ctx: Context, mark: Op, i: Instruction, host: Host, count: nat, start: Word) returns (next: Option<nat>)
    requires ctx.Valid() && mark == i.op && ClassOf(mark) in {Computing, ComputingImmediate}
    modifies ctx`pc, ctx.reg
    ensures Next(ctx.View()) == Exec(i, old(ctx.View()), host) && next == Fetched(count, start, ctx.pc)
  {
    hide Effect, ClassOf, Alu, RegisterForm, LoadInto, WriteTo, AccessSize, Taken, Wrap, Fetched, Retire;
    EffectByClass(i, ctx.View(), host);
    var a, b := ctx.reg[i.rs1], ctx.reg[i.rs2];
    AluOfProducts(mark, a, b);
    var value;
    if ClassOf(mark) == ComputingImmediate {
      value := ImmediateHandler(mark, a, i.imm);
    } else if mark in {MUL, MULH, MULHSU, MULHU} {
      value := ProductHandler(mark, a, b);
    } else if mark in {DIV, DIVU, REM, REMU} {
      value := QuotientHandler(mark, a, b);
    } else {
      value := RegisterHandler(mark, a, b);
    }
    ctx.reg[i.rd] := value;
    next := Dispatch(ctx, count, start);
  }

  method MemoryHandler(ctx: Context, mark: Op, i: Instruction, host: Host, count: nat, start: Word)
    returns (status: Status, next: Option<nat>)
    requires ctx.Valid() && mark == i.op && ClassOf(mark) in {Loading, Storing}
    modifies ctx`pc, ctx.reg, ctx.data
    ensures Shows(status, ctx.View(), Exec(i, old(ctx.View()), host))
    ensures status == Running ==> next == Fetched(count, start, ctx.pc)
  {
    hide Effect, ClassOf, Alu, RegisterForm, Load, Loaded, WriteTo, AccessSize, Taken, Wrap, Extend, SignedLoad, Fetched, Retire;
    EffectByClass(i, ctx.View(), host);
    next := None;
    var address := Wrap(ctx.reg[i.rs1] + i.imm);
    if ClassOf(mark) == Loading {
      var n, signed := LoadHandler(mark);
      var value;
      status, value := ctx.Read(address, n, signed);
      if status == Running {
        LoadedIsExtended(mark, Load(ctx.data[..], address, n));
        ctx.reg[i.rd] := value;
      }
    } else {
      var n := StoreHandler(mark);
      status := ctx.WriteBytes(address, n, ctx.reg[i.rs2]);
    }
    if status == Running {
      next := Dispatch(ctx, count, start);
    }
  }

  method JumpHandler(ctx: Context, mark: Op, i: Instruction, host: Host, count: nat, start: Word) returns (next: Option<nat>)
    requires ctx.Valid() && mark == i.op && (ClassOf(mark) == Branching || mark in {JAL, JALR, LUI, AUIPC})
    modifies ctx`pc, ctx.reg
    ensures Next(ctx.View()) == Exec(i, old(ctx.View()), host) && next == Fetched(count, start, ctx.pc)
  {
    hide Effect, ClassOf, Alu, RegisterForm, LoadInto, WriteTo, AccessSize, Taken, Wrap, Fetched, Retire;
    JumpBody(ctx, mark, i, host);
    next := Dispatch(ctx, count, start);
  }

  method JumpBody(ctx: Context, mark: Op, i: Instruction, host: Host)
    requires ctx.Valid() && mark == i.op && (ClassOf(mark) == Branching || mark in {JAL, JALR, LUI, AUIPC})
    modifies ctx`pc, ctx.reg
    ensures Next(ctx.View()) == Effect(i, old(ctx.View()), host)
  {
    hide Effect, ClassOf;
    if mark == JAL || mark == JALR {
      LinkBody(ctx, mark, i, host);
    } else if mark == LUI || mark == AUIPC {
      UpperBody(ctx, mark, i, host);
    } else {
      BranchBody(ctx, mark, i, host);
    }
  }

  method LinkBody(ctx: Context, mark: Op, i: Instruction, host: Host)
    requires ctx.Valid() && mark == i.op && (mark == JAL || mark == JALR)
    modifies ctx`pc, ctx.reg
    ensures Next(ctx.View()) == Effect(i, old(ctx.View()), host)
  {
    hide Effect, Wrap;
    if mark == JAL {
      EffectOfJal(i, ctx.View(), host);
      ctx.reg[i.rd] := Wrap(ctx.pc + 4);
      ctx.pc := Wrap(ctx.pc + i.imm - 4);
    } else {
      EffectOfJalr(i, ctx.View(), host);
      ctx.reg[i.rd] := Wrap(ctx.pc + 4);
      ctx.pc := Wrap(i.imm + ctx.reg[i.rs1] - 4);
    }
  }

  method UpperBody(ctx: Context, mark: Op, i: Instruction, host: Host)
    requires ctx.Valid() && mark == i.op && (mark == LUI || mark == AUIPC)
    modifies ctx.reg
    ensures Next(ctx.View()) == Effect(i, old(ctx.View()), host)
  {
    hide Effect, Wrap;
    EffectOfUpper(i, ctx.View(), host);
    if mark == LUI {
      ctx.reg[i.rd] := Wrap(i.imm * 0x1000);
    } else {
      ctx.reg[i.rd] := Wrap(ctx.pc + i.imm * 0x1000);
    }
  }

  method BranchBody(ctx: Context, mark: Op, i: Instruction, host: Host)
    requires ctx.Valid() && mark == i.op && ClassOf(mark) == Branching
    modifies ctx`pc
    ensures Next(ctx.View()) == Effect(i, old(ctx.View()), host)
  {
    hide Effect, ClassOf, Alu, RegisterForm, LoadInto, WriteTo, AccessSize, Taken, Wrap;
    EffectByClass(i, ctx.View(), host);
    var taken := BranchHandler(mark, ctx.reg[i.rs1], ctx.reg[i.rs2]);
    if taken {
      ctx.pc := Wrap(ctx.pc + i.imm - 4);
    }
  }

  method SystemHandler(ctx: Context, mark: Op, i: Instruction, host: Host, count: nat, start: Word)
    returns (status: Status, next: Option<nat>)
    requires ctx.Valid() && mark == i.op && mark in {ECALL, LR_W, SC_W, INVALID}
    modifies ctx, ctx.reg, ctx.data
    ensures Shows(status, ctx.View(), Exec(i, old(ctx.View()), host))
    ensures status == Running ==> next == Fetched(count, start, ctx.pc)
  {
    hide Effect, ClassOf, Load, Loaded, WriteTo, SysCall, Wrap, Extend, Fetched, Retire;
    EffectOfSystem(i, ctx.View(), host);
    OtherClass(LW);
    status, next := Running, None;
    if mark == ECALL {
      status := ctx.HandleSyscall(host);
    } else if mark == LR_W {
      var value;
      status, value := ctx.Read(ctx.reg[i.rs1], 4, true);
      if status == Running {
        WordIsExtended(Load(ctx.data[..], ctx.reg[i.rs1], 4));
        ctx.reg[i.rd] := value;
      }
    } else if mark == SC_W {
      status := ctx.WriteBytes(ctx.reg[i.rs1], 4, ctx.reg[i.rs2]);
      if status == Running {
        ctx.reg[i.rd] := 0;
      }
    }
    if status == Running {
      next := Dispatch(ctx, count, start);
    }
  }

  /** `goto *handler` with the current instruction. */
  method Handle(ctx: Context, mark: Op, i: Instruction, host: Host, count: nat, start: Word)
    returns (status: Status, next: Option<nat>)
    requires ctx.Valid() && mark == i.op && mark != EBREAK && mark != FENCE
    modifies ctx, ctx.reg, ctx.data
    ensures Shows(status, ctx.View(), Exec(i, old(ctx.View()), host))
    ensures status == Running ==> next == Fetched(count, start, ctx.pc)
  {
    hide Exec, ClassOf, Fetched;
    OtherClass(mark);
    status := Running;
    if ClassOf(mark) == Computing || ClassOf(mark) == ComputingImmediate {
      next := ComputeHandler(ctx, mark, i, host, count, start);
    } else if ClassOf(mark) == Loading || ClassOf(mark) == Storing {
      status, next := MemoryHandler(ctx, mark, i, host, count, start);
    } else if ClassOf(mark) == Branching || mark in {JAL, JALR, LUI, AUIPC} {
      next := JumpHandler(ctx, mark, i, host, count, start);
    } else {
      status, next := SystemHandler(ctx, mark, i, host, count, start);
    }
  }

  // ---- runs ----

  /** The handler field of every table entry, filled in before the first jump. */
  method FillHandlers(instructions: seq<Instruction>) returns (handlers: seq<Op>)
    ensures |handlers| == |instructions|
    ensures forall k :: 0 <= k < |handlers| ==> handlers[k] == LabelOf(instructions[k].op)
  {
    handlers := [];
    for k := 0 to |instructions|
      invariant |handlers| == k
      invariant forall n :: 0 <= n < k ==> handlers[n] == LabelOf(instructions[n].op)
    {
      handlers := handlers + [LabelOf(instructions[k].op)];
    }
  }

  /** Interpreter::runInstructionsThreaded, observed after n dispatches (its own loop is endless): the
      first jump goes through the label table, every later one through the handler of the entry
      fetched at the end of the handler before. */
  method RunThreaded(ctx: Context, instructions: seq<Instruction>, start: Word, host: Host, n: nat) returns (status: Status)
    requires ctx.Valid()
    modifies ctx, ctx.reg, ctx.data
    ensures Shows(status, ctx.View(), CachedRun(instructions, start, old(ctx.View()), host, n))
  {
    hide Exec, Slot, LabelOf;
    var handlers := FillHandlers(instructions);
    ghost var s0 := ctx.View();
    var count := |instructions|;
    var next := if Slot(start, ctx.pc) < count then Some(Slot(start, ctx.pc)) else None;
    status := Running;
    var done := 0;
    while done < n && status == Running
      invariant done <= n
      invariant Shows(status, ctx.View(), CachedRun(instructions, start, s0, host, done))
      invariant status == Running ==> next == Fetched(count, start, ctx.pc)
    {
      if next.None? {
        status := Faulted;
      } else {
        var instruction, mark := instructions[next.value], handlers[next.value];
        SharedLabel(instruction, ctx.View(), host);
        LabelsAreHandlers(instruction.op);
        status, next := Handle(ctx, mark, instruction.(op := mark), host, count, start);
      }
      done := done + 1;
    }
    StoppedStays(instructions, start, s0, host, done, n);
  }

  lemma LabelsAreHandlers(op: Op)
    ensures LabelOf(op) != EBREAK && LabelOf(op) != FENCE
  {
  }

  lemma {:induction false} StoppedStays(instructions: seq<Instruction>, start: Word, s: State, host: Host, k: nat, n: nat)
    requires k <= n && (k == n || !CachedRun(instructions, start, s, host, k).Next?)
    ensures CachedRun(instructions, start, s, host, n) == CachedRun(instructions, start, s, host, k)
    decreases n
  {
    hide CachedStep;
    if k == n {
    } else {
      StoppedStays(instructions, start, s, host, k, n - 1);
    }
  }

  /** main() with predecoding and threading, on a program that leaves its text alone: n dispatches
      from the table built from the text are n steps of the fetch-decode interpreter. */
  method RunPredecodedText(ctx: Context, t: Text, host: Host, n: nat) returns (status: Status)
    requires ctx.Valid() && t.Placed() && t.In(ctx.data[..]) && StaysInText(t, ctx.View(), host, n)
    modifies ctx, ctx.reg, ctx.data
    ensures Shows(status, ctx.View(), RawRun(old(ctx.View()), host, n))
    ensures Shows(status, ctx.View(), CachedRun(Listing(t), t.start, old(ctx.View()), host, n))
  {
    hide Caches, CachedRun, RawRun, StaysInText, Text.In, Listing;
    var table := BuildTable(t);
    CachesListing(t, table);
    CacheCoherence(t, table, ctx.View(), host, n);
    status := RunThreaded(ctx, table, t.start, host, n);
  }

  lemma CachesListing(t: Text, table: seq<Instruction>)
    requires t.Placed() && Caches(t, table)
    ensures table == Listing(t)
  {
    hide Decode;
  }
}
