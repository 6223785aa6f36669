/** Blocks that run on to the next instruction: what they do, and that constant tracking stays
    sound across them. */
module Straight {
  import opened Words
  import opened Isa
  import opened Machine
  import opened Interpreter
  import opened Cpp
  import opened Translate
  import opened Generated
  import opened Blocks

  /** What decoding guarantees of an instruction, and what translating it needs. */
  predicate Decodable(i: Instruction) {
    && (IsImmediateOp(i.op) || IsLoad(i.op) || IsStore(i.op) || i.op == JALR ==> Twelve(i))
    && (i.op == AUIPC ==> -0x8_0000 <= i.imm < 0x8_0000 && i.address < 0x8000_0000)
  }

  lemma DecodeDecodable(w: Word, address: Word)
    requires address < 0x8000_0000
    ensures Decodable(Decode(w, address)) && Decode(w, address).address == address
  {
    hide Kind, ClassOf, Row, IImm, SImm, UImm, BImm, JImm, Rs1, Rs2, Rd;
    DecodedFields(w, address);
    OtherClass(Kind(w));
    ShiftAmount(w);
    WrapLow5(IImm(w));
    IImmIsField(w);
    SImmIsField(w);
    UImmIsField(w);
    ShiftsAreImmediate(Kind(w));
  }

  lemma ShiftsAreImmediate(op: Op)
    ensures op in {SLLI, SRLI, SRAI} ==> IsImmediateOp(op)
  {
  }

  // ---- the emitted effect ----

  /** The outcome of a block represents the outcome of its instruction. */
  ghost predicate Mirrors(cfg: Config, o: Outcome<Frame>, e: Outcome<State>) {
    match e
    case Next(u) => o.Next? && Agrees(cfg, o.state, Retire(u))
    case Exited(mem, world) => o == Exited(mem, world)
    case Fault => true
  }

  lemma DoAllCons(s: Stmt, rest: seq<Stmt>, c: Frame, host: Host)
    ensures DoAll([s] + rest, c, host) == ThenAll(Do(s, c, host), rest, host)
  {
    hide Do;
    assert ([s] + rest)[1..] == rest;
  }

  lemma DoAllOne(s: Stmt, c: Frame, host: Host)
    ensures DoAll([s], c, host) == Do(s, c, host)
  {
    hide Do;
    DoAllCons(s, [], c, host);
    assert [s] + [] == [s];
  }

  lemma RetiredReg(cfg: Config, c: Frame, s: State, rd: Register, v: Word)
    requires rd != 0 ==> Agrees(cfg, c, WithReg(s, rd, v))
    requires rd == 0 ==> Agrees(cfg, c, s)
    ensures Agrees(cfg, c, Retire(WithReg(s, rd, v)))
  {
    hide Lookup;
    assert rd == 0 ==> s.regs[0 := v][0 := 0] == s.regs[0 := 0];
  }

  /** A block that assigns v to rd, or nothing to x0. */
  lemma RdBlock(cfg: Config, i: Instruction, stmt: Stmt, c: Frame, s: State, host: Host, v: Word) returns (c': Frame)
    requires Agrees(cfg, c, s)
    requires i.rd != 0 ==> Do(stmt, c, host) == Next(Assign(cfg.Holder(i.rd), v, c))
    ensures DoAll(ToRd(i, stmt), c, host) == Next(c')
    ensures Agrees(cfg, c', Retire(WithReg(s, i.rd, v))) && c'.pc == c.pc && c'.index == c.index
  {
    hide Do, Agrees, Retire, WithReg, Lookup;
    c' := c;
    if i.rd != 0 {
      DoAllOne(stmt, c, host);
      AssignAgrees(cfg, c, s, i.rd, v);
      c' := Assign(cfg.Holder(i.rd), v, c);
    }
    RetiredReg(cfg, c', s, i.rd, v);
  }

  predicate FaithfulRem(i: Instruction, s: State) {
    i.rd != 0 ==> !RemOverflows(i.op, s.regs[i.rs1], s.regs[i.rs2])
  }

  lemma ComputingBlock(cfg: Config, t: Tracking, i: Instruction, c: Frame, s: State, host: Host)
    requires Agrees(cfg, c, s) && Sound(t, s.regs) && IsRegisterOp(i.op) && FaithfulRem(i, s)
    ensures Mirrors(cfg, DoAll(Block(cfg, t, i), c, host), Effect(i, s, host))
  {
    hide Agrees, Sound, Effect, Do, ComputeStmt, Alu, RemOverflows, Retire, WithReg;
    EffectByClass(i, s, host);
    var v := EmittedAlu(i.op, s.regs[i.rs1], s.regs[i.rs2]);
    if i.rd != 0 {
      ComputeComputes(cfg, t, i, c, s, host);
    }
    var c' := RdBlock(cfg, i, ComputeStmt(cfg, t, i), c, s, host, v);
    if i.rd == 0 {
      ClearedZero(s, v, Alu(i.op, s.regs[i.rs1], s.regs[i.rs2]));
    }
  }

  lemma ClearedZero(s: State, v: Word, w: Word)
    ensures Retire(WithReg(s, 0, v)) == Retire(WithReg(s, 0, w))
  {
    assert s.regs[0 := v][0 := 0] == s.regs[0 := w][0 := 0];
  }

  lemma ComputingImmediateBlock(cfg: Config, t: Tracking, i: Instruction, c: Frame, s: State, host: Host)
    requires Agrees(cfg, c, s) && Sound(t, s.regs) && IsImmediateOp(i.op) && Twelve(i)
    ensures Mirrors(cfg, DoAll(Block(cfg, t, i), c, host), Effect(i, s, host))
  {
    hide Agrees, Sound, Effect, Do, ComputeImmediateStmt, Alu, RegisterForm, Retire, WithReg, Wrap;
    EffectByClass(i, s, host);
    var v := Alu(RegisterForm(i.op), s.regs[i.rs1], Wrap(i.imm));
    if i.rd != 0 {
      ComputeImmediateComputes(cfg, t, i, c, s, host);
    }
    var c' := RdBlock(cfg, i, ComputeImmediateStmt(cfg, t, i), c, s, host, v);
  }

  lemma AddressAgrees(cfg: Config, c: Frame, s: State, a: Word)
    requires Agrees(cfg, c, s)
    ensures Agrees(cfg, c.(address := a), s)
  {
    forall r: Register | r != 0
      ensures Lookup(cfg.Holder(r), c.(address := a)) == s.regs[r]
    {
      assert Lookup(cfg.Holder(r), c) == s.regs[r];
    }
  }

  lemma SameMemory(cfg: Config, c: Frame, s: State)
    requires Agrees(cfg, c, s)
    ensures c.mem == s.mem && c.world == s.world
  {
  }

  lemma LoadingBlock(cfg: Config, t: Tracking, i: Instruction, c: Frame, s: State, host: Host)
    requires Agrees(cfg, c, s) && Sound(t, s.regs) && IsLoad(i.op) && Twelve(i)
    ensures Mirrors(cfg, DoAll(Block(cfg, t, i), c, host), Effect(i, s, host))
  {
    hide Agrees, Sound, Effect, Do, Eval, AddressStmt, LoadExpr, Load, Loaded, Retire, WithReg, Wrap, AccessSize;
    EffectByClass(i, s, host);
    var a, n := Wrap(s.regs[i.rs1] + i.imm), AccessSize(i.op);
    if InBounds(a, n) {
      AddressComputes(cfg, t, i, c, s, host);
      AddressAgrees(cfg, c, s, a);
      SameMemory(cfg, c, s);
      var c1 := c.(address := a);
      LoadComputes(i.op, c1);
      var v := Loaded(i.op, Load(s.mem, a, n));
      SetYields(cfg.Holder(i.rd), LoadExpr(i.op), c1, host, v);
      var c' := RdBlock(cfg, i, Set(cfg.Holder(i.rd), LoadExpr(i.op)), c1, s, host, v);
      DoAllCons(AddressStmt(cfg, t, i), ToRd(i, Set(cfg.Holder(i.rd), LoadExpr(i.op))), c, host);
    }
  }

  lemma WriteApplies(cfg: Config, size: int, a: Expr, b: Expr, c: Frame, s: State, host: Host, x: Word, y: Word)
    requires Agrees(cfg, c, s) && size in {1, 2, 4} && InBounds(x, size)
    requires Yields(Eval(a, c), x) && Yields(Eval(b, c), y)
    ensures var o := Do(WriteMem(size, a, b), c, host);
      && o == Next(c.(mem := Store(s.mem, x, size, y)))
      && Agrees(cfg, o.state, s.(mem := Store(s.mem, x, size, y)))
  {
    hide Eval, Machine.Store;
    var c' := c.(mem := Store(s.mem, x, size, y));
    forall r: Register | r != 0
      ensures Lookup(cfg.Holder(r), c') == s.regs[r]
    {
      assert Lookup(cfg.Holder(r), c) == s.regs[r];
    }
  }

  lemma RetiredPlain(cfg: Config, c: Frame, s: State)
    requires Agrees(cfg, c, s)
    ensures Agrees(cfg, c, Retire(s))
  {
    hide Lookup;
  }

  lemma StoringBlock(cfg: Config, t: Tracking, i: Instruction, c: Frame, s: State, host: Host)
    requires Agrees(cfg, c, s) && Sound(t, s.regs) && IsStore(i.op) && Twelve(i)
    ensures Mirrors(cfg, DoAll(Block(cfg, t, i), c, host), Effect(i, s, host))
  {
    hide Agrees, Sound, Effect, Do, Eval, AddressStmt, Operand, Machine.Store, Retire, Stands, Wrap, AccessSize;
    EffectByClass(i, s, host);
    var a, n := Wrap(s.regs[i.rs1] + i.imm), AccessSize(i.op);
    if InBounds(a, n) {
      AddressComputes(cfg, t, i, c, s, host);
      AddressAgrees(cfg, c, s, a);
      var c1 := c.(address := a);
      var b := Operand(cfg, t, i.rs2);
      OperandStands(cfg, t, i.rs2, c1, s);
      StandsYields(b, c1, s.regs[i.rs2]);
      AddressYields(c1);
      WriteApplies(cfg, n, Get(Address), b, c1, s, host, a, s.regs[i.rs2]);
      DoAllCons(AddressStmt(cfg, t, i), [WriteMem(n, Get(Address), b)], c, host);
      DoAllOne(WriteMem(n, Get(Address), b), c1, host);
      RetiredPlain(cfg, c1.(mem := Store(s.mem, a, n, s.regs[i.rs2])), s.(mem := Store(s.mem, a, n, s.regs[i.rs2])));
      assert [AddressStmt(cfg, t, i)] + [WriteMem(n, Get(Address), b)] == Block(cfg, t, i);
    }
  }

  lemma AddressYields(c: Frame)
    ensures Yields(Eval(Get(Address), c), c.address)
  {
    WrapWord(c.address);
  }

  lemma UpperBlock(cfg: Config, t: Tracking, i: Instruction, c: Frame, s: State, host: Host)
    requires Agrees(cfg, c, s) && s.pc == i.address && i.op in {LUI, AUIPC} && Decodable(i)
    requires i.op == AUIPC && i.rd != 0 ==> UpperSumOk(i)
    ensures Mirrors(cfg, DoAll(Block(cfg, t, i), c, host), Effect(i, s, host))
  {
    hide Agrees, Effect, Do, Eval, Decimal, HexSigned, Operand, Shift12, Retire, WithReg, Wrap;
    OtherClass(i.op);
    EffectOfUpper(i, s, host);
    Shift12Wraps(i.imm);
    var d, v := cfg.Holder(i.rd), if i.op == LUI then Wrap(i.imm * 0x1000) else Wrap(s.pc + i.imm * 0x1000);
    var e := if i.op == LUI then Decimal(Shift12(i.imm)) else UpperSum(i);
    if i.rd != 0 {
      if i.op == LUI {
        DecimalValue(Shift12(i.imm), c);
      } else {
        UpperSumDefined(i, c);
      }
      SetYields(d, e, c, host, v);
    }
    var c' := RdBlock(cfg, i, Set(d, e), c, s, host, v);
  }

  lemma WordReadYields(e: Expr, c: Frame, a: Word)
    requires Yields(Eval(e, c), a) && InBounds(a, 4)
    ensures Yields(Eval(Read(4, false, e), c), Load(c.mem, a, 4))
  {
    hide Load;
    WrapWord(Load(c.mem, a, 4));
  }

  lemma LoadReservedBlock(cfg: Config, t: Tracking, i: Instruction, c: Frame, s: State, host: Host)
    requires Agrees(cfg, c, s) && Sound(t, s.regs) && i.op == LR_W
    ensures Mirrors(cfg, DoAll(Block(cfg, t, i), c, host), Effect(i, s, host))
  {
    hide Agrees, Sound, Effect, Do, Eval, Operand, Stands, Load, Retire, WithReg;
    OtherClass(LW);
    EffectOfSystem(i, s, host);
    var a, e := s.regs[i.rs1], Operand(cfg, t, i.rs1);
    if InBounds(a, 4) {
      OperandStands(cfg, t, i.rs1, c, s);
      StandsYields(e, c, a);
      SameMemory(cfg, c, s);
      WordReadYields(e, c, a);
      var v := Load(s.mem, a, 4);
      SetYields(cfg.Holder(i.rd), Read(4, false, e), c, host, v);
      var c' := RdBlock(cfg, i, Set(cfg.Holder(i.rd), Read(4, false, e)), c, s, host, v);
    }
  }

  lemma StoreConditionalBlock(cfg: Config, t: Tracking, i: Instruction, c: Frame, s: State, host: Host)
    requires Agrees(cfg, c, s) && Sound(t, s.regs) && i.op == SC_W
    ensures Mirrors(cfg, DoAll(Block(cfg, t, i), c, host), Effect(i, s, host))
  {
    hide Agrees, Sound, Effect, Do, Eval, Operand, Stands, Machine.Store, Retire, WithReg;
    EffectOfSystem(i, s, host);
    var x, y := s.regs[i.rs1], s.regs[i.rs2];
    var a, b := Operand(cfg, t, i.rs1), Operand(cfg, t, i.rs2);
    if InBounds(x, 4) {
      OperandStands(cfg, t, i.rs1, c, s);
      OperandStands(cfg, t, i.rs2, c, s);
      StandsYields(a, c, x);
      StandsYields(b, c, y);
      WriteApplies(cfg, 4, a, b, c, s, host, x, y);
      var c1, s1 := c.(mem := Store(s.mem, x, 4, y)), s.(mem := Store(s.mem, x, 4, y));
      LiteralsYield(c1);
      SetYields(cfg.Holder(i.rd), Dec(0), c1, host, 0);
      var c' := RdBlock(cfg, i, Set(cfg.Holder(i.rd), Dec(0)), c1, s1, host, 0);
      DoAllCons(WriteMem(4, a, b), ToRd(i, Set(cfg.Holder(i.rd), Dec(0))), c, host);
    }
  }

  lemma Sandwich(save: seq<Stmt>, middle: Stmt, restore: seq<Stmt>, c: Frame, host: Host)
    ensures DoAll(save, c, host).Next? ==>
      DoAll(save + [middle] + restore, c, host) == ThenAll(Do(middle, DoAll(save, c, host).state, host), restore, host)
  {
    hide Do;
    assert save + [middle] + restore == save + ([middle] + restore);
    DoAllAppend(save, [middle] + restore, c, host);
    if DoAll(save, c, host).Next? {
      DoAllCons(middle, restore, DoAll(save, c, host).state, host);
    }
  }

  lemma SystemShapes(cfg: Config, t: Tracking, i: Instruction)
    ensures i.op == ECALL ==>
      Block(cfg, t, i) == SaveRegisters(cfg) + [Call(if t.known[A7] then Some(t.value[A7]) else None)] + RestoreRegisters(cfg)
    ensures i.op == INVALID ==> Block(cfg, t, i) == SaveRegisters(cfg) + [Print] + RestoreRegisters(cfg)
    ensures i.op == EBREAK || i.op == FENCE ==> Block(cfg, t, i) == []
  {
    hide ClassOf, Operand, SaveRegisters, RestoreRegisters;
    OtherClass(i.op);
  }

  lemma CallDoes(num: Option<Word>, c: Frame, s: State, host: Host)
    requires c.ctx == s.regs && c.mem == s.mem && c.world == s.world && (num.Some? ==> num.value == s.regs[A7])
    ensures var e, o := SysCall(s, host), Do(Call(num), c, host);
      && (e.Next? ==> o == Next(c.(ctx := e.state.regs, mem := e.state.mem, world := e.state.world)))
      && (e.Next? ==> e.state.regs[0] == s.regs[0])
      && (e.Exited? ==> o == Exited(e.mem, e.world))
      && !e.Fault?
  {
  }

  lemma CallBlock(cfg: Config, t: Tracking, i: Instruction, c: Frame, s: State, host: Host)
    requires Proper(cfg) && Agrees(cfg, c, s) && Sound(t, s.regs) && i.op == ECALL
    ensures Mirrors(cfg, DoAll(Block(cfg, t, i), c, host), Effect(i, s, host))
  {
    hide Agrees, Effect, Block, Do, DoAll, SysCall, LoadInto, StoreConditional, SaveRegisters, RestoreRegisters, Retire;
    EffectOfSystem(i, s, host);
    SystemShapes(cfg, t, i);
    SaveGathers(cfg, c, s, host);
    SameMemory(cfg, c, s);
    ZeroRegister(cfg, c, s);
    var num := if t.known[A7] then Some(t.value[A7]) else None;
    var c1, e := c.(ctx := s.regs), SysCall(s, host);
    Sandwich(SaveRegisters(cfg), Call(num), RestoreRegisters(cfg), c, host);
    CallDoes(num, c1, s, host);
    if e.Next? {
      var c' := RestoreSpreads(cfg, c1.(ctx := e.state.regs, mem := e.state.mem, world := e.state.world), e.state, host);
      RetiredPlain(cfg, c', e.state);
    }
  }

  lemma PrintDoes(c: Frame, host: Host)
    ensures Do(Print, c, host) == Next(c) && DoAll([], c, host) == Next(c)
  {
  }

  lemma InertBlock(cfg: Config, t: Tracking, i: Instruction, c: Frame, s: State, host: Host)
    requires Proper(cfg) && Agrees(cfg, c, s) && i.op in {EBREAK, FENCE, INVALID}
    ensures Mirrors(cfg, DoAll(Block(cfg, t, i), c, host), Effect(i, s, host))
  {
    hide Agrees, Effect, Block, Do, DoAll, SysCall, LoadInto, StoreConditional, SaveRegisters, RestoreRegisters, Retire;
    EffectOfSystem(i, s, host);
    SystemShapes(cfg, t, i);
    PrintDoes(c, host);
    if i.op == INVALID {
      SaveGathers(cfg, c, s, host);
      SameMemory(cfg, c, s);
      ZeroRegister(cfg, c, s);
      var c1 := c.(ctx := s.regs);
      Sandwich(SaveRegisters(cfg), Print, RestoreRegisters(cfg), c, host);
      PrintDoes(c1, host);
      var c' := RestoreSpreads(cfg, c1, s, host);
      RetiredPlain(cfg, c', s);
    } else {
      RetiredPlain(cfg, c, s);
    }
  }

  // ---- all straight-line instructions ----

  predicate RunsOn(op: Op) { !IsBranch(op) && op != JAL && op != JALR }

  lemma StraightBlock(cfg: Config, t: Tracking, i: Instruction, c: Frame, s: State, host: Host)
    requires Proper(cfg) && Agrees(cfg, c, s) && Sound(t, s.regs) && s.pc == i.address
    requires RunsOn(i.op) && Decodable(i) && FaithfulRem(i, s)
    requires i.op == AUIPC && i.rd != 0 ==> UpperSumOk(i)
    ensures Mirrors(cfg, DoAll(Block(cfg, t, i), c, host), Effect(i, s, host))
  {
    hide ClassOf, Mirrors, Agrees, Sound, Block, Effect, DoAll, UpperSumOk;
    OtherClass(i.op);
    match ClassOf(i.op)
    case Computing => ComputingBlock(cfg, t, i, c, s, host);
    case ComputingImmediate => ComputingImmediateBlock(cfg, t, i, c, s, host);
    case Loading => LoadingBlock(cfg, t, i, c, s, host);
    case Storing => StoringBlock(cfg, t, i, c, s, host);
    case _ =>
      if i.op in {LUI, AUIPC} {
        UpperBlock(cfg, t, i, c, s, host);
      } else if i.op == LR_W {
        LoadReservedBlock(cfg, t, i, c, s, host);
      } else if i.op == SC_W {
        StoreConditionalBlock(cfg, t, i, c, s, host);
      } else if i.op == ECALL {
        CallBlock(cfg, t, i, c, s, host);
      } else {
        InertBlock(cfg, t, i, c, s, host);
      }
  }

  // ---- tracking ----

  lemma LearnsRight(i: Instruction, s: State, host: Host)
    requires i.op == ADDI && i.rs1 == 0 && s.regs[0] == 0 && -2048 <= i.imm < 2048
    ensures Effect(i, s, host).Next? && Effect(i, s, host).state.regs[i.rd] == Wrap(i.imm) && Tiny(Wrap(i.imm))
  {
    WrapWord(Wrap(i.imm));
  }

  /** Tracking stays sound across every instruction, whatever it is. */
  lemma TrackingSound(t: Tracking, i: Instruction, s: State, host: Host)
    requires Sound(t, s.regs) && s.regs[0] == 0 && Decodable(i) && Effect(i, s, host).Next?
    ensures Sound(After(t, i), Retire(Effect(i, s, host).state).regs)
  {
    hide Effect, ClassOf, Wrap, Twelve, Tiny;
    EffectTouches(i, s, host);
    AddImmediateClass();
    if i.op == ADDI && i.imm != 0 && i.rs1 == 0 {
      TwelveRange(i);
      LearnsRight(i, s, host);
    }
  }

  lemma AddImmediateClass()
    ensures ClassOf(ADDI) == ComputingImmediate
  {
  }

  lemma TwelveRange(i: Instruction)
    requires Twelve(i)
    ensures -2048 <= i.imm < 2048
  {
  }

  // ---- shape of the blocks ----

  lemma OtherBlockSimple(cfg: Config, t: Tracking, i: Instruction)
    requires i.op != JAL && i.op != JALR
    ensures AllSimple(OtherBlock(cfg, t, i))
  {
    hide Operand, Decimal, HexSigned, Shift12, SaveRegisters, RestoreRegisters;
    PinningSimple(cfg);
  }

  lemma PinningSimple(cfg: Config)
    ensures AllSimple(SaveRegisters(cfg)) && AllSimple(RestoreRegisters(cfg))
  {
  }

  lemma ComputeSimple(cfg: Config, t: Tracking, i: Instruction)
    ensures IsRegisterOp(i.op) ==> Simple(ComputeStmt(cfg, t, i))
    ensures IsImmediateOp(i.op) ==> Simple(ComputeImmediateStmt(cfg, t, i))
  {
    hide Operand, Decimal;
  }

  lemma BlockSimple(cfg: Config, t: Tracking, i: Instruction)
    requires RunsOn(i.op)
    ensures AllSimple(Block(cfg, t, i))
  {
    hide ClassOf, Operand, ComputeStmt, ComputeImmediateStmt, OtherBlock, LoadExpr;
    OtherClass(i.op);
    ComputeSimple(cfg, t, i);
    if ClassOf(i.op) == Other {
      OtherBlockSimple(cfg, t, i);
    }
  }

  /** Straight-line instructions leave pc to the common tail. */
  lemma EffectKeepsPc(i: Instruction, s: State, host: Host)
    requires RunsOn(i.op) && Effect(i, s, host).Next?
    ensures Effect(i, s, host).state.pc == s.pc
  {
    hide Effect, ClassOf, Load, Loaded, Machine.Store, Wrap, Alu, RegisterForm, Taken, AccessSize;
    OtherClass(i.op);
    EffectByClass(i, s, host);
    if ClassOf(i.op) == Other {
      OtherKeepsPc(i, s, host);
    }
  }

  lemma OtherKeepsPc(i: Instruction, s: State, host: Host)
    requires ClassOf(i.op) == Other && i.op != JAL && i.op != JALR && Effect(i, s, host).Next?
    ensures Effect(i, s, host).state.pc == s.pc
  {
    hide Effect, ClassOf, Load, Loaded, Machine.Store, Wrap;
    OtherClass(i.op);
    EffectOfUpper(i, s, host);
    EffectOfSystem(i, s, host);
  }
}
