/** Where the translation, the interpreters and the instruction set manual part ways, and
    exactly when, one instruction at a time, with an instruction that shows each. */
module Divergence {
  import opened Words
  import opened Isa
  import opened Machine
  import opened Interpreter
  import opened Cpp
  import opened Translate
  import opened Generated
  import opened Blocks
  import opened Straight
  import opened Simulation

  // ---- REM ----

  lemma OverflowingRemainder(x: Word, y: Word)
    requires Overflows(x, y)
    ensures Alu(REM, x, y) == 0
  {
  }

  /** The emitted remainder is the interpreters' exactly when the division does not overflow. */
  lemma RemainderExactly(cfg: Config, t: Tracking, i: Instruction, c: Frame, s: State, host: Host)
    requires Agrees(cfg, c, s) && Sound(t, s.regs) && IsRegisterOp(i.op)
    ensures Mirrors(cfg, DoAll(Block(cfg, t, i), c, host), Effect(i, s, host)) <==> FaithfulRem(i, s)
  {
    hide Agrees, Sound, Effect, Do, ComputeStmt, Alu, Overflows, Retire, WithReg, DoAll, Block, Mirrors;
    if FaithfulRem(i, s) {
      ComputingBlock(cfg, t, i, c, s, host);
    } else {
      OverflowShows(cfg, t, i, c, s, host);
    }
  }

  lemma OverflowShows(cfg: Config, t: Tracking, i: Instruction, c: Frame, s: State, host: Host)
    requires Agrees(cfg, c, s) && Sound(t, s.regs) && IsRegisterOp(i.op) && !FaithfulRem(i, s)
    ensures !Mirrors(cfg, DoAll(Block(cfg, t, i), c, host), Effect(i, s, host))
  {
    hide Sound, Effect, Do, ComputeStmt, Alu, Overflows;
    EffectByClass(i, s, host);
    OverflowingRemainder(s.regs[i.rs1], s.regs[i.rs2]);
    ComputeComputes(cfg, t, i, c, s, host);
    DoAllOne(ComputeStmt(cfg, t, i), c, host);
    var c' := Assign(cfg.Holder(i.rd), 0x8000_0000, c);
    assert Lookup(cfg.Holder(i.rd), c') == 0x8000_0000;
  }

  // ---- JALR ----

  /** The translation reads rs1 before linking, the interpreters after: the targets are the
      same exactly when rd is another register, or rs1 holds the link already. */
  lemma IndirectTargetExactly(cfg: Config, t: Tracking, i: Instruction, c: Frame, g: State, host: Host)
    requires Agrees(cfg, c, g) && Sound(t, g.regs) && i.op == JALR && Decodable(i) && i.address == g.pc
    ensures Block(cfg, t, i) != [] && Do(Block(cfg, t, i)[0], c, host).Next? && Exec(i, g, host).Next?
    ensures Do(Block(cfg, t, i)[0], c, host).state.pc == Exec(i, g, host).state.pc <==> FaithfulJalr(i, g)
  {
    hide Agrees, Sound, Effect, Do, Operand, Decimal, Stands, Eval, Retire, Wrap, LinkStmts, Predictions, IndirectExit, Block;
    var a, x := Operand(cfg, t, i.rs1), g.regs[i.rs1];
    JalrShape(cfg, t, i);
    OperandStands(cfg, t, i.rs1, c, g);
    IndirectTarget(i.imm, a, c, host, x);
    ExecOfJalr(i, g, host);
    var y := if i.rd == i.rs1 then Wrap(g.pc + 4) else x;
    SumsDiffer(i.imm, x, y);
  }

  lemma ExecOfJalr(i: Instruction, g: State, host: Host)
    requires i.op == JALR
    ensures var x := if i.rd == i.rs1 then Wrap(g.pc + 4) else g.regs[i.rs1];
      Exec(i, g, host).Next? && Exec(i, g, host).state.pc == Wrap(i.imm + x)
  {
    hide Effect, Wrap;
    EffectOfJalr(i, g, host);
    var x := if i.rd == i.rs1 then Wrap(g.pc + 4) else g.regs[i.rs1];
    WrapTwice(i.imm, x);
  }

  lemma SumsDiffer(imm: int, x: Word, y: Word)
    ensures Wrap(imm + x) == Wrap(imm + y) <==> x == y
  {
    hide Wrap;
    if Wrap(imm + x) == Wrap(imm + y) {
      WrapSum(-imm, imm + x);
      WrapSum(-imm, imm + y);
      WrapWord(x);
      WrapWord(y);
    }
  }

  /** Section 2.5 of the manual: the target of JALR is the sum of the old rs1 and the immediate
      with its lowest bit cleared. */
  function ManualTarget(i: Instruction, g: State): Word {
    var sum := Wrap(i.imm + g.regs[i.rs1]);
    sum - sum % 2
  }

  /** What the interpreters add the immediate to: rs1, after rd has been written. */
  function BaseRead(i: Instruction, g: State): Word { if i.rd == i.rs1 then Wrap(g.pc + 4) else g.regs[i.rs1] }

  /** No engine clears the bit: the interpreters jump as the manual says if and only if they read the
      old rs1 and the sum is even, or they read one less and it is odd. */
  lemma ManualTargetExactly(i: Instruction, g: State, host: Host)
    requires i.op == JALR
    ensures Exec(i, g, host).Next?
    ensures var x, odd := g.regs[i.rs1], Wrap(i.imm + g.regs[i.rs1]) % 2;
      Exec(i, g, host).state.pc == ManualTarget(i, g) <==> BaseRead(i, g) == Wrap(x - odd)
  {
    hide Effect, Exec, Wrap;
    ExecOfJalr(i, g, host);
    var x, odd := g.regs[i.rs1], Wrap(i.imm + g.regs[i.rs1]) % 2;
    LowerBy(i.imm + x, odd);
    WrapSum(i.imm, x - odd);
    SumsDiffer(i.imm, BaseRead(i, g), Wrap(x - odd));
    assert i.imm + x - odd == i.imm + (x - odd);
  }

  lemma LowerBy(x: int, n: int)
    requires 0 <= n <= Wrap(x)
    ensures Wrap(x) - n == Wrap(x - n)
  {
    ModUnique(x - n, 0x1_0000_0000, x / 0x1_0000_0000, x % 0x1_0000_0000 - n);
  }

  // ---- one instruction for each ----

  function Zeroed(pc: Word): State { State(seq(32, _ => 0), pc, seq(MEMORY_SIZE, _ => 0), 0) }

  /** `jalr x5, 1(x6)` from a zero x6 goes to 1, where the manual says 0. */
  lemma LowBitWitness(host: Host)
    ensures var i := Instruction(JALR, 0, 1, 0, 6, 0, 5);
      Exec(i, Zeroed(0), host).Next? && Exec(i, Zeroed(0), host).state.pc == 1 && ManualTarget(i, Zeroed(0)) == 0
  {
    hide Exec;
    ExecOfJalr(Instruction(JALR, 0, 1, 0, 6, 0, 5), Zeroed(0), host);
  }

  /** `jalr x5, 0(x5)` from a zero x5 goes to 4 in the interpreters and to 0 in the translation. */
  lemma RelinkWitness(host: Host)
    ensures var i := Instruction(JALR, 0, 0, 0, 5, 0, 5);
      && Exec(i, Zeroed(0), host).Next? && Exec(i, Zeroed(0), host).state.pc == 4
      && JalrNext(i, Zeroed(0)).pc == 0 && !FaithfulJalr(i, Zeroed(0))
  {
    hide Exec;
    ExecOfJalr(Instruction(JALR, 0, 0, 0, 5, 0, 5), Zeroed(0), host);
  }

  /** `auipc x5, -1` is emitted with `0x-1000` in it, and `auipc x5, 0x7FFFF` at 0x1000 overflows. */
  lemma UpperWitness(c: Frame)
    ensures Eval(UpperSum(Instruction(AUIPC, 0, -1, 0, 0, 0, 5)), c) == None
    ensures Eval(UpperSum(Instruction(AUIPC, 0, 0x7_FFFF, 0x1000, 0, 0, 5)), c) == None
  {
    UpperSumDefined(Instruction(AUIPC, 0, -1, 0, 0, 0, 5), c);
    UpperSumDefined(Instruction(AUIPC, 0, 0x7_FFFF, 0x1000, 0, 0, 5), c);
  }

  /** The word 0x00001073 is a system call to all engines but the switch engine, which skips it. */
  lemma SkippedCallWitness(s: State)
    ensures var host: Host := (n, r, m, v) => Exit(v);
      Exec(Decode(0x1073, s.pc), s, host) == Exited(s.mem, s.world) && SwitchExec(0x1073, s, host).Next?
  {
    hide Decode, Effect, Exec;
    var host: Host := (n, r, m, v) => Exit(v);
    CallWord();
    DecodedFields(0x1073, s.pc);
    EffectOfSystem(Decode(0x1073, s.pc), s, host);
    ExecIsRetired(Decode(0x1073, s.pc), s, host);
  }

  lemma CallWord()
    ensures SkipsCall(0x1073) && !FallsIntoLui(0x1073) && Kind(0x1073) == ECALL
  {
  }
}
