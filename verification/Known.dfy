/** What constant tracking knows at an instruction, exactly: the other half of its soundness. */
module Known {
  import opened Words
  import opened Isa
  import opened Machine
  import opened Cpp
  import opened Translate
  import opened Emitter
  import opened Manual

  /** `addi r, x0, imm`, the way constants are loaded. */
  predicate LoadsConstant(i: Instruction, r: Register) { i.op == ADDI && i.rs1 == 0 && i.imm != 0 && i.rd == r }

  /** Instructions that leave register r alone: those without a destination, calls unless r is x10, and
      all others whose rd is another register. */
  predicate LeavesAlone(i: Instruction, r: Register) {
    if i.op in {SB, SH, SW, BEQ, BNE, BLT, BGE, BLTU, BGEU, EBREAK, FENCE, INVALID} then true
    else if i.op == ECALL then r != 10
    else i.rd != r
  }

  lemma OpsWithoutDestination(op: Op)
    ensures IsStore(op) || IsBranch(op) <==> op in {SB, SH, SW, BEQ, BNE, BLT, BGE, BLTU, BGEU}
  {
  }

  lemma AfterOne(t: Tracking, i: Instruction, r: Register)
    ensures LoadsConstant(i, r) ==> After(t, i).known[r] && After(t, i).value[r] == Wrap(i.imm)
    ensures !LoadsConstant(i, r) ==>
      (After(t, i).known[r] <==> LeavesAlone(i, r) && t.known[r]) && (After(t, i).known[r] ==> After(t, i).value[r] == t.value[r])
  {
    hide ClassOf, Wrap;
    OpsWithoutDestination(i.op);
  }

  /** Between instruction n and instruction m nothing writes r and no control comes in. */
  ghost predicate Undisturbed(cfg: Config, instrs: seq<Instruction>, n: nat, m: nat, r: Register)
    requires m <= |instrs|
  {
    forall k :: n < k < m ==> LeavesAlone(instrs[k], r) && instrs[k].address !in cfg.leaders
  }

  ghost predicate LoadedAt(cfg: Config, instrs: seq<Instruction>, n: nat, m: nat, r: Register, v: Word)
    requires m <= |instrs|
  {
    n < m && LoadsConstant(instrs[n], r) && v == Wrap(instrs[n].imm) && Undisturbed(cfg, instrs, n, m, r)
  }

  ghost predicate Holds(cfg: Config, instrs: seq<Instruction>, m: nat, r: Register, v: Word)
    requires m <= |instrs|
  {
    exists n :: LoadedAt(cfg, instrs, n, m, r, v)
  }

  /** A register is known at instruction m, with a value, if and only if some instruction in front of it
      loads that constant and nothing in between writes the register or is a leader. */
  lemma {:induction false} KnownExactly(cfg: Config, instrs: seq<Instruction>, m: nat, r: Register, v: Word)
    requires m <= |instrs|
    ensures TrackAt(cfg, instrs, m).known[r] && TrackAt(cfg, instrs, m).value[r] == v <==> Holds(cfg, instrs, m, r, v)
    decreases m
  {
    hide After, LoadsConstant, LeavesAlone, Wrap;
    if m > 0 {
      hide Holds;
      var i, t := instrs[m - 1], TrackAt(cfg, instrs, m - 1);
      KnownExactly(cfg, instrs, m - 1, r, v);
      AfterOne(Entry(cfg, t, i), i, r);
      if LoadsConstant(i, r) {
        HoldsFromHere(cfg, instrs, m, r, v);
      } else {
        HoldsFromBefore(cfg, instrs, m, r, v);
      }
    }
  }

  lemma HoldsFromHere(cfg: Config, instrs: seq<Instruction>, m: nat, r: Register, v: Word)
    requires 0 < m <= |instrs| && LoadsConstant(instrs[m - 1], r)
    ensures Holds(cfg, instrs, m, r, v) <==> v == Wrap(instrs[m - 1].imm)
  {
    hide Wrap;
    assert !LeavesAlone(instrs[m - 1], r);
    assert Undisturbed(cfg, instrs, m - 1, m, r);
    if v == Wrap(instrs[m - 1].imm) {
      assert LoadedAt(cfg, instrs, m - 1, m, r, v);
    }
  }

  lemma HoldsFromBefore(cfg: Config, instrs: seq<Instruction>, m: nat, r: Register, v: Word)
    requires 0 < m <= |instrs| && !LoadsConstant(instrs[m - 1], r)
    ensures var i := instrs[m - 1];
      Holds(cfg, instrs, m, r, v) <==> LeavesAlone(i, r) && i.address !in cfg.leaders && Holds(cfg, instrs, m - 1, r, v)
  {
    hide LoadsConstant, LeavesAlone, Wrap;
    if Holds(cfg, instrs, m, r, v) {
      var n :| LoadedAt(cfg, instrs, n, m, r, v);
      assert LoadedAt(cfg, instrs, n, m - 1, r, v);
    }
    if LeavesAlone(instrs[m - 1], r) && instrs[m - 1].address !in cfg.leaders && Holds(cfg, instrs, m - 1, r, v) {
      var n :| LoadedAt(cfg, instrs, n, m - 1, r, v);
      assert LoadedAt(cfg, instrs, n, m, r, v);
    }
  }

  // ---- what it is for ----

  /** A call gets a literal number if and only if one is known for x17 and the call is no leader. */
  lemma NumberedCallExactly(cfg: Config, instrs: seq<Instruction>, m: nat, v: Word)
    requires m < |instrs| && instrs[m].op == ECALL
    ensures Block(cfg, Entry(cfg, TrackAt(cfg, instrs, m), instrs[m]), instrs[m])
        == SaveRegisters(cfg) + [Call(Some(v))] + RestoreRegisters(cfg)
      <==> instrs[m].address !in cfg.leaders && Holds(cfg, instrs, m, 17, v)
  {
    hide TrackAt, Holds, SaveRegisters, RestoreRegisters, Block, After;
    var t := Entry(cfg, TrackAt(cfg, instrs, m), instrs[m]);
    KnownExactly(cfg, instrs, m, 17, v);
    EmittedCallNumber(cfg, t, instrs[m]);
    var call := Call(if t.known[17] then Some(t.value[17]) else None);
    assert (SaveRegisters(cfg) + [call] + RestoreRegisters(cfg))[|SaveRegisters(cfg)|] == call;
    assert (SaveRegisters(cfg) + [Call(Some(v))] + RestoreRegisters(cfg))[|SaveRegisters(cfg)|] == Call(Some(v));
  }

  /** A source register other than x0 is emitted as a literal if and only if its value is known there. */
  lemma LiteralOperandExactly(cfg: Config, instrs: seq<Instruction>, m: nat, r: Register, v: Word)
    requires m < |instrs| && r != 0
    ensures Operand(cfg, Entry(cfg, TrackAt(cfg, instrs, m), instrs[m]), r) == Dec(v)
      <==> instrs[m].address !in cfg.leaders && Holds(cfg, instrs, m, r, v)
  {
    hide TrackAt, Holds;
    KnownExactly(cfg, instrs, m, r, v);
  }

  // ---- predictions ----

  /** As many destinations are predicted as the profile has, up to three, and none without prediction. */
  lemma PredictionCount(options: Options, pins: seq<Register>, leaders: set<Word>, profile: Profile, start: Word, address: Word)
    ensures var n := |PredictedAt(Configure(options, pins, leaders, profile, start), address)|;
      n == if !options.predict || address !in profile then 0 else if |profile[address]| < 3 then |profile[address]| else 3
  {
    hide Hottest, Configure, PredictedAt;
    ConfiguredPredictions(options, pins, leaders, profile, start, address);
    var _ := HottestAreHottest(DestinationsOf(profile, address), 3);
  }

  // ---- translation chaining ----

  /** Statements that dispatch, and the one that goes back to the loop that does. */
  predicate Returns(s: Stmt) { s == Dispatch || s == Continue }

  lemma {:induction false} PredictionsDoNotReturn(cfg: Config, targets: seq<Word>)
    ensures forall s :: s in Predictions(cfg, targets) ==> !Returns(s)
  {
    if targets == [] {
    } else {
      PredictionsDoNotReturn(cfg, targets[1..]);
    }
  }

  lemma PartsDoNotReturn(cfg: Config, t: Tracking, i: Instruction)
    ensures forall s :: s in LinkStmts(cfg, i) + SaveRegisters(cfg) + RestoreRegisters(cfg) ==> !Returns(s)
    ensures IsRegisterOp(i.op) ==> !Returns(ComputeStmt(cfg, t, i))
    ensures IsImmediateOp(i.op) ==> !Returns(ComputeImmediateStmt(cfg, t, i))
  {
    hide Operand, Decimal;
  }

  lemma OtherReturns(cfg: Config, t: Tracking, i: Instruction)
    ensures i.op != JALR ==> forall s :: s in OtherBlock(cfg, t, i) ==> !Returns(s)
    ensures i.op == JALR ==> exists before :: OtherBlock(cfg, t, i) == before + IndirectExit(cfg) && forall s :: s in before ==> !Returns(s)
  {
    hide Operand, Decimal, HexSigned, Shift12, LinkStmts, IndirectExit, SaveRegisters, RestoreRegisters, Predictions, PredictedAt, DirectTarget;
    PartsDoNotReturn(cfg, t, i);
    PredictionsDoNotReturn(cfg, PredictedAt(cfg, i.address));
    match i.op
    case JALR =>
      var before := [Set(Pc, Bin(Plus, Decimal(i.imm), Operand(cfg, t, i.rs1)))] + LinkStmts(cfg, i) + Predictions(cfg, PredictedAt(cfg, i.address));
      assert OtherBlock(cfg, t, i) == before + IndirectExit(cfg);
    case ECALL =>
    case INVALID =>
    case _ =>
  }

  /** Only indirect jumps dispatch: with chaining in place, without it by going back to the loop. */
  lemma ChainingExactly(cfg: Config, t: Tracking, i: Instruction)
    ensures Continue in Block(cfg, t, i) <==> i.op == JALR && !cfg.chaining
    ensures Dispatch in Block(cfg, t, i) <==> i.op == JALR && cfg.chaining
  {
    hide ClassOf, Operand, ComputeStmt, ComputeImmediateStmt, OtherBlock, LoadExpr, BranchTest, DirectTarget;
    PartsDoNotReturn(cfg, t, i);
    OtherClass(i.op);
    OtherReturns(cfg, t, i);
  }
}
