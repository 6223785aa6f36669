/** Control closure: every jump and every dispatch slot of the generated program names a label
    that is emitted exactly once. */
module Closure {
  import opened Words
  import opened Isa
  import opened Machine
  import opened Predecode
  import opened Cpp
  import opened Translate
  import opened Generated
  import opened Layout
  import opened Blocks
  import opened Simulation

  ghost predicate Once(code: seq<Stmt>, s: Stmt) { exists pos: nat :: OnlyAt(code, s, pos) }

  predicate Jumps(s: Stmt) { s.Goto? || s.IfGoto? }

  ghost predicate Closed(code: seq<Stmt>) {
    forall k :: 0 <= k < |code| && Jumps(code[k]) ==> Once(code, Label(code[k].target))
  }

  /** A target a block of instruction i may jump to directly. */
  predicate MayJump(cfg: Config, i: Instruction, a: Word) {
    || ((IsBranch(i.op) || i.op == JAL) && a == DirectTarget(i))
    || (i.op == JALR && a in PredictedAt(cfg, i.address) && a in cfg.leaders)
  }

  /** All jumps of an instruction go to leaders in the text. */
  ghost predicate Reachable(j: Job, i: Instruction) {
    forall a: Word :: MayJump(j.cfg, i, a) ==> HasLabel(j, a)
  }

  // ---- the jumps of a block ----

  ghost predicate JumpsAre(cfg: Config, i: Instruction, ss: seq<Stmt>) {
    forall k :: 0 <= k < |ss| && Jumps(ss[k]) ==> MayJump(cfg, i, ss[k].target)
  }

  lemma {:induction false} PredictionJumps(cfg: Config, targets: seq<Word>)
    ensures forall k :: 0 <= k < |Predictions(cfg, targets)| ==>
      var s := Predictions(cfg, targets)[k]; s.IfGoto? && s.target in targets && s.target in cfg.leaders
    ensures forall a :: a in targets && a in cfg.leaders ==> PredictionOf(a) in Predictions(cfg, targets)
  {
    if targets == [] {
    } else {
      PredictionJumps(cfg, targets[1..]);
      assert targets == [targets[0]] + targets[1..];
    }
  }

  function PredictionOf(a: Word): Stmt { IfGoto(Bin(Equal, Get(Pc), Hex(a)), a) }

  lemma PartsDoNotJump(cfg: Config, i: Instruction)
    ensures forall s :: s in LinkStmts(cfg, i) + IndirectExit(cfg) + SaveRegisters(cfg) + RestoreRegisters(cfg) ==> !Jumps(s)
  {
  }

  lemma OtherJumps(cfg: Config, t: Tracking, i: Instruction)
    requires ClassOf(i.op) == Other
    ensures JumpsAre(cfg, i, OtherBlock(cfg, t, i))
  {
    hide ClassOf, Operand, Decimal, HexSigned, Shift12, LinkStmts, IndirectExit, SaveRegisters, RestoreRegisters, Predictions,
      PredictedAt, DirectTarget;
    PartsDoNotJump(cfg, i);
    PredictionJumps(cfg, PredictedAt(cfg, i.address));
    match i.op
    case JALR =>
    case ECALL =>
    case INVALID =>
    case _ =>
  }

  lemma ComputesWithoutJump(cfg: Config, t: Tracking, i: Instruction)
    ensures IsRegisterOp(i.op) ==> !Jumps(ComputeStmt(cfg, t, i))
    ensures IsImmediateOp(i.op) ==> !Jumps(ComputeImmediateStmt(cfg, t, i))
  {
    hide Operand, Decimal;
  }

  lemma BlockJumps(cfg: Config, t: Tracking, i: Instruction)
    ensures JumpsAre(cfg, i, Block(cfg, t, i))
  {
    hide ClassOf, Operand, ComputeStmt, ComputeImmediateStmt, OtherBlock, LoadExpr, BranchTest, DirectTarget, PredictedAt;
    ComputesWithoutJump(cfg, t, i);
    if ClassOf(i.op) == Other {
      OtherJumps(cfg, t, i);
    }
  }

  /** Every jump an instruction may make is in its block. */
  lemma BlockMakesJump(cfg: Config, t: Tracking, i: Instruction, a: Word)
    requires MayJump(cfg, i, a)
    ensures exists k :: 0 <= k < |Block(cfg, t, i)| && Jumps(Block(cfg, t, i)[k]) && Block(cfg, t, i)[k].target == a
  {
    hide ClassOf, Operand, Decimal, LinkStmts, IndirectExit, Predictions, PredictedAt, BranchTest, DirectTarget, Block;
    var block := Block(cfg, t, i);
    OtherClass(i.op);
    if IsBranch(i.op) {
      BranchShape(cfg, t, i);
      assert Jumps(block[0]);
    } else if i.op == JAL {
      JalShape(cfg, t, i);
      assert Jumps(block[|block| - 1]);
    } else {
      JalrShape(cfg, t, i);
      PredictionJumps(cfg, PredictedAt(cfg, i.address));
      assert PredictionOf(a) in block;
      var k :| 0 <= k < |block| && block[k] == PredictionOf(a);
    }
  }

  // ---- the jumps of the program ----

  lemma {:induction false} BodyJumps(j: Job, n: nat)
    requires Ready(j) && n <= |j.instrs|
    requires forall k :: 0 <= k < n ==> Reachable(j, j.instrs[k])
    ensures forall k :: 0 <= k < |BodyUpTo(j.cfg, j.instrs, n)| && Jumps(BodyUpTo(j.cfg, j.instrs, n)[k]) ==>
      HasLabel(j, BodyUpTo(j.cfg, j.instrs, n)[k].target)
  {
    hide Caches, Block, TrackAt, Entry, HasLabel, MayJump;
    if n == 0 {
    } else {
      BodyJumps(j, n - 1);
      var i, t := j.instrs[n - 1], TrackAt(j.cfg, j.instrs, n - 1);
      BlockJumps(j.cfg, Entry(j.cfg, t, i), i);
      assert BodyUpTo(j.cfg, j.instrs, n) == BodyUpTo(j.cfg, j.instrs, n - 1) + Labelled(j.cfg, t, i);
    }
  }

  lemma EndsDoNotJump(cfg: Config)
    ensures forall s :: s in Prologue(cfg) || s in ExitBlock(cfg) || s in FallbackBlock(cfg) ==> !Jumps(s)
  {
    hide SaveRegisters, RestoreRegisters;
    PartsDoNotJump(cfg, Undecoded(0));
  }

  lemma LabelOnce(j: Job, a: Word)
    requires Ready(j) && HasLabel(j, a)
    ensures Once(Code(j.cfg, j.instrs), Label(a))
  {
    hide Code, Caches, OnlyAt;
    LandsIndex(j, a);
    LeaderMark(j.text, j.cfg, j.instrs, IndexOf(j, a));
  }

  lemma OnceHasLabel(j: Job, a: Word)
    requires Ready(j) && Once(Code(j.cfg, j.instrs), Label(a))
    ensures HasLabel(j, a)
  {
    hide Code, Caches, Prologue;
    var pos: nat :| OnlyAt(Code(j.cfg, j.instrs), Label(a), pos);
    EndsAt(j.cfg, j.instrs);
    MarkAt(j.text, j.cfg, j.instrs, pos);
    LabelPlace(j.text, j.cfg, j.instrs, pos, |j.instrs|);
  }

  lemma ReachableCloses(j: Job)
    requires Ready(j) && forall k :: 0 <= k < |j.instrs| ==> Reachable(j, j.instrs[k])
    ensures Closed(Code(j.cfg, j.instrs))
  {
    hide Code, BodyUpTo, Caches, Prologue, ExitBlock, FallbackBlock, HasLabel, Once, Reachable;
    var code := Code(j.cfg, j.instrs);
    BodyJumps(j, |j.instrs|);
    EndsDoNotJump(j.cfg);
    forall k | 0 <= k < |code| && Jumps(code[k])
      ensures Once(code, Label(code[k].target))
    {
      CodeParts(j.cfg, j.instrs, k);
      LabelOnce(j, code[k].target);
    }
  }

  lemma ClosedReaches(j: Job, k: nat, a: Word)
    requires Ready(j) && Closed(Code(j.cfg, j.instrs)) && k < |j.instrs| && MayJump(j.cfg, j.instrs[k], a)
    ensures HasLabel(j, a)
  {
    hide Code, Caches, Block, TrackAt, Entry, HasLabel, Once, MayJump, Start;
    var i, t := j.instrs[k], TrackAt(j.cfg, j.instrs, k);
    var code, pos, block := Code(j.cfg, j.instrs), Start(j.cfg, j.instrs, k), Labelled(j.cfg, t, i);
    BlockMakesJump(j.cfg, Entry(j.cfg, t, i), i, a);
    var m :| 0 <= m < |Block(j.cfg, Entry(j.cfg, t, i), i)| && Jumps(Block(j.cfg, Entry(j.cfg, t, i), i)[m])
      && Block(j.cfg, Entry(j.cfg, t, i), i)[m].target == a;
    CodeAt(j.cfg, j.instrs, k);
    var at := if i.address in j.cfg.leaders then m + 1 else m;
    assert code[pos..pos + |block|][at] == block[at];
    assert code[pos + at] == block[at];
    OnceHasLabel(j, a);
  }

  /** All jumps have their label, exactly once, if and only if every direct target, and every
      predicted target that is a leader, is a leader in the text. */
  lemma ClosedExactly(j: Job)
    requires Ready(j)
    ensures Closed(Code(j.cfg, j.instrs)) <==> forall k :: 0 <= k < |j.instrs| ==> Reachable(j, j.instrs[k])
  {
    hide Code, Caches, HasLabel, Closed, MayJump;
    if forall k :: 0 <= k < |j.instrs| ==> Reachable(j, j.instrs[k]) {
      ReachableCloses(j);
    }
    if Closed(Code(j.cfg, j.instrs)) {
      forall k, a: Word | 0 <= k < |j.instrs| && MayJump(j.cfg, j.instrs[k], a)
        ensures HasLabel(j, a)
      {
        ClosedReaches(j, k, a);
      }
    }
  }

  /** Every dispatch slot names a mark that is emitted once: the label of its address if and only
      if that is a leader, the fallback otherwise, and the exit in the slot after the last.
      Running off the last instruction arrives at the same exit. */
  lemma SlotsClosed(j: Job, k: nat)
    requires Ready(j) && k <= |j.instrs|
    ensures k < |Output(j).slots| && Once(Code(j.cfg, j.instrs), Output(j).slots[k])
    ensures k < |j.instrs| ==>
      (Output(j).slots[k] == Label(j.text.start + 4 * k) <==> j.text.start + 4 * k in j.cfg.leaders)
    ensures k == |j.instrs| ==> Output(j).slots[k] == ExitLabel
    ensures OnlyAt(Code(j.cfg, j.instrs), ExitLabel, Start(j.cfg, j.instrs, |j.instrs|))
  {
    hide Code, Caches, OnlyAt, Start;
    EndMarks(j.text, j.cfg, j.instrs);
    if k < |j.instrs| && j.text.start + 4 * k in j.cfg.leaders {
      LeaderMark(j.text, j.cfg, j.instrs, k);
    }
  }

  /** A job that can be translated is closed. */
  lemma TranslatableCloses(j: Job)
    requires Translatable(j)
    ensures Closed(Code(j.cfg, j.instrs))
  {
    hide Code, Caches, Closed, UpperSumOk, IsBranch;
    forall k | 0 <= k < |j.instrs|
      ensures Reachable(j, j.instrs[k])
    {
      assert Compiles(j, j.instrs[k]);
    }
    ReachableCloses(j);
  }
}
