/** The generated program simulates the guest, step by step. */
module Simulation {
  import opened Words
  import opened Isa
  import opened Machine
  import opened Interpreter
  import opened Agreement
  import opened Predecode
  import opened Cpp
  import opened Translate
  import opened Generated
  import opened Blocks
  import opened Straight
  import opened Layout

  /** A text section, its decoded instructions, and how to translate them. */
  datatype Job = Job(text: Text, instrs: seq<Instruction>, cfg: Config)

  /** A direct jump has a label to go to. */
  predicate HasLabel(j: Job, a: Word) { j.text.At(a) && a in j.cfg.leaders }

  /** What the generated source needs to compile and to have a meaning. */
  predicate Compiles(j: Job, i: Instruction) {
    && (i.op == AUIPC && i.rd != 0 ==> UpperSumOk(i))
    && (IsBranch(i.op) || i.op == JAL ==> HasLabel(j, DirectTarget(i)))
    && (i.op == JALR ==> forall a :: a in PredictedAt(j.cfg, i.address) && a in j.cfg.leaders ==> j.text.At(a))
  }

  ghost predicate Translatable(j: Job) {
    && Ready(j)
    && forall k :: 0 <= k < |j.instrs| ==> Compiles(j, j.instrs[k])
  }

  function Output(j: Job): Program
    requires Ready(j)
  {
    Program(Code(j.cfg, j.instrs), Slots(j.cfg, |j.instrs|), |RestoreRegisters(j.cfg)|, j.cfg.start)
  }

  /** The text as the generated program keeps it in memory for the fallback. */
  function Kept(j: Job): Text {
    Text(j.text.start, seq(|j.instrs|, k requires 0 <= k < |j.instrs| => j.instrs[k].word))
  }

  /** Index of the instruction at an address. */
  function IndexOf(j: Job, pc: Word): int { (pc - j.text.start) / 4 }

  /** In the text, or just past it, where the program ends. */
  predicate Lands(j: Job, pc: Word) { j.text.At(pc) || pc == j.text.End() }

  lemma LandsIndex(j: Job, pc: Word)
    requires j.text.Placed() && |j.instrs| == |j.text.words| && Lands(j, pc)
    ensures 0 <= IndexOf(j, pc) <= |j.instrs| && pc == j.text.start + 4 * IndexOf(j, pc)
    ensures j.text.At(pc) <==> IndexOf(j, pc) < |j.instrs|
    ensures DispatchIndex(j.text.start, pc) == IndexOf(j, pc) && Slot(j.text.start, pc) == IndexOf(j, pc)
  {
  }

  // ---- how a run and a guest state correspond ----

  ghost predicate InCode(j: Job, r: Run, g: State)
    requires Ready(j)
  {
    LandsIndexIf(j, g.pc);
    && Lands(j, g.pc) && r.At?
    && r.pos == Start(j.cfg, j.instrs, IndexOf(j, g.pc)) && Agrees(j.cfg, r.c, g)
    && (j.text.At(g.pc) ==> Sound(Entry(j.cfg, TrackAt(j.cfg, j.instrs, IndexOf(j, g.pc)), j.instrs[IndexOf(j, g.pc)]), g.regs))
  }

  lemma LandsIndexIf(j: Job, pc: Word)
    requires j.text.Placed() && |j.instrs| == |j.text.words|
    ensures Lands(j, pc) ==> 0 <= IndexOf(j, pc) <= |j.instrs|
    ensures j.text.At(pc) ==> IndexOf(j, pc) < |j.instrs|
  {
  }

  ghost predicate InFallback(j: Job, r: Run, g: State) {
    && j.text.At(g.pc) && g.pc !in j.cfg.leaders && r.At?
    && r.pos == FallbackAt(j.cfg, j.instrs)
    && Generated.Context(r.c) == g && g.regs[0] == 0 && r.c.index == IndexOf(j, g.pc)
  }

  /** In translated code, or in the fallback. */
  ghost predicate Linked(j: Job, r: Run, g: State, code: bool)
    requires Ready(j)
  {
    if code then InCode(j, r, g) else InFallback(j, r, g)
  }

  /** A dispatch to this address goes to a label, or to the exit. */
  predicate Leads(j: Job, pc: Word) { j.text.At(pc) ==> pc in j.cfg.leaders }

  /** Where a dispatch puts the run. */
  ghost predicate Arrived(j: Job, r: Run, g: State)
    requires Ready(j)
  {
    Linked(j, r, g, Leads(j, g.pc))
  }

  ghost predicate Ready(j: Job) {
    && j.text.Placed() && |j.instrs| == |j.text.words| && Caches(j.text, j.instrs)
    && j.cfg.start == j.text.start && Proper(j.cfg)
  }

  // ---- on the way to the next guest state ----

  /** At a dispatch and at the fallback label, `ctx.pc`, the dispatch index and all registers
      are those of the guest. */
  ghost predicate OnTarget(j: Job, r: Run, g: State) {
    r.At? && r.pos < |Code(j.cfg, j.instrs)| && !Quiet(Code(j.cfg, j.instrs)[r.pos]) ==>
      r.c.pc == g.pc && r.c.index == DispatchIndex(j.text.start, g.pc) && Agrees(j.cfg, r.c, g)
  }

  predicate Quiet(s: Stmt) { s != Dispatch && s != InvalidLabel }

  /** At the first statement of an instruction. */
  ghost predicate Opens(j: Job, r: Run) { r.At? && StartsAt(j.cfg, j.instrs, r.pos) }

  /** On the way from r to the guest state g. */
  ghost predicate OnTheWay(j: Job, r: Run, x: Run, g: State) { OnTarget(j, x, g) && (Opens(j, x) ==> x == r) }

  /** The next n statements are on the way to g, and no other instruction is entered on it. */
  ghost predicate Clean(j: Job, r: Run, host: Host, n: nat, g: State)
    requires Ready(j)
  {
    forall m: nat :: m < n ==> OnTheWay(j, r, Steps(Output(j), r, host, m), g)
  }

  ghost predicate Within(j: Job, lo: int, hi: int) { Inside(j.cfg, j.instrs, lo, hi) }

  lemma NotOpen(j: Job, lo: int, hi: int, pos: nat, c: Frame)
    requires Within(j, lo, hi) && lo < pos < hi
    ensures !Opens(j, At(pos, c))
  {
    hide StartsAt;
  }

  lemma WithinNarrower(j: Job, lo: int, hi: int, lo': int, hi': int)
    requires Within(j, lo, hi) && lo <= lo' && hi' <= hi
    ensures Within(j, lo', hi')
  {
    hide Inside;
    InsideNarrower(j.cfg, j.instrs, lo, hi, lo', hi');
  }

  lemma WithinEnds(j: Job)
    ensures Within(j, -1, |Prologue(j.cfg)|) && Within(j, Start(j.cfg, j.instrs, |j.instrs|) - 1, |Code(j.cfg, j.instrs)|)
  {
    hide Inside, Code, Start, Prologue;
    EndsInside(j.cfg, j.instrs, |Code(j.cfg, j.instrs)|);
  }

  lemma WithinBlock(j: Job, k: nat)
    requires k < |j.instrs|
    ensures Within(j, Start(j.cfg, j.instrs, k), Start(j.cfg, j.instrs, k + 1))
  {
    hide Inside, Start;
    BlockInside(j.cfg, j.instrs, k);
  }

  lemma CleanOne(j: Job, r: Run, host: Host, g: State)
    requires Ready(j) && OnTarget(j, r, g)
    ensures Clean(j, r, host, 1, g)
  {
    hide OnTarget, Output, Step, Caches, Opens;
  }

  lemma CleanNone(j: Job, r: Run, host: Host, g: State)
    requires Ready(j)
    ensures Clean(j, r, host, 0, g)
  {
    hide OnTheWay, Output, Step, Caches;
  }

  lemma QuietTarget(j: Job, pos: nat, s: Stmt, c: Frame, g: State)
    requires Follows(Code(j.cfg, j.instrs), pos, [s]) && Quiet(s)
    ensures OnTarget(j, At(pos, c), g)
  {
    hide Code, Agrees;
    FollowsHead(Code(j.cfg, j.instrs), pos, s);
  }

  lemma Joins(j: Job, r: Run, host: Host, m: nat, n: nat, g: State)
    requires Ready(j) && Clean(j, r, host, m, g) && Clean(j, Steps(Output(j), r, host, m), host, n, g)
    requires m == 0 || n == 0 || !Opens(j, Steps(Output(j), r, host, m))
    ensures Clean(j, r, host, m + n, g)
    ensures Steps(Output(j), Steps(Output(j), r, host, m), host, n) == Steps(Output(j), r, host, m + n)
  {
    hide OnTarget, Output, Step, Caches, Opens;
    StepsCompose(Output(j), r, host, m, n);
    forall k: nat | k < m + n
      ensures OnTheWay(j, r, Steps(Output(j), r, host, k), g)
    {
      if k >= m {
        StepsCompose(Output(j), r, host, m, k - m);
        assert k - m < n;
      }
    }
  }

  /** A straight-line stretch has neither. */
  lemma {:induction false} CleanStraight(j: Job, pos: nat, ss: seq<Stmt>, c: Frame, host: Host, g: State)
    requires Ready(j) && Follows(Code(j.cfg, j.instrs), pos, ss) && AllSimple(ss) && Unmarked(ss) && Within(j, pos, pos + |ss|)
    ensures Clean(j, At(pos, c), host, |ss|, g)
    decreases |ss|
  {
    hide OnTarget, Output, Steps, Caches, Code, Do, Clean, Within, Opens;
    if ss == [] {
      CleanNone(j, At(pos, c), host, g);
    } else {
      WithinNarrower(j, pos, pos + |ss|, pos + 1, pos + |ss|);
      assert [ss[0]] + ss[1..] == ss;
      FollowsSplit(Code(j.cfg, j.instrs), pos, [ss[0]], ss[1..]);
      QuietTarget(j, pos, ss[0], c, g);
      CleanOne(j, At(pos, c), host, g);
      OutputCode(j);
      RunsStraight(Output(j), pos, [ss[0]], c, host);
      var r := Steps(Output(j), At(pos, c), host, 1);
      if r.At? {
        LandsNext(DoAll([ss[0]], c, host), pos + 1);
        CleanStraight(j, pos + 1, ss[1..], r.c, host, g);
        if |ss| > 1 {
          NotOpen(j, pos, pos + |ss|, pos + 1, r.c);
        }
      } else {
        CleanFinished(j, r, host, |ss| - 1, g);
      }
      Joins(j, At(pos, c), host, 1, |ss| - 1, g);
    }
  }

  lemma LandsNext(o: Outcome<Frame>, pos: nat)
    ensures Landed(o, pos).At? ==> Landed(o, pos).pos == pos
  {
  }

  lemma CleanFinished(j: Job, r: Run, host: Host, n: nat, g: State)
    requires Ready(j) && !r.At?
    ensures Clean(j, r, host, n, g) && !Opens(j, r)
  {
    hide Output, Steps, Caches, Code, Agrees, StartsAt;
    forall m: nat | m < n
      ensures OnTheWay(j, r, Steps(Output(j), r, host, m), g)
    {
      FinishedStays(Output(j), r, host, m);
    }
  }

  // ---- jumps and dispatch ----

  lemma IndexComputes(cfg: Config, c: Frame, host: Host)
    ensures Do(IndexStmt(cfg), c, host) == Next(c.(index := DispatchIndex(cfg.start, c.pc)))
  {
    hide TruncDiv, TruncRem, Wrap;
    var offset := Bin(Minus, Get(Pc), Hex(cfg.start));
    var d := Wrap(c.pc - cfg.start);
    OffsetValue(cfg.start, c);
    TruncUnsigned(d, 4);
    WrapWord(d);
    WrapWord(4);
    WrapWord(d / 4);
    assert Eval(Dec(4), c) == Some(Value(I32, 4));
    assert Eval(Bin(Quot, offset, Dec(4)), c) == Some(Value(U32, d / 4));
  }

  lemma OffsetValue(start: Word, c: Frame)
    ensures Eval(Bin(Minus, Get(Pc), Hex(start)), c) == Some(Value(U32, Wrap(c.pc - start)))
  {
    hide Wrap;
    assert Eval(Get(Pc), c) == Some(Value(U32, c.pc));
    WrapWord(c.pc);
    WrapWord(start);
  }

  /** `ctx.pc` and `pcDispatchIndex` hold no guest state. */
  lemma ScratchAgrees(cfg: Config, c: Frame, s: State, pc: Word, index: Word)
    requires Agrees(cfg, c, s)
    ensures Agrees(cfg, c.(pc := pc, index := index), s)
  {
    forall r: Register | r != 0
      ensures Lookup(cfg.Holder(r), c.(pc := pc, index := index)) == s.regs[r]
    {
      assert Lookup(cfg.Holder(r), c) == s.regs[r];
    }
  }

  lemma ResetSound(t: Tracking, regs: Regs)
    ensures Sound(Reset(t), regs)
  {
  }

  /** Arriving at a leader, or at the end, is arriving in step with the guest. */
  lemma ArrivesInCode(j: Job, c: Frame, g: State)
    requires Ready(j) && Lands(j, g.pc) && Agrees(j.cfg, c, g)
    requires j.text.At(g.pc) ==> g.pc in j.cfg.leaders
    ensures 0 <= IndexOf(j, g.pc) <= |j.instrs|
    ensures InCode(j, At(Start(j.cfg, j.instrs, IndexOf(j, g.pc)), c), g)
  {
    hide Agrees, Sound, Start, TrackAt, Decode;
    LandsIndex(j, g.pc);
    if j.text.At(g.pc) {
      var k := IndexOf(j, g.pc);
      DecodeKeepsAddress(j.text.words[k], j.text.start + 4 * k);
      ResetSound(TrackAt(j.cfg, j.instrs, k), g.regs);
    }
  }

  lemma JumpArrives(j: Job, c: Frame, a: Word)
    requires Ready(j) && HasLabel(j, a)
    ensures 0 <= IndexOf(j, a) < |j.instrs|
    ensures JumpTo(Output(j), Label(a), c) == At(Start(j.cfg, j.instrs, IndexOf(j, a)), c)
  {
    hide Code, Start, Caches;
    LandsIndex(j, a);
    LeaderMark(j.text, j.cfg, j.instrs, IndexOf(j, a));
    OnlyAtFinds(Code(j.cfg, j.instrs), Label(a), Start(j.cfg, j.instrs, IndexOf(j, a)));
  }

  lemma EndJumps(j: Job, c: Frame)
    requires Ready(j)
    ensures JumpTo(Output(j), ExitLabel, c) == At(Start(j.cfg, j.instrs, |j.instrs|), c)
    ensures JumpTo(Output(j), InvalidLabel, c) == At(InvalidAt(j.cfg, j.instrs), c)
  {
    hide Code, Start, InvalidAt, Caches;
    EndMarks(j.text, j.cfg, j.instrs);
    OnlyAtFinds(Code(j.cfg, j.instrs), ExitLabel, Start(j.cfg, j.instrs, |j.instrs|));
    OnlyAtFinds(Code(j.cfg, j.instrs), InvalidLabel, InvalidAt(j.cfg, j.instrs));
  }

  lemma SlotAt(j: Job, pc: Word)
    requires Ready(j) && Lands(j, pc)
    ensures 0 <= IndexOf(j, pc) < |Output(j).slots|
    ensures Output(j).slots[IndexOf(j, pc)] ==
      if !j.text.At(pc) then ExitLabel else if pc in j.cfg.leaders then Label(pc) else InvalidLabel
  {
    hide Code;
    LandsIndex(j, pc);
  }

  /** From the INVALID label to the fallback loop: all guest registers go to the context. */
  lemma EntersFallback(j: Job, c: Frame, g: State, host: Host) returns (n: nat)
    requires Ready(j) && Agrees(j.cfg, c, g) && c.pc == g.pc && j.text.At(g.pc) && g.pc !in j.cfg.leaders
    requires c.index == IndexOf(j, g.pc)
    ensures InFallback(j, Steps(Output(j), At(InvalidAt(j.cfg, j.instrs), c), host, n), g)
    ensures Clean(j, At(InvalidAt(j.cfg, j.instrs), c), host, n, g)
  {
    hide Code, Agrees, Caches, SaveRegisters, RestoreRegisters, Start, Steps, Clean, OnTarget, Follows, Output, DoAll, Within, Opens;
    EndsAt(j.cfg, j.instrs);
    var code, save, pos := Code(j.cfg, j.instrs), SaveRegisters(j.cfg), InvalidAt(j.cfg, j.instrs);
    var rest := [Fallback] + RestoreRegisters(j.cfg) + [Continue];
    assert FallbackBlock(j.cfg) == [InvalidLabel] + (save + rest);
    FollowsSplit(code, pos, [InvalidLabel], save + rest);
    FollowsSplit(code, pos + 1, save, rest);
    MarkStep(j, pos, InvalidLabel, c, host);
    AtInvalid(j, pos, c, g);
    CleanOne(j, At(pos, c), host, g);
    PinningSimple(j.cfg);
    PartsUnmarked(j.cfg, Undecoded(0));
    BehindInvalid(j, pos + 1, |save|, c);
    CleanStraight(j, pos + 1, save, c, host, g);
    SaveGathers(j.cfg, c, g, host);
    SameMemory(j.cfg, c, g);
    ZeroRegister(j.cfg, c, g);
    OutputCode(j);
    RunsStraight(Output(j), pos + 1, save, c, host);
    Joins(j, At(pos, c), host, 1, |save|, g);
    n := 1 + |save|;
  }

  /** Positions of the exit and fallback blocks start no instruction. */
  lemma BehindInvalid(j: Job, pos: nat, len: nat, c: Frame)
    requires Start(j.cfg, j.instrs, |j.instrs|) <= pos
    ensures Within(j, pos, pos + len) && !Opens(j, At(pos, c))
  {
    hide Start, StartsAt;
    EndsInside(j.cfg, j.instrs, pos + len + 1);
  }

  lemma AtInvalid(j: Job, pos: nat, c: Frame, g: State)
    requires Ready(j) && Agrees(j.cfg, c, g) && c.pc == g.pc && j.text.At(g.pc) && c.index == IndexOf(j, g.pc)
    ensures OnTarget(j, At(pos, c), g)
  {
    hide Code, Agrees, Caches;
    LandsIndex(j, g.pc);
  }

  /** Passing a label. */
  lemma MarkStep(j: Job, pos: nat, s: Stmt, c: Frame, host: Host)
    requires Ready(j) && Follows(Code(j.cfg, j.instrs), pos, [s]) && IsMark(s)
    ensures Steps(Output(j), At(pos, c), host, 1) == At(pos + 1, c)
  {
    hide Code, Caches, JumpTo, FallbackRound, Eval;
    FollowsHead(Code(j.cfg, j.instrs), pos, s);
    StepsOne(Output(j), pos, c, host);
  }

  /** One step at a statement known by name. */
  lemma StepsOne(p: Program, pos: nat, c: Frame, host: Host)
    ensures Steps(p, At(pos, c), host, 1) == StepAt(p, pos, c, host)
  {
    hide StepAt;
    assert Steps(p, Step(p, At(pos, c), host), host, 0) == Step(p, At(pos, c), host);
  }

  lemma DispatchStep(p: Program, pos: nat, c: Frame, host: Host)
    requires pos < |p.code| && p.code[pos] == Dispatch && c.index < |p.slots|
    ensures StepAt(p, pos, c, host) == JumpTo(p, p.slots[c.index], c)
  {
    hide JumpTo, Do, FallbackRound;
  }

  /** The dispatch pair sends control to the label, the exit or the fallback of the guest's pc. */
  lemma DispatchLands(j: Job, pos: nat, c: Frame, g: State, host: Host) returns (n: nat)
    requires Ready(j) && Follows(Code(j.cfg, j.instrs), pos, [IndexStmt(j.cfg), Dispatch]) && Within(j, pos, pos + 2)
    requires Agrees(j.cfg, c, g) && c.pc == g.pc && Lands(j, g.pc)
    ensures 0 < n && Arrived(j, Steps(Output(j), At(pos, c), host, n), g) && Clean(j, At(pos, c), host, n, g)
  {
    hide Code, Slots, Agrees, Caches, Start, InvalidAt, JumpTo, StepAt, Do, InCode, InFallback, SaveRegisters, Clean, Steps, Within, Opens;
    var p := Output(j);
    var c1 := c.(index := DispatchIndex(j.cfg.start, c.pc));
    LandsIndex(j, g.pc);
    ScratchAgrees(j.cfg, c, g, c.pc, c1.index);
    SlotAt(j, g.pc);
    var r := DispatchJumps(j, pos, c, g, host);
    EndJumps(j, c1);
    n := 2;
    if j.text.At(g.pc) && g.pc !in j.cfg.leaders {
      var m := EntersFallback(j, c1, g, host);
      InvalidBehind(j, c1);
      Joins(j, At(pos, c), host, 2, m, g);
      n := 2 + m;
    } else {
      if j.text.At(g.pc) {
        JumpArrives(j, c1, g.pc);
      }
      ArrivesInCode(j, c1, g);
    }
  }

  lemma InvalidBehind(j: Job, c: Frame)
    ensures !Opens(j, At(InvalidAt(j.cfg, j.instrs), c))
  {
    hide Start, Opens, Within;
    BehindInvalid(j, InvalidAt(j.cfg, j.instrs), 0, c);
  }

  lemma DispatchJumps(j: Job, pos: nat, c: Frame, g: State, host: Host) returns (r: Run)
    requires Ready(j) && Follows(Code(j.cfg, j.instrs), pos, [IndexStmt(j.cfg), Dispatch]) && Within(j, pos, pos + 2)
    requires Agrees(j.cfg, c, g) && c.pc == g.pc && Lands(j, g.pc)
    requires 0 <= IndexOf(j, g.pc) < |Output(j).slots|
    ensures r == JumpTo(Output(j), Output(j).slots[IndexOf(j, g.pc)], c.(index := DispatchIndex(j.cfg.start, c.pc)))
    ensures Steps(Output(j), At(pos, c), host, 2) == r && Clean(j, At(pos, c), host, 2, g)
  {
    hide Code, Slots, Agrees, Caches, JumpTo, StepAt, Clean, Steps, Within, Opens;
    var p, c1 := Output(j), c.(index := DispatchIndex(j.cfg.start, c.pc));
    r := JumpTo(p, p.slots[IndexOf(j, g.pc)], c1);
    LandsIndex(j, g.pc);
    SecondOf(p.code, pos, IndexStmt(j.cfg), Dispatch);
    IndexStep(p, pos, j.cfg, c, host);
    ScratchAgrees(j.cfg, c, g, c.pc, c1.index);
    CleanOne(j, At(pos, c), host, g);
    CleanOne(j, At(pos + 1, c1), host, g);
    DispatchStep(p, pos + 1, c1, host);
    StepsOne(p, pos + 1, c1, host);
    NotOpen(j, pos, pos + 2, pos + 1, c1);
    Joins(j, At(pos, c), host, 1, 1, g);
  }

  lemma SecondOf(code: seq<Stmt>, pos: nat, a: Stmt, b: Stmt)
    requires Follows(code, pos, [a, b])
    ensures pos + 1 < |code| && code[pos] == a && code[pos + 1] == b
  {
    var two := code[pos..pos + 2];
    assert two[0] == code[pos] && two[1] == code[pos + 1];
  }

  lemma IndexStep(p: Program, pos: nat, cfg: Config, c: Frame, host: Host)
    requires Follows(p.code, pos, [IndexStmt(cfg), Dispatch])
    ensures Steps(p, At(pos, c), host, 1) == At(pos + 1, c.(index := DispatchIndex(cfg.start, c.pc)))
  {
    hide Do, JumpTo, FallbackRound, DispatchIndex;
    SecondOf(p.code, pos, IndexStmt(cfg), Dispatch);
    IndexComputes(cfg, c, host);
    StepsOne(p, pos, c, host);
  }

  lemma ContinueStep(p: Program, pos: nat, c: Frame, host: Host)
    requires pos < |p.code| && p.code[pos] == Continue
    ensures Steps(p, At(pos, c), host, 1) == At(p.head, c)
  {
    hide Do, JumpTo, FallbackRound;
    StepsOne(p, pos, c, host);
  }

  lemma HeadWithin(j: Job, c: Frame)
    ensures Within(j, |RestoreRegisters(j.cfg)|, |RestoreRegisters(j.cfg)| + 2)
    ensures Within(j, 0, |RestoreRegisters(j.cfg)|) && !Opens(j, At(|RestoreRegisters(j.cfg)|, c))
  {
    hide RestoreRegisters, Within, Opens, Start;
    var loads := |RestoreRegisters(j.cfg)|;
    WithinEnds(j);
    WithinNarrower(j, -1, loads + 2, loads, loads + 2);
    WithinNarrower(j, -1, loads + 2, 0, loads);
    NotOpen(j, -1, loads + 2, loads, c);
  }

  /** `continue` goes round the dispatch loop. */
  lemma ContinueLands(j: Job, pos: nat, c: Frame, g: State, host: Host) returns (n: nat)
    requires Ready(j) && pos < |Code(j.cfg, j.instrs)| && Code(j.cfg, j.instrs)[pos] == Continue
    requires Agrees(j.cfg, c, g) && c.pc == g.pc && Lands(j, g.pc)
    ensures 0 < n && Arrived(j, Steps(Output(j), At(pos, c), host, n), g) && Clean(j, At(pos, c), host, n, g)
  {
    hide Code, Agrees, Caches, Arrived, RestoreRegisters, Steps, Clean, Within, Opens;
    EndsAt(j.cfg, j.instrs);
    FollowsSplit(Code(j.cfg, j.instrs), 0, RestoreRegisters(j.cfg), [IndexStmt(j.cfg), Dispatch]);
    ContinueStep(Output(j), pos, c, host);
    CleanOne(j, At(pos, c), host, g);
    HeadWithin(j, c);
    var m := DispatchLands(j, |RestoreRegisters(j.cfg)|, c, g, host);
    Joins(j, At(pos, c), host, 1, m, g);
    n := 1 + m;
  }

  // ---- one instruction of translated code ----

  /** Past the label, if there is one, to the block of instruction k. */
  lemma EntersBlock(j: Job, k: nat, c: Frame, host: Host, u: State) returns (n: nat, pos: nat)
    requires Ready(j) && k < |j.instrs|
    ensures Steps(Output(j), At(Start(j.cfg, j.instrs, k), c), host, n) == At(pos, c)
    ensures Clean(j, At(Start(j.cfg, j.instrs, k), c), host, n, u)
    ensures Follows(Code(j.cfg, j.instrs), pos, BlockOf(j, k)) && pos + |BlockOf(j, k)| == Start(j.cfg, j.instrs, k + 1)
    ensures pos == Start(j.cfg, j.instrs, k) + n && Within(j, pos, pos + |BlockOf(j, k)|)
    ensures n == 0 || |BlockOf(j, k)| == 0 || !Opens(j, At(pos, c))
  {
    hide Code, Caches, Start, TrackAt, Entry, Block, Step, Clean, OnTarget, Within, Opens;
    var i, t := j.instrs[k], Entry(j.cfg, TrackAt(j.cfg, j.instrs, k), j.instrs[k]);
    CodeAt(j.cfg, j.instrs, k);
    pos := Start(j.cfg, j.instrs, k);
    if i.address in j.cfg.leaders {
      FollowsSplit(Code(j.cfg, j.instrs), pos, [Label(i.address)], Block(j.cfg, t, i));
      MarkStep(j, pos, Label(i.address), c, host);
      QuietTarget(j, pos, Label(i.address), c, u);
      CleanOne(j, At(pos, c), host, u);
      n, pos := 1, pos + 1;
    } else {
      assert [] + Block(j.cfg, t, i) == Block(j.cfg, t, i);
      CleanNone(j, At(pos, c), host, u);
      n := 0;
    }
    var start, end := Start(j.cfg, j.instrs, k), Start(j.cfg, j.instrs, k + 1);
    WithinBlock(j, k);
    WithinNarrower(j, start, end, pos, end);
    if n > 0 && pos < end {
      NotOpen(j, start, end, pos, c);
    }
  }

  function BlockOf(j: Job, k: nat): seq<Stmt>
    requires Ready(j) && k < |j.instrs|
  {
    Block(j.cfg, Entry(j.cfg, TrackAt(j.cfg, j.instrs, k), j.instrs[k]), j.instrs[k])
  }

  function InstrAt(j: Job, g: State): Instruction
    requires Ready(j) && j.text.At(g.pc)
  {
    LandsIndexIf(j, g.pc);
    j.instrs[IndexOf(j, g.pc)]
  }

  lemma InstrFacts(j: Job, g: State)
    requires Ready(j) && j.text.At(g.pc)
    ensures InstrAt(j, g) == Decode(j.text.words[IndexOf(j, g.pc)], g.pc)
    ensures InstrAt(j, g).address == g.pc && Decodable(InstrAt(j, g))
    ensures g.pc + 4 <= j.text.End() && Lands(j, g.pc + 4) && IndexOf(j, g.pc + 4) == IndexOf(j, g.pc) + 1
  {
    hide Decode, Decodable;
    LandsIndex(j, g.pc);
    DecodeDecodable(j.text.words[IndexOf(j, g.pc)], g.pc);
  }

  /** Falling through to the next instruction keeps tracking and position in step. */
  lemma FallsThrough(j: Job, c: Frame, g: State, u: State)
    requires Ready(j) && j.text.At(g.pc) && u.pc == g.pc + 4 && Agrees(j.cfg, c, u)
    requires IndexOf(j, g.pc) + 1 <= |j.instrs|
    requires Sound(TrackAt(j.cfg, j.instrs, IndexOf(j, g.pc) + 1), u.regs)
    ensures InCode(j, At(Start(j.cfg, j.instrs, IndexOf(j, g.pc) + 1), c), u)
  {
    hide Agrees, Start, TrackAt, Caches;
    LandsIndex(j, g.pc);
    LandsIndex(j, u.pc);
    ResetSound(TrackAt(j.cfg, j.instrs, IndexOf(j, g.pc) + 1), u.regs);
  }

  lemma TracksOn(j: Job, g: State, host: Host)
    requires Ready(j) && j.text.At(g.pc) && Effect(InstrAt(j, g), g, host).Next? && g.regs[0] == 0
    requires 0 <= IndexOf(j, g.pc) < |j.instrs|
    requires Sound(Entry(j.cfg, TrackAt(j.cfg, j.instrs, IndexOf(j, g.pc)), InstrAt(j, g)), g.regs)
    ensures Sound(TrackAt(j.cfg, j.instrs, IndexOf(j, g.pc) + 1), Retire(Effect(InstrAt(j, g), g, host).state).regs)
  {
    hide Effect, Sound, Retire, Entry, After, Caches, Decodable;
    InstrFacts(j, g);
    TrackingSound(Entry(j.cfg, TrackAt(j.cfg, j.instrs, IndexOf(j, g.pc)), InstrAt(j, g)), InstrAt(j, g), g, host);
  }

  /** The guest state after a step, in terms of the run after n steps. */
  ghost predicate Continues(j: Job, r: Run, e: Outcome<State>, code: bool)
    requires Ready(j)
  {
    match e
    case Next(u) => Linked(j, r, Retire(u), code)
    case Exited(mem, world) => r == Ended(mem, world)
    case Fault => true
  }

  /** Statements are taken only from instructions that have some. */
  predicate HasCode(j: Job, k: nat, n: nat)
    requires k < |j.instrs|
  {
    n > 0 ==> Start(j.cfg, j.instrs, k) < Start(j.cfg, j.instrs, k + 1)
  }

  /** The guest's next state, if it has one. */
  function NextOf(e: Outcome<State>, g: State): State { if e.Next? then Retire(e.state) else g }

  /** A straight-line instruction runs its block and arrives at the next instruction. */
  lemma StraightRuns(j: Job, k: nat, c: Frame, host: Host, u: State) returns (n: nat)
    requires Ready(j) && k < |j.instrs| && RunsOn(j.instrs[k].op)
    ensures Steps(Output(j), At(Start(j.cfg, j.instrs, k), c), host, n)
            == Landed(DoAll(BlockOf(j, k), c, host), Start(j.cfg, j.instrs, k + 1))
    ensures Clean(j, At(Start(j.cfg, j.instrs, k), c), host, n, u) && n == Start(j.cfg, j.instrs, k + 1) - Start(j.cfg, j.instrs, k)
  {
    hide Code, Caches, Start, TrackAt, Entry, Block, Steps, DoAll, RunsOn, Clean, Within, Opens;
    var i := j.instrs[k];
    var m, pos := EntersBlock(j, k, c, host, u);
    BlockSimple(j.cfg, Entry(j.cfg, TrackAt(j.cfg, j.instrs, k), i), i);
    BlockUnmarked(j.cfg, Entry(j.cfg, TrackAt(j.cfg, j.instrs, k), i), i);
    RunsStraight(Output(j), pos, BlockOf(j, k), c, host);
    CleanStraight(j, pos, BlockOf(j, k), c, host, u);
    Joins(j, At(Start(j.cfg, j.instrs, k), c), host, m, |BlockOf(j, k)|, u);
    n := m + |BlockOf(j, k)|;
  }

  lemma StraightStep(j: Job, c: Frame, g: State, host: Host) returns (n: nat)
    requires Ready(j) && j.text.At(g.pc) && 0 <= IndexOf(j, g.pc) < |j.instrs|
    requires InCode(j, At(Start(j.cfg, j.instrs, IndexOf(j, g.pc)), c), g)
    requires var i := InstrAt(j, g); RunsOn(i.op) && FaithfulRem(i, g) && (i.op == AUIPC && i.rd != 0 ==> UpperSumOk(i))
    ensures Continues(j, Steps(Output(j), At(Start(j.cfg, j.instrs, IndexOf(j, g.pc)), c), host, n), Effect(InstrAt(j, g), g, host), true)
    ensures Clean(j, At(Start(j.cfg, j.instrs, IndexOf(j, g.pc)), c), host, n, NextOf(Effect(InstrAt(j, g), g, host), g))
    ensures HasCode(j, IndexOf(j, g.pc), n)
  {
    hide Code, Caches, Agrees, Sound, Start, TrackAt, Entry, Block, Steps, DoAll, Effect, Retire, RunsOn, FaithfulRem, UpperSumOk,
      Decodable, InFallback, Output, Clean, Within, Opens;
    var k, i := IndexOf(j, g.pc), InstrAt(j, g);
    var e := Effect(i, g, host);
    InstrFacts(j, g);
    ZeroRegister(j.cfg, c, g);
    n := StraightRuns(j, k, c, host, NextOf(e, g));
    StraightBlock(j.cfg, Entry(j.cfg, TrackAt(j.cfg, j.instrs, k), i), i, c, g, host);
    if e.Next? {
      EffectKeepsPc(i, g, host);
      RetiredPc(e.state, g.pc);
      TracksOn(j, g, host);
      FallsThrough(j, DoAll(BlockOf(j, k), c, host).state, g, Retire(e.state));
    }
  }

  lemma RetiredPc(u: State, pc: Word)
    requires u.pc == pc && pc + 4 < 0x1_0000_0000
    ensures Retire(u).pc == pc + 4
  {
  }

  lemma IfGotoStep(p: Program, pos: nat, cond: Expr, target: Word, c: Frame, host: Host, b: bool)
    requires Follows(p.code, pos, [IfGoto(cond, target)]) && Eval(cond, c) == Truthy(b)
    ensures Steps(p, At(pos, c), host, 1) == if b then JumpTo(p, Label(target), c) else At(pos + 1, c)
  {
    hide JumpTo, FallbackRound, Eval, Do;
    FollowsHead(p.code, pos, p.code[pos]);
    StepsOne(p, pos, c, host);
  }

  lemma GotoStep(p: Program, pos: nat, target: Word, c: Frame, host: Host)
    requires Follows(p.code, pos, [Goto(target)])
    ensures Steps(p, At(pos, c), host, 1) == JumpTo(p, Label(target), c)
  {
    hide JumpTo, FallbackRound, Eval, Do;
    FollowsHead(p.code, pos, p.code[pos]);
    StepsOne(p, pos, c, host);
  }

  lemma WrapTwice(a: int, b: int)
    ensures Wrap(Wrap(a + b - 4) + 4) == Wrap(a + b)
  {
    hide Wrap;
    WrapSum(4, a + b - 4);
  }

  lemma BranchEffect(i: Instruction, g: State, host: Host)
    requires IsBranch(i.op) && i.address == g.pc && g.pc + 4 < 0x1_0000_0000
    ensures Effect(i, g, host).Next?
    ensures Retire(Effect(i, g, host).state).pc ==
      if Taken(i.op, g.regs[i.rs1], g.regs[i.rs2]) then DirectTarget(i) else g.pc + 4
    ensures Effect(i, g, host).state == g.(pc := Effect(i, g, host).state.pc)
  {
    hide Effect, ClassOf, Alu, RegisterForm, LoadInto, WriteTo, AccessSize, Taken;
    EffectByClass(i, g, host);
    WrapTwice(g.pc, i.imm);
  }

  lemma OnlyPc(cfg: Config, c: Frame, g: State, pc: Word)
    requires Agrees(cfg, c, g)
    ensures Agrees(cfg, c, Retire(g.(pc := pc)))
  {
    hide Lookup;
  }

  lemma BranchShape(cfg: Config, t: Tracking, i: Instruction)
    requires IsBranch(i.op)
    ensures Block(cfg, t, i) == [IfGoto(BranchTest(i.op, Operand(cfg, t, i.rs1), Operand(cfg, t, i.rs2)), DirectTarget(i))]
  {
    hide ClassOf, Operand, BranchTest, DirectTarget;
  }

  lemma JalShape(cfg: Config, t: Tracking, i: Instruction)
    requires i.op == JAL
    ensures Block(cfg, t, i) == LinkStmts(cfg, i) + [Goto(DirectTarget(i))]
  {
    hide Operand, LinkStmts, DirectTarget;
  }

  lemma JalrShape(cfg: Config, t: Tracking, i: Instruction)
    requires i.op == JALR
    ensures Block(cfg, t, i) == [Set(Pc, Bin(Plus, Decimal(i.imm), Operand(cfg, t, i.rs1)))]
      + (LinkStmts(cfg, i) + (Predictions(cfg, PredictedAt(cfg, i.address)) + IndirectExit(cfg)))
  {
    hide Operand, LinkStmts, Decimal, Predictions, PredictedAt, IndirectExit;
  }

  lemma BranchStep(j: Job, c: Frame, g: State, host: Host) returns (n: nat)
    requires Ready(j) && j.text.At(g.pc) && 0 <= IndexOf(j, g.pc) < |j.instrs|
    requires InCode(j, At(Start(j.cfg, j.instrs, IndexOf(j, g.pc)), c), g)
    requires IsBranch(InstrAt(j, g).op) && HasLabel(j, DirectTarget(InstrAt(j, g)))
    ensures 0 < n
    ensures Continues(j, Steps(Output(j), At(Start(j.cfg, j.instrs, IndexOf(j, g.pc)), c), host, n), Effect(InstrAt(j, g), g, host), true)
    ensures Clean(j, At(Start(j.cfg, j.instrs, IndexOf(j, g.pc)), c), host, n, NextOf(Effect(InstrAt(j, g), g, host), g))
    ensures HasCode(j, IndexOf(j, g.pc), n)
  {
    hide Code, Caches, Agrees, Sound, Start, TrackAt, Entry, Block, Steps, Effect, Retire, ClassOf, Taken, Operand, BranchTest,
      Decodable, InFallback, Output, Eval, Stands, DirectTarget, JumpTo, Clean, OnTarget, Within, Opens;
    var k, i := IndexOf(j, g.pc), InstrAt(j, g);
    var t := Entry(j.cfg, TrackAt(j.cfg, j.instrs, k), i);
    var a, b, x, y := Operand(j.cfg, t, i.rs1), Operand(j.cfg, t, i.rs2), g.regs[i.rs1], g.regs[i.rs2];
    InstrFacts(j, g);
    BranchEffect(i, g, host);
    var u := Retire(Effect(i, g, host).state);
    ZeroRegister(j.cfg, c, g);
    var m, pos := EntersBlock(j, k, c, host, u);
    BranchShape(j.cfg, t, i);
    OperandStands(j.cfg, t, i.rs1, c, g);
    OperandStands(j.cfg, t, i.rs2, c, g);
    BranchTestYields(i.op, a, b, c, x, y);
    OutputCode(j);
    IfGotoStep(Output(j), pos, BranchTest(i.op, a, b), DirectTarget(i), c, host, Taken(i.op, x, y));
    QuietTarget(j, pos, IfGoto(BranchTest(i.op, a, b), DirectTarget(i)), c, u);
    CleanOne(j, At(pos, c), host, u);
    Joins(j, At(Start(j.cfg, j.instrs, k), c), host, m, 1, u);
    n := m + 1;
    OnlyPc(j.cfg, c, g, Effect(i, g, host).state.pc);
    if Taken(i.op, x, y) {
      JumpArrives(j, c, DirectTarget(i));
      ArrivesInCode(j, c, u);
    } else {
      TracksOn(j, g, host);
      FallsThrough(j, c, g, u);
    }
  }

  lemma OutputCode(j: Job)
    requires Ready(j)
    ensures Output(j).code == Code(j.cfg, j.instrs) && Output(j).start == j.text.start
  {
  }

  /** The link assignment of a jump. */
  lemma LinkRuns(j: Job, pos: nat, c: Frame, g: State, i: Instruction, host: Host, u: State) returns (c': Frame)
    requires Ready(j) && Follows(Code(j.cfg, j.instrs), pos, LinkStmts(j.cfg, i)) && Agrees(j.cfg, c, g)
    requires Within(j, pos, pos + |LinkStmts(j.cfg, i)|)
    ensures Steps(Output(j), At(pos, c), host, |LinkStmts(j.cfg, i)|) == At(pos + |LinkStmts(j.cfg, i)|, c')
    ensures Agrees(j.cfg, c', Retire(WithReg(g, i.rd, Wrap(i.address + 4)))) && c'.pc == c.pc
    ensures Clean(j, At(pos, c), host, |LinkStmts(j.cfg, i)|, u)
  {
    hide Code, Caches, Agrees, Steps, Do, Eval, Retire, WithReg, Wrap, Clean, Within, Opens;
    var v := Wrap(i.address + 4);
    LinkYields(v, c);
    SetYields(j.cfg.Holder(i.rd), Hex(v), c, host, v);
    c' := RdBlock(j.cfg, i, Set(j.cfg.Holder(i.rd), Hex(v)), c, g, host, v);
    OutputCode(j);
    RunsStraight(Output(j), pos, LinkStmts(j.cfg, i), c, host);
    CleanStraight(j, pos, LinkStmts(j.cfg, i), c, host, u);
  }

  lemma JalEffect(i: Instruction, g: State, host: Host)
    requires i.op == JAL && i.address == g.pc
    ensures Effect(i, g, host).Next?
    ensures Retire(Effect(i, g, host).state) == Retire(WithReg(g, i.rd, Wrap(i.address + 4))).(pc := DirectTarget(i))
  {
    hide Effect, Wrap;
    EffectOfJal(i, g, host);
    WrapTwice(g.pc, i.imm);
  }

  lemma AgreesAnyPc(cfg: Config, c: Frame, g: State, pc: Word)
    requires Agrees(cfg, c, g)
    ensures Agrees(cfg, c, g.(pc := pc))
  {
    hide Lookup;
  }

  lemma JalRuns(j: Job, k: nat, c: Frame, g: State, host: Host, u: State) returns (n: nat, c': Frame)
    requires Ready(j) && k < |j.instrs| && j.instrs[k].op == JAL && Agrees(j.cfg, c, g)
    ensures 0 < n && Agrees(j.cfg, c', Retire(WithReg(g, j.instrs[k].rd, Wrap(j.instrs[k].address + 4)))) && HasCode(j, k, n)
    ensures Steps(Output(j), At(Start(j.cfg, j.instrs, k), c), host, n) == JumpTo(Output(j), Label(DirectTarget(j.instrs[k])), c')
    ensures Clean(j, At(Start(j.cfg, j.instrs, k), c), host, n, u)
  {
    hide Code, Caches, Agrees, Start, TrackAt, Entry, Block, Steps, Retire, WithReg, Wrap, Output, DirectTarget, JumpTo,
      LinkStmts, Follows, Clean, OnTarget, Within, Opens;
    var i := j.instrs[k];
    JalShape(j.cfg, Entry(j.cfg, TrackAt(j.cfg, j.instrs, k), i), i);
    var m, pos := EntersBlock(j, k, c, host, u);
    var links := |LinkStmts(j.cfg, i)|;
    FollowsSplit(Code(j.cfg, j.instrs), pos, LinkStmts(j.cfg, i), [Goto(DirectTarget(i))]);
    WithinNarrower(j, pos, pos + links + 1, pos, pos + links);
    c' := LinkRuns(j, pos, c, g, i, host, u);
    OutputCode(j);
    GotoStep(Output(j), pos + links, DirectTarget(i), c', host);
    QuietTarget(j, pos + links, Goto(DirectTarget(i)), c', u);
    CleanOne(j, At(pos + links, c'), host, u);
    if links > 0 {
      NotOpen(j, pos, pos + links + 1, pos + links, c');
    }
    Joins(j, At(pos, c), host, links, 1, u);
    Joins(j, At(Start(j.cfg, j.instrs, k), c), host, m, links + 1, u);
    n := m + links + 1;
  }

  lemma JalStep(j: Job, c: Frame, g: State, host: Host) returns (n: nat)
    requires Ready(j) && j.text.At(g.pc) && 0 <= IndexOf(j, g.pc) < |j.instrs|
    requires InCode(j, At(Start(j.cfg, j.instrs, IndexOf(j, g.pc)), c), g)
    requires InstrAt(j, g).op == JAL && HasLabel(j, DirectTarget(InstrAt(j, g)))
    ensures 0 < n
    ensures Continues(j, Steps(Output(j), At(Start(j.cfg, j.instrs, IndexOf(j, g.pc)), c), host, n), Effect(InstrAt(j, g), g, host), true)
    ensures Clean(j, At(Start(j.cfg, j.instrs, IndexOf(j, g.pc)), c), host, n, NextOf(Effect(InstrAt(j, g), g, host), g))
    ensures HasCode(j, IndexOf(j, g.pc), n)
  {
    hide Code, Caches, Agrees, Sound, Start, TrackAt, Entry, Steps, Effect, Retire, WithReg, Wrap, InFallback, Output, DirectTarget,
      JumpTo, Decodable, Clean, Within, Opens;
    var k, i := IndexOf(j, g.pc), InstrAt(j, g);
    InstrFacts(j, g);
    var c';
    JalEffect(i, g, host);
    var u := Retire(Effect(i, g, host).state);
    n, c' := JalRuns(j, k, c, g, host, u);
    AgreesAnyPc(j.cfg, c', Retire(WithReg(g, i.rd, Wrap(i.address + 4))), u.pc);
    JumpArrives(j, c', DirectTarget(i));
    ArrivesInCode(j, c', u);
  }

  // ---- indirect jumps ----

  /** The guest jumps where the translation does exactly when rs1 still reads the same. */
  predicate FaithfulJalr(i: Instruction, g: State) {
    i.op == JALR && i.rd == i.rs1 ==> g.regs[i.rs1] == Wrap(g.pc + 4)
  }

  lemma JalrEffect(i: Instruction, g: State, host: Host)
    requires i.op == JALR && i.address == g.pc && FaithfulJalr(i, g)
    ensures Effect(i, g, host).Next?
    ensures Retire(Effect(i, g, host).state) ==
      Retire(WithReg(g, i.rd, Wrap(i.address + 4))).(pc := Wrap(i.imm + g.regs[i.rs1]))
  {
    hide Effect, Wrap;
    EffectOfJalr(i, g, host);
    WrapTwice(i.imm, g.regs[i.rs1]);
  }

  /** Hardcoded predictions either jump to the guest's pc or fall through. */
  lemma {:induction false} PredictionsRun(j: Job, pos: nat, targets: seq<Word>, c: Frame, g: State, host: Host)
    returns (n: nat, jumped: bool)
    requires Ready(j) && Follows(Code(j.cfg, j.instrs), pos, Predictions(j.cfg, targets))
    requires Within(j, pos, pos + |Predictions(j.cfg, targets)|)
    requires Agrees(j.cfg, c, g) && c.pc == g.pc
    requires forall a :: a in targets && a in j.cfg.leaders ==> j.text.At(a)
    ensures jumped ==> 0 < n && Arrived(j, Steps(Output(j), At(pos, c), host, n), g)
    ensures !jumped ==> Steps(Output(j), At(pos, c), host, n) == At(pos + |Predictions(j.cfg, targets)|, c)
    ensures Clean(j, At(pos, c), host, n, g) && n <= |Predictions(j.cfg, targets)|
    decreases |targets|
  {
    hide Code, Caches, Agrees, InCode, InFallback, Start, Step, JumpTo, Eval, Follows, Output, Clean, OnTarget, Within, Opens;
    n, jumped := 0, false;
    CleanNone(j, At(pos, c), host, g);
    if targets == [] {
    } else if targets[0] in j.cfg.leaders {
      var a := targets[0];
      var test := Bin(Equal, Get(Pc), Hex(a));
      FollowsSplit(Code(j.cfg, j.instrs), pos, [IfGoto(test, a)], Predictions(j.cfg, targets[1..]));
      OutputCode(j);
      PredictionTest(a, c);
      IfGotoStep(Output(j), pos, test, a, c, host, c.pc == a);
      QuietTarget(j, pos, IfGoto(test, a), c, g);
      CleanOne(j, At(pos, c), host, g);
      if c.pc == a {
        JumpArrives(j, c, a);
        ArrivesInCode(j, c, g);
        n, jumped := 1, true;
      } else {
        var len := |Predictions(j.cfg, targets)|;
        WithinNarrower(j, pos, pos + len, pos + 1, pos + len);
        n, jumped := PredictionsRun(j, pos + 1, targets[1..], c, g, host);
        if n > 0 {
          NotOpen(j, pos, pos + len, pos + 1, c);
        }
        Joins(j, At(pos, c), host, 1, n, g);
        n := n + 1;
      }
    } else {
      assert [] + Predictions(j.cfg, targets[1..]) == Predictions(j.cfg, targets[1..]);
      n, jumped := PredictionsRun(j, pos, targets[1..], c, g, host);
    }
  }

  lemma ExitLands(j: Job, pos: nat, c: Frame, g: State, host: Host) returns (n: nat)
    requires Ready(j) && Follows(Code(j.cfg, j.instrs), pos, IndirectExit(j.cfg)) && Within(j, pos, pos + |IndirectExit(j.cfg)|)
    requires Agrees(j.cfg, c, g) && c.pc == g.pc && Lands(j, g.pc)
    ensures 0 < n && Arrived(j, Steps(Output(j), At(pos, c), host, n), g) && Clean(j, At(pos, c), host, n, g)
  {
    hide Code, Caches, Agrees, Arrived, Steps, Output, Clean, Within, Opens;
    if j.cfg.chaining {
      n := DispatchLands(j, pos, c, g, host);
    } else {
      assert Code(j.cfg, j.instrs)[pos..pos + 1][0] == Code(j.cfg, j.instrs)[pos];
      n := ContinueLands(j, pos, c, g, host);
    }
  }

  lemma ExitNotEmpty(cfg: Config)
    ensures IndirectExit(cfg) != []
  {
  }

  lemma JalrTail(j: Job, pos: nat, targets: seq<Word>, c: Frame, g: State, host: Host) returns (n: nat)
    requires Ready(j) && Follows(Code(j.cfg, j.instrs), pos, Predictions(j.cfg, targets) + IndirectExit(j.cfg))
    requires Within(j, pos, pos + |Predictions(j.cfg, targets)| + |IndirectExit(j.cfg)|)
    requires Agrees(j.cfg, c, g) && c.pc == g.pc && Lands(j, g.pc)
    requires forall a :: a in targets && a in j.cfg.leaders ==> j.text.At(a)
    ensures 0 < n && Arrived(j, Steps(Output(j), At(pos, c), host, n), g) && Clean(j, At(pos, c), host, n, g)
  {
    hide Code, Caches, Agrees, Arrived, Steps, Output, Follows, Predictions, IndirectExit, Clean, Within, Opens;
    FollowsSplit(Code(j.cfg, j.instrs), pos, Predictions(j.cfg, targets), IndirectExit(j.cfg));
    var jumped;
    var tests, exit := |Predictions(j.cfg, targets)|, |IndirectExit(j.cfg)|;
    WithinNarrower(j, pos, pos + tests + exit, pos, pos + tests);
    WithinNarrower(j, pos, pos + tests + exit, pos + tests, pos + tests + exit);
    n, jumped := PredictionsRun(j, pos, targets, c, g, host);
    if !jumped {
      var m := ExitLands(j, pos + tests, c, g, host);
      ExitNotEmpty(j.cfg);
      if n > 0 {
        NotOpen(j, pos, pos + tests + exit, pos + tests, c);
      }
      Joins(j, At(pos, c), host, n, m, g);
      n := n + m;
    }
  }

  lemma SetPcStep(j: Job, pos: nat, s: Stmt, c: Frame, c1: Frame, host: Host)
    requires Ready(j) && Follows(Code(j.cfg, j.instrs), pos, [s]) && s.Set? && Do(s, c, host) == Next(c1)
    ensures Steps(Output(j), At(pos, c), host, 1) == At(pos + 1, c1)
  {
    hide Code, Caches, Do, JumpTo, FallbackRound;
    assert Code(j.cfg, j.instrs)[pos..pos + 1][0] == Code(j.cfg, j.instrs)[pos];
    StepsOne(Output(j), pos, c, host);
  }

  /** The statements of an indirect jump, from its first one on. */
  lemma JalrRuns(j: Job, k: nat, pos: nat, c: Frame, g: State, u: State, host: Host) returns (n: nat)
    requires Ready(j) && k < |j.instrs| && j.instrs[k].op == JALR && Decodable(j.instrs[k])
    requires Follows(Code(j.cfg, j.instrs), pos, BlockOf(j, k)) && Within(j, pos, pos + |BlockOf(j, k)|)
    requires Agrees(j.cfg, c, g) && Sound(Entry(j.cfg, TrackAt(j.cfg, j.instrs, k), j.instrs[k]), g.regs)
    requires var i := j.instrs[k]; u == Retire(WithReg(g, i.rd, Wrap(i.address + 4))).(pc := Wrap(i.imm + g.regs[i.rs1]))
    requires Lands(j, u.pc) && Compiles(j, j.instrs[k])
    ensures 0 < n && Arrived(j, Steps(Output(j), At(pos, c), host, n), u) && Clean(j, At(pos, c), host, n, u)
  {
    hide Code, Caches, Agrees, Sound, Arrived, Steps, Output, Follows, Predictions, PredictedAt, IndirectExit, LinkStmts, Decimal, Eval,
      Operand, Stands, Block, Entry, TrackAt, Do, Retire, WithReg, Wrap, HasLabel, DirectTarget, ClassOf, Clean, OnTarget, Within, Opens;
    var i, code := j.instrs[k], Code(j.cfg, j.instrs);
    var t := Entry(j.cfg, TrackAt(j.cfg, j.instrs, k), i);
    var a, targets := Operand(j.cfg, t, i.rs1), PredictedAt(j.cfg, i.address);
    var first := Set(Pc, Bin(Plus, Decimal(i.imm), a));
    var tail := Predictions(j.cfg, targets) + IndirectExit(j.cfg);
    JalrShape(j.cfg, t, i);
    FollowsSplit(code, pos, [first], LinkStmts(j.cfg, i) + tail);
    FollowsSplit(code, pos + 1, LinkStmts(j.cfg, i), tail);
    OperandStands(j.cfg, t, i.rs1, c, g);
    IndirectTarget(i.imm, a, c, host, g.regs[i.rs1]);
    var c1 := c.(pc := u.pc);
    SetPcStep(j, pos, first, c, c1, host);
    QuietTarget(j, pos, first, c, u);
    CleanOne(j, At(pos, c), host, u);
    ScratchAgrees(j.cfg, c, g, u.pc, c.index);
    var links, end := |LinkStmts(j.cfg, i)|, pos + 1 + |LinkStmts(j.cfg, i)| + |tail|;
    ExitNotEmpty(j.cfg);
    WithinNarrower(j, pos, end, pos + 1, pos + 1 + links);
    WithinNarrower(j, pos, end, pos + 1 + links, end);
    NotOpen(j, pos, end, pos + 1, c1);
    var c2 := LinkRuns(j, pos + 1, c1, g, i, host, u);
    NotOpen(j, pos, end, pos + 1 + links, c2);
    AgreesAnyPc(j.cfg, c2, Retire(WithReg(g, i.rd, Wrap(i.address + 4))), u.pc);
    var m := JalrTail(j, pos + 1 + links, targets, c2, u, host);
    Joins(j, At(pos + 1, c1), host, links, m, u);
    Joins(j, At(pos, c), host, 1, links + m, u);
    n := 1 + links + m;
  }

  lemma JalrNotEmpty(j: Job, k: nat)
    requires Ready(j) && k < |j.instrs| && j.instrs[k].op == JALR
    ensures BlockOf(j, k) != []
  {
    hide Caches, Block, Entry, TrackAt, Operand, Decimal, LinkStmts, Predictions, PredictedAt, IndirectExit;
    JalrShape(j.cfg, Entry(j.cfg, TrackAt(j.cfg, j.instrs, k), j.instrs[k]), j.instrs[k]);
  }

  /** The same, from the label on. */
  lemma JalrBlock(j: Job, k: nat, c: Frame, g: State, u: State, host: Host) returns (n: nat)
    requires Ready(j) && k < |j.instrs| && j.instrs[k].op == JALR && Decodable(j.instrs[k])
    requires Agrees(j.cfg, c, g) && Sound(Entry(j.cfg, TrackAt(j.cfg, j.instrs, k), j.instrs[k]), g.regs)
    requires u == JalrNext(j.instrs[k], g) && Lands(j, u.pc) && Compiles(j, j.instrs[k])
    ensures 0 < n && Arrived(j, Steps(Output(j), At(Start(j.cfg, j.instrs, k), c), host, n), u)
    ensures Clean(j, At(Start(j.cfg, j.instrs, k), c), host, n, u) && HasCode(j, k, n)
  {
    hide Code, Caches, Agrees, Sound, Arrived, Steps, Output, Follows, Entry, TrackAt, Retire, WithReg, Wrap, Clean, Start, Lands,
      Compiles, Decodable, BlockOf, Within, Opens;
    var m, pos := EntersBlock(j, k, c, host, u);
    var r := JalrRuns(j, k, pos, c, g, u, host);
    JalrNotEmpty(j, k);
    Joins(j, At(Start(j.cfg, j.instrs, k), c), host, m, r, u);
    n := m + r;
  }

  lemma InCodeFacts(j: Job, c: Frame, g: State)
    requires Ready(j) && j.text.At(g.pc) && 0 <= IndexOf(j, g.pc) < |j.instrs|
    requires InCode(j, At(Start(j.cfg, j.instrs, IndexOf(j, g.pc)), c), g)
    ensures Agrees(j.cfg, c, g)
    ensures Sound(Entry(j.cfg, TrackAt(j.cfg, j.instrs, IndexOf(j, g.pc)), InstrAt(j, g)), g.regs)
  {
    hide Agrees, Sound, Start, TrackAt, Entry, Caches;
  }

  lemma InstrIs(j: Job, g: State)
    requires Ready(j) && j.text.At(g.pc)
    ensures 0 <= IndexOf(j, g.pc) < |j.instrs| && InstrAt(j, g) == j.instrs[IndexOf(j, g.pc)]
  {
    hide Caches;
    LandsIndex(j, g.pc);
  }

  /** Where an indirect jump leaves the guest. */
  function JalrNext(i: Instruction, g: State): State {
    Retire(WithReg(g, i.rd, Wrap(i.address + 4))).(pc := Wrap(i.imm + g.regs[i.rs1]))
  }

  lemma JalrLinks(j: Job, c: Frame, g: State, host: Host) returns (n: nat)
    requires Ready(j) && j.text.At(g.pc) && 0 <= IndexOf(j, g.pc) < |j.instrs|
    requires InCode(j, At(Start(j.cfg, j.instrs, IndexOf(j, g.pc)), c), g)
    requires InstrAt(j, g).op == JALR && Compiles(j, InstrAt(j, g)) && Lands(j, JalrNext(InstrAt(j, g), g).pc)
    ensures 0 < n && Arrived(j, Steps(Output(j), At(Start(j.cfg, j.instrs, IndexOf(j, g.pc)), c), host, n), JalrNext(InstrAt(j, g), g))
    ensures Clean(j, At(Start(j.cfg, j.instrs, IndexOf(j, g.pc)), c), host, n, JalrNext(InstrAt(j, g), g))
    ensures HasCode(j, IndexOf(j, g.pc), n)
  {
    hide Code, Caches, Agrees, Sound, InCode, Start, TrackAt, Entry, Steps, Retire, WithReg, Wrap, Arrived, Output, Compiles,
      Decodable, Lands, Clean, Text.At, Text.End, IndexOf, Ready, Decode, InstrAt, JalrNext, Within, Opens;
    InCodeFacts(j, c, g);
    InstrIs(j, g);
    InstrFacts(j, g);
    n := JalrBlock(j, IndexOf(j, g.pc), c, g, JalrNext(InstrAt(j, g), g), host);
  }

  lemma JalrStep(j: Job, c: Frame, g: State, host: Host) returns (n: nat)
    requires Ready(j) && j.text.At(g.pc) && 0 <= IndexOf(j, g.pc) < |j.instrs|
    requires InCode(j, At(Start(j.cfg, j.instrs, IndexOf(j, g.pc)), c), g)
    requires InstrAt(j, g).op == JALR && Compiles(j, InstrAt(j, g)) && FaithfulJalr(InstrAt(j, g), g)
    requires Effect(InstrAt(j, g), g, host).Next? ==> Lands(j, Retire(Effect(InstrAt(j, g), g, host).state).pc)
    ensures 0 < n
    ensures Continues(j, Steps(Output(j), At(Start(j.cfg, j.instrs, IndexOf(j, g.pc)), c), host, n), Effect(InstrAt(j, g), g, host),
      Leads(j, NextOf(Effect(InstrAt(j, g), g, host), g).pc))
    ensures Clean(j, At(Start(j.cfg, j.instrs, IndexOf(j, g.pc)), c), host, n, NextOf(Effect(InstrAt(j, g), g, host), g))
    ensures HasCode(j, IndexOf(j, g.pc), n)
  {
    hide Code, Caches, InCode, Start, Steps, Effect, Retire, WithReg, Wrap, Linked, Output, Compiles, FaithfulJalr, Decodable, Lands,
      Clean, InstrAt, Ready, IndexOf, Text.At, Text.End, Decode, Within, Opens;
    InstrFacts(j, g);
    JalrEffect(InstrAt(j, g), g, host);
    n := JalrLinks(j, c, g, host);
  }

  // ---- fallback ----

  /** Memory still holds what the generated program put at the guest's pc. */
  predicate ImageAt(j: Job, g: State)
    requires Ready(j) && j.text.At(g.pc)
  {
    LandsIndexIf(j, g.pc);
    Load(g.mem, g.pc, 4) == KeptWord(j.text.words[IndexOf(j, g.pc)])
  }

  /** So it does while it holds the whole image. */
  lemma KeptWordAt(j: Job, g: State)
    requires Ready(j) && j.text.At(g.pc) && Kept(j).Placed() && Kept(j).In(g.mem)
    ensures ImageAt(j, g)
  {
    hide Decode, Load;
    LandsIndex(j, g.pc);
    var k := IndexOf(j, g.pc);
    SameKept(j.text.words[k], g.pc);
    assert Kept(j).words[k] == j.instrs[k].word;
  }

  lemma SameKept(w: Word, a: Word)
    ensures Decode(w, a).word == Decode(w, 0).word
  {
    hide Kind;
  }

  /** In the fallback, the guest's next instruction is not a system call the switch engine skips. */
  predicate FaithfulCall(j: Job, g: State)
    requires Ready(j) && j.text.At(g.pc)
  {
    LandsIndexIf(j, g.pc);
    !SkipsCall(j.text.words[IndexOf(j, g.pc)])
  }

  lemma FallbackEmulates(j: Job, c: Frame, g: State, host: Host)
    requires Ready(j) && InFallback(j, At(FallbackAt(j.cfg, j.instrs), c), g)
    requires ImageAt(j, g) && FaithfulCall(j, g)
    ensures Steps(Output(j), At(FallbackAt(j.cfg, j.instrs), c), host, 1) ==
      Emulated(j.text.start, FallbackAt(j.cfg, j.instrs), c, Exec(InstrAt(j, g), g, host))
  {
    hide Code, Slots, Caches, SwitchExec, Exec, Load, Decode, FallbackAt, Emulated, Decodable, SkipsCall, KeptWord;
    var pos := FallbackAt(j.cfg, j.instrs);
    SlotAt(j, g.pc);
    InstrFacts(j, g);
    FallbackRunsDecoded(j.text.words[IndexOf(j, g.pc)], g, host);
    FallbackStands(j);
    StepsOne(Output(j), pos, c, host);
  }

  lemma FallbackStands(j: Job)
    requires Ready(j)
    ensures FallbackAt(j.cfg, j.instrs) < |Code(j.cfg, j.instrs)|
    ensures Code(j.cfg, j.instrs)[FallbackAt(j.cfg, j.instrs)] == Fallback
    ensures Follows(Code(j.cfg, j.instrs), FallbackAt(j.cfg, j.instrs) + 1, RestoreRegisters(j.cfg) + [Continue])
  {
    hide Code, Caches, SaveRegisters, RestoreRegisters, InvalidAt, Follows;
    EndsAt(j.cfg, j.instrs);
    var code, pos := Code(j.cfg, j.instrs), InvalidAt(j.cfg, j.instrs);
    var save, rest := [InvalidLabel] + SaveRegisters(j.cfg), RestoreRegisters(j.cfg) + [Continue];
    assert FallbackBlock(j.cfg) == save + ([Fallback] + rest);
    FollowsSplit(code, pos, save, [Fallback] + rest);
    FollowsSplit(code, pos + |save|, [Fallback], rest);
    FollowsHead(code, pos + |save|, Fallback);
  }

  lemma FallbackQuiet(j: Job, c: Frame, g: State)
    requires Ready(j)
    ensures OnTarget(j, At(FallbackAt(j.cfg, j.instrs), c), g)
  {
    hide Code, Caches, FallbackAt, Agrees, RestoreRegisters;
    FallbackStands(j);
  }

  lemma FallbackBehind(j: Job)
    ensures Start(j.cfg, j.instrs, |j.instrs|) <= FallbackAt(j.cfg, j.instrs)
  {
    hide Start;
  }

  lemma FallbackLeaves(p: Program, pos: nat, c: Frame, host: Host)
    requires pos < |p.code| && p.code[pos] == Fallback && c.index < |p.slots| && !p.slots[c.index].InvalidLabel?
    ensures Steps(p, At(pos, c), host, 1) == At(pos + 1, c)
  {
    hide Do, JumpTo, SwitchExec, Load;
    StepsOne(p, pos, c, host);
  }

  /** Behind the loop: registers are loaded and the dispatch loop goes round. */
  lemma FallbackReturns(j: Job, c: Frame, g: State, host: Host) returns (n: nat)
    requires Ready(j) && Lands(j, g.pc) && Generated.Context(c) == g && g.regs[0] == 0
    ensures 0 < n && Arrived(j, Steps(Output(j), At(FallbackAt(j.cfg, j.instrs) + 1, c), host, n), g)
    ensures Clean(j, At(FallbackAt(j.cfg, j.instrs) + 1, c), host, n, g) && !Opens(j, At(FallbackAt(j.cfg, j.instrs) + 1, c))
  {
    hide Code, Slots, Caches, Arrived, Steps, Agrees, RestoreRegisters, FallbackAt, Follows, DoAll, Clean, OnTarget, Output, Within,
      Opens, Lands, Start, Ready;
    var code, pos, loads := Code(j.cfg, j.instrs), FallbackAt(j.cfg, j.instrs) + 1, |RestoreRegisters(j.cfg)|;
    FallbackStands(j);
    OutputCode(j);
    FollowsSplit(code, pos, RestoreRegisters(j.cfg), [Continue]);
    FollowsHead(code, pos + loads, Continue);
    ReadyProper(j);
    var c' := RestoreSpreads(j.cfg, c, g, host);
    PinningSimple(j.cfg);
    PartsUnmarked(j.cfg, Undecoded(0));
    FallbackBehind(j);
    BehindInvalid(j, pos, loads, c);
    BehindInvalid(j, pos + loads, 0, c');
    RunsStraight(Output(j), pos, RestoreRegisters(j.cfg), c, host);
    CleanStraight(j, pos, RestoreRegisters(j.cfg), c, host, g);
    var m := ContinueLands(j, pos + loads, c', g, host);
    Joins(j, At(pos, c), host, loads, m, g);
    n := loads + m;
  }

  lemma ReadyProper(j: Job)
    requires Ready(j)
    ensures Proper(j.cfg)
  {
    hide Caches;
  }

  /** Back at a leader, or at the end: registers are loaded and the loop dispatches. */
  lemma LeavesFallback(j: Job, c: Frame, g: State, host: Host) returns (n: nat)
    requires Ready(j) && Lands(j, g.pc) && (j.text.At(g.pc) ==> g.pc in j.cfg.leaders)
    requires Generated.Context(c) == g && g.regs[0] == 0 && c.index == IndexOf(j, g.pc)
    ensures 0 < n && Arrived(j, Steps(Output(j), At(FallbackAt(j.cfg, j.instrs), c), host, n), g)
    ensures Clean(j, At(FallbackAt(j.cfg, j.instrs), c), host, n, g)
  {
    hide Code, Slots, Caches, Arrived, Steps, Agrees, RestoreRegisters, FallbackAt, Follows, Clean, OnTarget, Output, Within, Opens,
      IndexOf, Ready;
    var pos := FallbackAt(j.cfg, j.instrs);
    FallbackStands(j);
    OutputCode(j);
    SlotAt(j, g.pc);
    FallbackLeaves(Output(j), pos, c, host);
    FallbackQuiet(j, c, g);
    CleanOne(j, At(pos, c), host, g);
    var m := FallbackReturns(j, c, g, host);
    Joins(j, At(pos, c), host, 1, m, g);
    n := 1 + m;
  }

  /** The guest's outcome, seen from the run. */
  ghost predicate Tracks(j: Job, r: Run, o: Outcome<State>, code: bool)
    requires Ready(j)
  {
    match o
    case Next(g) => Linked(j, r, g, code)
    case Exited(mem, world) => r == Ended(mem, world)
    case Fault => true
  }

  function Successor(o: Outcome<State>, g: State): State { if o.Next? then o.state else g }

  /** Whether the guest's next instruction is in translated code: only an indirect jump leaves it,
      and only at a leader is it entered. */
  predicate NextMode(j: Job, g: State, host: Host, code: bool)
    requires Ready(j) && j.text.At(g.pc)
  {
    (code && InstrAt(j, g).op != JALR) || Leads(j, Successor(Exec(InstrAt(j, g), g, host), g).pc)
  }

  lemma ExecClearsZero(i: Instruction, g: State, host: Host)
    ensures Exec(i, g, host).Next? ==> Exec(i, g, host).state.regs[0] == 0
  {
    hide Effect;
  }

  lemma FallbackStep(j: Job, c: Frame, g: State, host: Host) returns (n: nat)
    requires Ready(j) && InFallback(j, At(FallbackAt(j.cfg, j.instrs), c), g)
    requires ImageAt(j, g) && FaithfulCall(j, g)
    requires Exec(InstrAt(j, g), g, host).Next? ==> Lands(j, Exec(InstrAt(j, g), g, host).state.pc)
    ensures 0 < n
    ensures Tracks(j, Steps(Output(j), At(FallbackAt(j.cfg, j.instrs), c), host, n), Exec(InstrAt(j, g), g, host),
      NextMode(j, g, host, false))
    ensures Clean(j, At(FallbackAt(j.cfg, j.instrs), c), host, n, Successor(Exec(InstrAt(j, g), g, host), g))
  {
    hide Code, Output, Caches, InCode, Steps, FallbackAt, Exec, InstrAt, FaithfulCall, ImageAt, Clean, OnTarget, Within, Opens;
    var pos, o := FallbackAt(j.cfg, j.instrs), Exec(InstrAt(j, g), g, host);
    FallbackEmulates(j, c, g, host);
    ExecClearsZero(InstrAt(j, g), g, host);
    FallbackQuiet(j, c, Successor(o, g));
    CleanOne(j, At(pos, c), host, Successor(o, g));
    n := 1;
    if o.Next? {
      var u := o.state;
      LandsIndex(j, u.pc);
      if j.text.At(u.pc) && u.pc !in j.cfg.leaders {
      } else {
        var c' := c.(ctx := u.regs, pc := u.pc, mem := u.mem, world := u.world, index := DispatchIndex(j.text.start, u.pc));
        var m := LeavesFallback(j, c', u, host);
        FallbackBehind(j);
        BehindInvalid(j, pos, 0, c');
        Joins(j, At(pos, c), host, 1, m, u);
        n := 1 + m;
      }
    }
  }

  // ---- every step ----

  /** What the theorems ask of the guest at one state.  In any mode it is at an instruction that
      accesses existing memory and stays in the text.  In translated code it neither overflows a
      remainder nor jumps through the register it links to.  In the fallback it is not a call the
      switch engine skips, and its word is still in memory. */
  ghost predicate WellBehaved(j: Job, g: State, host: Host, code: bool)
    requires Ready(j)
  {
    && j.text.At(g.pc)
    && !Exec(InstrAt(j, g), g, host).Fault?
    && (Exec(InstrAt(j, g), g, host).Next? ==> Lands(j, Exec(InstrAt(j, g), g, host).state.pc))
    && (code ==> FaithfulRem(InstrAt(j, g), g) && FaithfulJalr(InstrAt(j, g), g))
    && (!code ==> FaithfulCall(j, g) && ImageAt(j, g))
  }

  lemma ExecIsRetired(i: Instruction, g: State, host: Host)
    ensures Effect(i, g, host).Next? ==> Exec(i, g, host) == Next(Retire(Effect(i, g, host).state))
    ensures !Effect(i, g, host).Next? ==> Exec(i, g, host) == Effect(i, g, host)
  {
    hide Effect;
  }

  lemma CodeStep(j: Job, c: Frame, g: State, host: Host) returns (n: nat)
    requires Translatable(j) && j.text.At(g.pc) && 0 <= IndexOf(j, g.pc) < |j.instrs|
    requires InCode(j, At(Start(j.cfg, j.instrs, IndexOf(j, g.pc)), c), g) && WellBehaved(j, g, host, true)
    ensures Tracks(j, Steps(Output(j), At(Start(j.cfg, j.instrs, IndexOf(j, g.pc)), c), host, n), Exec(InstrAt(j, g), g, host),
      NextMode(j, g, host, true))
    ensures (0 < n || RunsOn(InstrAt(j, g).op)) && HasCode(j, IndexOf(j, g.pc), n)
    ensures Clean(j, At(Start(j.cfg, j.instrs, IndexOf(j, g.pc)), c), host, n, Successor(Exec(InstrAt(j, g), g, host), g))
  {
    hide Code, Output, Caches, InCode, InFallback, Clean, Steps, Start, Exec, Effect, Retire, FaithfulRem, FaithfulJalr, HasCode, Leads,
      ClassOf, UpperSumOk, HasLabel, DirectTarget, PredictedAt, Within, Opens;
    var i := InstrAt(j, g);
    ExecIsRetired(i, g, host);
    assert Compiles(j, i);
    if RunsOn(i.op) {
      n := StraightStep(j, c, g, host);
    } else if i.op == JAL {
      n := JalStep(j, c, g, host);
    } else if i.op == JALR {
      n := JalrStep(j, c, g, host);
    } else {
      n := BranchStep(j, c, g, host);
    }
  }
}
