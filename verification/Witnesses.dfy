/** Small programs: one that meets the hypotheses of the theorems about runs with every option on,
    and two that show that without them the program and the guest end with different results. */
module Witnesses {
  import opened Words
  import opened Isa
  import opened Machine
  import opened Interpreter
  import opened Agreement
  import opened Predecode
  import opened Cpp
  import opened Translate
  import opened Generated
  import opened Blocks
  import opened Straight
  import opened Layout
  import opened Simulation
  import opened Runs

  /** A text at address 0, with these leaders, no predictions. */
  function SmallJob(words: seq<Word>, pins: seq<Register>, chaining: bool, leaders: set<Word>): Job
    requires 4 * |words| <= MEMORY_SIZE
  {
    Job(Text(0, words), seq(|words|, k requires 0 <= k < |words| => Decode(words[k], 4 * k)),
        Config(pins, pins != [], chaining, leaders, map[], 0))
  }

  function Zeros(): Mem { seq(MEMORY_SIZE, _ => 0) }

  function Begin(regs: Regs, pc: Word): State { State(regs, pc, Zeros(), 0) }

  function Final(g: State): Result { Finished(g.regs, g.mem, g.world) }

  function FrameOf(g: State): Frame { Frame(g.regs, g.regs, g.pc, 0, 0, g.mem, g.world) }

  lemma SmallReady(words: seq<Word>, pins: seq<Register>, chaining: bool, leaders: set<Word>)
    requires 4 * |words| <= MEMORY_SIZE && 0 !in pins
    ensures Ready(SmallJob(words, pins, chaining, leaders))
  {
    hide Decode;
  }

  lemma SmallInstr(words: seq<Word>, pins: seq<Register>, chaining: bool, leaders: set<Word>, g: State, k: nat)
    requires 4 * |words| <= MEMORY_SIZE && 0 !in pins && k < |words| && g.pc == 4 * k
    ensures var j := SmallJob(words, pins, chaining, leaders);
      Ready(j) && j.text.At(g.pc) && IndexOf(j, g.pc) == k && InstrAt(j, g) == Decode(words[k], g.pc)
  {
    hide Decode;
    SmallReady(words, pins, chaining, leaders);
  }

  // ---- the words used ----

  /** `jalr x0, 0(x1)`, `jalr x5, 0(x5)`, `addi x6, x0, 1` and `rem x5, x6, x7`. */
  const RETURN: Word := 0x0000_8067
  const RELINK: Word := 0x0002_82E7
  const ONE: Word := 0x0010_0313
  const REMAINDER: Word := 0x0273_62B3

  lemma JumpKinds()
    ensures Kind(RETURN) == JALR && Kind(RELINK) == JALR
  {
  }

  lemma OtherKinds()
    ensures Kind(ONE) == ADDI && Kind(REMAINDER) == REM
  {
  }

  lemma Fields()
    ensures Rd(RETURN) == 0 && Rs1(RETURN) == 1 && Rd(RELINK) == 5 && Rs1(RELINK) == 5
    ensures Rd(ONE) == 6 && Rs1(ONE) == 0 && Rd(REMAINDER) == 5 && Rs1(REMAINDER) == 6 && Rs2(REMAINDER) == 7
  {
  }

  lemma Immediates()
    ensures IImm(RETURN) == 0 && IImm(RELINK) == 0 && IImm(ONE) == 1
  {
    hide IImm;
    Powers();
    IImmIsField(RETURN);
    IImmIsField(RELINK);
    IImmIsField(ONE);
  }

  lemma DecodedJump(w: Word, a: Word)
    requires w == RETURN || w == RELINK
    ensures var d := Decode(w, a);
      d.op == JALR && d.imm == 0 && d.address == a && d.rd == (if w == RETURN then 0 else 5) && d.rs1 == (if w == RETURN then 1 else 5)
  {
    hide Kind, IImm, Decode, ClassOf, Rd, Rs1, Rs2;
    JumpKinds();
    Fields();
    Immediates();
    DecodedFields(w, a);
    DecodeKeepsAddress(w, a);
  }

  lemma DecodedOne(a: Word)
    ensures var d := Decode(ONE, a); d.op == ADDI && d.imm == 1 && d.rd == 6 && d.rs1 == 0 && d.address == a
  {
    hide Kind, IImm, Decode, ClassOf, Rd, Rs1, Rs2;
    OtherKinds();
    Fields();
    Immediates();
    DecodedFields(ONE, a);
    DecodeKeepsAddress(ONE, a);
    AddImmediateClass();
  }

  lemma DecodedRemainder(a: Word)
    ensures var d := Decode(REMAINDER, a); d.op == REM && d.rd == 5 && d.rs1 == 6 && d.rs2 == 7 && d.address == a
  {
    hide Kind, IImm, Decode, ClassOf, Rd, Rs1, Rs2;
    OtherKinds();
    Fields();
    DecodedFields(REMAINDER, a);
    DecodeKeepsAddress(REMAINDER, a);
  }

  lemma DecodedZero(a: Word)
    ensures Decode(0, a).op == INVALID && Decode(0, a).address == a
  {
    hide Kind, Decode;
    ZeroIsInvalid();
    DecodedFields(0, a);
    DecodeKeepsAddress(0, a);
  }

  // ---- a program that meets the setting ----

  /** A jump to a word that is no leader, so to the fallback, which leads to the end; with pinned
      registers and translation chaining, and the leaders the analysis finds. */
  function CallerJob(): Job { SmallJob([RETURN, 0, 0], [1, 2], true, {0, 4}) }

  function Registers(r: Register, v: Word): Regs { seq(32, k => if k == r then v else 0) }

  function Caller(pc: Word): State { Begin(Registers(1, 8), pc) }

  lemma CallerInstr(g: State)
    ensures Ready(CallerJob())
    ensures g.pc == 0 ==> CallerJob().text.At(g.pc) && InstrAt(CallerJob(), g) == Decode(RETURN, 0)
    ensures g.pc == 8 ==> CallerJob().text.At(g.pc) && InstrAt(CallerJob(), g) == Decode(0, 8)
  {
    hide Decode, Ready, InstrAt;
    SmallReady([RETURN, 0, 0], [1, 2], true, {0, 4});
    if g.pc == 0 {
      SmallInstr([RETURN, 0, 0], [1, 2], true, {0, 4}, g, 0);
    } else if g.pc == 8 {
      SmallInstr([RETURN, 0, 0], [1, 2], true, {0, 4}, g, 2);
    }
  }

  lemma CallerTranslates()
    ensures Translatable(CallerJob())
  {
    hide Decode, Ready, ClassOf, UpperSumOk, HasLabel, DirectTarget;
    SmallReady([RETURN, 0, 0], [1, 2], true, {0, 4});
    forall k | 0 <= k < 3
      ensures Compiles(CallerJob(), CallerJob().instrs[k])
    {
      if k == 0 {
        DecodedJump(RETURN, 0);
      } else {
        DecodedZero(4 * k);
      }
      OtherClass(INVALID);
      OtherClass(JALR);
    }
  }

  lemma CallerFirstStep(host: Host)
    ensures Exec(Decode(RETURN, 0), Caller(0), host) == Next(Caller(8))
  {
    hide Decode, Effect;
    DecodedJump(RETURN, 0);
    EffectOfJalr(Decode(RETURN, 0), Caller(0), host);
    assert Caller(0).regs[0 := 4][0 := 0] == Caller(0).regs;
  }

  lemma CallerSecondStep(host: Host)
    ensures Exec(Decode(0, 8), Caller(8), host) == Next(Caller(12))
  {
    hide Decode, Exec;
    DecodedZero(8);
    InertStep(Decode(0, 8), Caller(8), host);
  }

  lemma InertStep(i: Instruction, s: State, host: Host)
    requires i.op == INVALID && s.regs[0] == 0
    ensures Exec(i, s, host) == Next(s.(pc := Wrap(s.pc + 4)))
  {
    hide Effect;
    EffectOfSystem(i, s, host);
    assert s.regs[0 := 0] == s.regs;
  }

  lemma {:induction false} CallerRun(host: Host, k: nat)
    ensures GuestRun(CallerJob(), Caller(0), host, k) ==
      if k == 0 then Next(Caller(0)) else if k == 1 then Next(Caller(8)) else if k == 2 then Next(Caller(12)) else Fault
  {
    hide Exec, Decode, Ready, InstrAt;
    CallerFirstStep(host);
    CallerSecondStep(host);
    CallerInstr(Caller(0));
    CallerInstr(Caller(8));
    if k > 0 {
      CallerRun(host, k - 1);
      CachedIsExec(CallerJob(), Caller(0), host);
      CachedIsExec(CallerJob(), Caller(8), host);
    }
  }

  lemma CallerModes(host: Host)
    ensures Ready(CallerJob())
    ensures Mode(CallerJob(), Caller(0), host, 0) && !Mode(CallerJob(), Caller(0), host, 1)
  {
    hide Exec, Decode, Ready, InstrAt, GuestRun;
    CallerInstr(Caller(0));
    CallerRun(host, 0);
    CallerFirstStep(host);
    DecodedJump(RETURN, 0);
  }

  lemma ZeroWord()
    ensures Load(Zeros(), 8, 4) == 0 && KeptWord(0) == 0 && !SkipsCall(0)
  {
    hide Kind;
    ZeroIsInvalid();
  }

  lemma CallerFirst(host: Host)
    ensures Ready(CallerJob()) && WellBehaved(CallerJob(), Caller(0), host, true)
  {
    hide Exec, Decode, Ready, InstrAt, FaithfulCall, ImageAt;
    CallerInstr(Caller(0));
    CallerFirstStep(host);
    DecodedJump(RETURN, 0);
    Fields();
  }

  lemma CallerSecond(host: Host)
    ensures Ready(CallerJob()) && WellBehaved(CallerJob(), Caller(8), host, false)
  {
    hide Exec, Decode, Ready, InstrAt, FaithfulRem, FaithfulJalr, Load, KeptWord, SkipsCall;
    CallerInstr(Caller(8));
    CallerSecondStep(host);
    ZeroWord();
  }

  lemma CallerBehaves(host: Host)
    ensures Ready(CallerJob()) && Behaves(CallerJob(), Caller(0), host)
  {
    hide Ready, WellBehaved, GuestRun, Mode;
    CallerInstr(Caller(0));
    CallerModes(host);
    CallerFirst(host);
    CallerSecond(host);
    forall k: nat | GuestRun(CallerJob(), Caller(0), host, k).Next?
      ensures Fine(CallerJob(), GuestRun(CallerJob(), Caller(0), host, k).state, host, Mode(CallerJob(), Caller(0), host, k))
    {
      CallerRun(host, k);
    }
  }

  /** The theorems about runs speak about something: this program meets their setting with any host,
      and it goes from translated code to the fallback and on to the exit. */
  lemma SettingIsMet(host: Host)
    ensures Setting(CallerJob(), FrameOf(Caller(0)), Caller(0), host)
    ensures Mode(CallerJob(), Caller(0), host, 0) && !Mode(CallerJob(), Caller(0), host, 1)
    ensures GuestProduces(CallerJob(), Caller(0), host, Finished(Caller(0).regs, Zeros(), 0))
  {
    hide Behaves, Compiles, Caches, GuestRun, Mode;
    CallerTranslates();
    CallerBehaves(host);
    CallerModes(host);
    CallerRun(host, 2);
    assert GuestResult(CallerJob().text, GuestRun(CallerJob(), Caller(0), host, 2)) == Some(Finished(Caller(0).regs, Zeros(), 0));
  }

  // ---- an overflowing remainder ----

  function RemainderJob(): Job { SmallJob([REMAINDER], [], false, {0}) }

  function Dividing(x5: Word, pc: Word): State { Begin(Registers(6, 0x8000_0000)[7 := 0xFFFF_FFFF][5 := x5], pc) }

  lemma RemainderInstr(g: State)
    requires g.pc == 0
    ensures Translatable(RemainderJob()) && RemainderJob().text.At(0) && IndexOf(RemainderJob(), 0) == 0
    ensures InstrAt(RemainderJob(), g) == Decode(REMAINDER, 0)
  {
    hide Decode, Ready, InstrAt, Translatable;
    SmallInstr([REMAINDER], [], false, {0}, g, 0);
    RemainderTranslates();
  }

  lemma RemainderTranslates()
    ensures Translatable(RemainderJob())
  {
    hide Decode, Ready, Compiles;
    SmallReady([REMAINDER], [], false, {0});
    RemainderCompiles();
  }

  lemma RemainderCompiles()
    ensures Compiles(RemainderJob(), RemainderJob().instrs[0])
  {
    hide Decode, ClassOf, UpperSumOk, HasLabel, DirectTarget;
    DecodedRemainder(0);
    RemainderClass();
  }

  lemma RemainderClass()
    ensures IsRegisterOp(REM)
  {
  }

  lemma RemainderGuestStep(host: Host)
    ensures Exec(Decode(REMAINDER, 0), Dividing(0, 0), host) == Next(Dividing(0, 4))
  {
    hide Decode, Effect, Alu, ClassOf;
    DecodedRemainder(0);
    RemainderClass();
    var s := Dividing(0, 0);
    EffectByClass(Decode(REMAINDER, 0), s, host);
    OverflowGivesZero();
    assert s.regs[5 := 0][0 := 0] == s.regs;
  }

  lemma OverflowGivesZero()
    ensures IsRegisterOp(REM) && Alu(REM, 0x8000_0000, 0xFFFF_FFFF) == 0
  {
  }

  lemma {:induction false} RemainderGuestRun(host: Host, k: nat)
    ensures GuestRun(RemainderJob(), Dividing(0, 0), host, k) ==
      if k == 0 then Next(Dividing(0, 0)) else if k == 1 then Next(Dividing(0, 4)) else Fault
  {
    hide Exec, Decode, Ready, InstrAt, Translatable;
    RemainderGuestStep(host);
    RemainderInstr(Dividing(0, 0));
    TranslatableReady(RemainderJob());
    if k > 0 {
      RemainderGuestRun(host, k - 1);
      CachedIsExec(RemainderJob(), Dividing(0, 0), host);
    }
  }

  lemma TranslatableReady(j: Job)
    requires Translatable(j)
    ensures Ready(j)
  {
    hide Caches, Compiles;
  }

  /** What the emitted block leaves in rd. */
  lemma RemainderBlock(c: Frame, host: Host) returns (c': Frame)
    requires Ready(RemainderJob()) && Agrees(RemainderJob().cfg, c, Dividing(0, 0))
    ensures DoAll(BlockOf(RemainderJob(), 0), c, host) == Next(c') && Agrees(RemainderJob().cfg, c', Dividing(0x8000_0000, 4))
  {
    hide Decode, Ready, Agrees, Sound, Do, DoAll, ComputeStmt, Alu, ClassOf, TrackAt, Retire, WithReg, Caches;
    var j, g := RemainderJob(), Dividing(0, 0);
    var i := j.instrs[0];
    var t := Entry(j.cfg, TrackAt(j.cfg, j.instrs, 0), i);
    DecodedRemainder(0);
    RemainderClass();
    ResetSound(TrackAt(j.cfg, j.instrs, 0), g.regs);
    ComputeComputes(j.cfg, t, i, c, g, host);
    c' := RdBlock(j.cfg, i, ComputeStmt(j.cfg, t, i), c, g, host, 0x8000_0000);
    RemainderState();
    BlockIsRd(j, t, i);
  }

  lemma RemainderState()
    ensures Retire(WithReg(Dividing(0, 0), 5, 0x8000_0000)) == Dividing(0x8000_0000, 4)
  {
    var s := Dividing(0, 0);
    assert s.regs[5 := 0x8000_0000][0 := 0] == Dividing(0x8000_0000, 4).regs;
  }

  lemma BlockIsRd(j: Job, t: Tracking, i: Instruction)
    requires IsRegisterOp(i.op)
    ensures Block(j.cfg, t, i) == ToRd(i, ComputeStmt(j.cfg, t, i))
  {
    hide ClassOf, ComputeStmt;
  }

  /** From a common start at the first instruction. */
  lemma StartsInCode(j: Job, c0: Frame, g: State, host: Host) returns (a: nat, c: Frame)
    requires Ready(j) && Starts(c0, g) && Lands(j, g.pc) && Leads(j, g.pc) && IndexOf(j, g.pc) == 0
    ensures RunOf(j, c0, host, a) == At(Start(j.cfg, j.instrs, 0), c)
    ensures InCode(j, RunOf(j, c0, host, a), g) && Agrees(j.cfg, c, g)
  {
    hide Caches, Agrees, Sound, Start, TrackAt, Entry, Steps, Output, Clean, Opens;
    a := Arrives(j, c0, g, host);
    c := RunOf(j, c0, host, a).c;
  }

  lemma RemainderPcs()
    ensures Dividing(0, 0).pc == 0 && Lands(RemainderJob(), 0) && Leads(RemainderJob(), 0) && IndexOf(RemainderJob(), 0) == 0
    ensures |RemainderJob().instrs| == 1
  {
  }

  /** The run of the generated program: through the block to the exit. */
  lemma RemainderProgramRuns(host: Host) returns (n: nat)
    ensures Ready(RemainderJob())
    ensures Leaves(RunOf(RemainderJob(), FrameOf(Dividing(0, 0)), host, n), Dividing(0x8000_0000, 4))
  {
    hide Decode, Ready, Agrees, InCode, DoAll, Start, Steps, Output, Clean, Opens, Leaves, RunsOn, Translatable, RemainderJob, Dividing,
      FrameOf, Lands, Leads, IndexOf, BlockOf, Starts;
    var j, g := RemainderJob(), Dividing(0, 0);
    RemainderTranslates();
    TranslatableReady(j);
    RemainderPcs();
    DividingZero(0, 0);
    SmallStarts(g);
    var a, c := StartsInCode(j, FrameOf(g), g, host);
    RemainderRunsOn();
    var b := StraightRuns(j, 0, c, host, g);
    var c' := RemainderBlock(c, host);
    var e := ReturnsAtEnd(j, c', Dividing(0x8000_0000, 4), host);
    StepsCompose(Output(j), At(Start(j.cfg, j.instrs, 0), c), host, b, e);
    StepsCompose(Output(j), At(0, FrameOf(g)), host, a, b + e);
    n := a + b + e;
  }

  lemma RemainderRunsOn()
    ensures RunsOn(RemainderJob().instrs[0].op)
  {
    hide Decode;
    DecodedRemainder(0);
  }

  lemma LeavesProduces(j: Job, c0: Frame, host: Host, n: nat, g: State)
    requires Ready(j) && Leaves(RunOf(j, c0, host, n), g)
    ensures Produces(j, c0, host, Final(g))
  {
    hide Ready, RunOf;
    assert ResultOf(RunOf(j, c0, host, n)) == Some(Final(g));
  }

  lemma RemainderNever(host: Host)
    ensures !GuestProduces(RemainderJob(), Dividing(0, 0), host, Final(Dividing(0x8000_0000, 4)))
  {
    hide GuestRun, Decode;
    forall k: nat
      ensures GuestResult(RemainderJob().text, GuestRun(RemainderJob(), Dividing(0, 0), host, k))
        != Some(Final(Dividing(0x8000_0000, 4)))
    {
      RemainderGuestRun(host, k);
      assert Dividing(0, 4).regs[5] == 0 && Dividing(0x8000_0000, 4).regs[5] == 0x8000_0000;
    }
  }

  lemma SmallStarts(g: State)
    requires g.regs[0] == 0
    ensures Starts(FrameOf(g), g)
  {
  }

  lemma DividingZero(x5: Word, pc: Word)
    ensures Dividing(x5, pc).regs[0] == 0
  {
  }

  /** A program and a guest that start alike and end with different results. */
  ghost predicate Differ(j: Job, g: State, host: Host, x: Result) {
    Translatable(j) && Starts(FrameOf(g), g) && Produces(j, FrameOf(g), host, x) && !GuestProduces(j, g, host, x)
  }

  lemma ShowsDifference(j: Job, g: State, u: State, host: Host, n: nat)
    requires Translatable(j) && g.regs[0] == 0 && Leaves(RunOf(j, FrameOf(g), host, n), u) && !GuestProduces(j, g, host, Final(u))
    ensures Differ(j, g, host, Final(u))
  {
    hide Ready, Compiles, Produces, GuestProduces, Leaves, RunOf, FrameOf, Final, Starts;
    SmallStarts(g);
    LeavesProduces(j, FrameOf(g), host, n, u);
  }

  /** Without the condition on remainders the theorem is false: this program ends with 0x80000000 in
      x5, the guest with 0, under every host. */
  lemma RemainderResultsDiffer(host: Host)
    ensures Differ(RemainderJob(), Dividing(0, 0), host, Final(Dividing(0x8000_0000, 4)))
  {
    hide Ready, Translatable, Differ, GuestProduces, RemainderJob, Leaves, RunOf, Decode, FrameOf, Dividing, Final;
    DividingZero(0, 0);
    RemainderTranslates();
    var n := RemainderProgramRuns(host);
    RemainderNever(host);
    ShowsDifference(RemainderJob(), Dividing(0, 0), Dividing(0x8000_0000, 4), host, n);
  }

  // ---- a jump through the register it links to ----

  function RelinkJob(): Job { SmallJob([RELINK, ONE], [], false, {0, 4}) }

  function Linking(x5: Word, x6: Word, pc: Word): State { Begin(Registers(5, x5)[6 := x6], pc) }

  lemma RelinkInstr(g: State)
    ensures Translatable(RelinkJob())
    ensures g.pc == 0 ==> RelinkJob().text.At(g.pc) && IndexOf(RelinkJob(), g.pc) == 0 && InstrAt(RelinkJob(), g) == Decode(RELINK, 0)
    ensures g.pc == 4 ==> RelinkJob().text.At(g.pc) && InstrAt(RelinkJob(), g) == Decode(ONE, 4)
  {
    hide Decode, Ready, InstrAt, Compiles;
    SmallReady([RELINK, ONE], [], false, {0, 4});
    RelinkCompiles();
    if g.pc == 0 {
      SmallInstr([RELINK, ONE], [], false, {0, 4}, g, 0);
    } else if g.pc == 4 {
      SmallInstr([RELINK, ONE], [], false, {0, 4}, g, 1);
    }
  }

  lemma RelinkTranslates()
    ensures Translatable(RelinkJob())
  {
    hide Decode, Ready, Compiles;
    SmallReady([RELINK, ONE], [], false, {0, 4});
    RelinkCompiles();
  }

  lemma LinkingZero(x5: Word, x6: Word, pc: Word)
    ensures Linking(x5, x6, pc).regs[0] == 0
  {
  }

  lemma RelinkCompiles()
    ensures Compiles(RelinkJob(), RelinkJob().instrs[0]) && Compiles(RelinkJob(), RelinkJob().instrs[1])
  {
    hide Decode, ClassOf, UpperSumOk, HasLabel, DirectTarget;
    DecodedJump(RELINK, 0);
    DecodedOne(4);
    AddImmediateClass();
    OtherClass(JALR);
  }

  lemma RelinkGuestSteps(host: Host)
    ensures Exec(Decode(RELINK, 0), Linking(8, 0, 0), host) == Next(Linking(4, 0, 4))
    ensures Exec(Decode(ONE, 4), Linking(4, 0, 4), host) == Next(Linking(4, 1, 8))
  {
    hide Decode, Exec, Linking;
    RelinkFirst(host);
    RelinkSecond(host);
  }

  lemma RelinkFirst(host: Host)
    ensures Exec(Decode(RELINK, 0), Linking(8, 0, 0), host) == Next(Linking(4, 0, 4))
  {
    hide Decode, Effect;
    DecodedJump(RELINK, 0);
    var s := Linking(8, 0, 0);
    EffectOfJalr(Decode(RELINK, 0), s, host);
    assert s.regs[5 := 4][0 := 0] == Linking(4, 0, 4).regs;
  }

  lemma RelinkSecond(host: Host)
    ensures Exec(Decode(ONE, 4), Linking(4, 0, 4), host) == Next(Linking(4, 1, 8))
  {
    hide Decode, Effect, ClassOf;
    DecodedOne(4);
    AddImmediateClass();
    var t := Linking(4, 0, 4);
    EffectByClass(Decode(ONE, 4), t, host);
    assert t.regs[6 := 1][0 := 0] == Linking(4, 1, 8).regs;
  }

  lemma {:induction false} RelinkGuestRun(host: Host, k: nat)
    ensures GuestRun(RelinkJob(), Linking(8, 0, 0), host, k) ==
      if k == 0 then Next(Linking(8, 0, 0)) else if k == 1 then Next(Linking(4, 0, 4)) else if k == 2 then Next(Linking(4, 1, 8)) else Fault
  {
    hide Exec, Decode, Ready, InstrAt, Translatable;
    RelinkGuestSteps(host);
    RelinkInstr(Linking(8, 0, 0));
    RelinkInstr(Linking(4, 0, 4));
    TranslatableReady(RelinkJob());
    if k > 0 {
      RelinkGuestRun(host, k - 1);
      CachedIsExec(RelinkJob(), Linking(8, 0, 0), host);
      CachedIsExec(RelinkJob(), Linking(4, 0, 4), host);
    }
  }

  lemma RelinkNext()
    ensures JalrNext(Decode(RELINK, 0), Linking(8, 0, 0)) == Linking(4, 0, 8)
  {
    hide Decode;
    DecodedJump(RELINK, 0);
    Fields();
    assert Linking(8, 0, 0).regs[5 := 4][0 := 0] == Linking(4, 0, 8).regs;
  }

  lemma RelinkJumps(c: Frame, host: Host) returns (n: nat)
    requires Ready(RelinkJob()) && InCode(RelinkJob(), At(Start(RelinkJob().cfg, RelinkJob().instrs, 0), c), Linking(8, 0, 0))
    ensures Linked(RelinkJob(), Steps(Output(RelinkJob()), At(Start(RelinkJob().cfg, RelinkJob().instrs, 0), c), host, n),
      Linking(4, 0, 8), true)
  {
    hide Decode, Ready, InCode, InFallback, Start, Steps, Output, Clean, JalrNext, Compiles, InstrAt, HasCode, Linking;
    RelinkInstr(Linking(8, 0, 0));
    RelinkCompiles();
    RelinkNext();
    RelinkPcs();
    DecodedJump(RELINK, 0);
    n := JalrLinks(RelinkJob(), c, Linking(8, 0, 0), host);
  }

  lemma RelinkPcs()
    ensures Linking(8, 0, 0).pc == 0 && Linking(4, 0, 8).pc == 8 == RelinkJob().text.End() && Linking(8, 0, 0).regs[0] == 0
    ensures Lands(RelinkJob(), 0) && Leads(RelinkJob(), 0) && Lands(RelinkJob(), 8) && Leads(RelinkJob(), 8)
    ensures IndexOf(RelinkJob(), 0) == 0
  {
  }

  /** From a state at the end of the text, reached after a + b statements. */
  lemma ThenReturns(j: Job, c0: Frame, host: Host, a: nat, b: nat, g: State) returns (n: nat)
    requires Ready(j) && g.pc == j.text.End() && Linked(j, Steps(Output(j), RunOf(j, c0, host, a), host, b), g, true)
    ensures Leaves(RunOf(j, c0, host, n), g)
  {
    hide Ready, Linked, Steps, Output, Clean, Fresh, Leaves;
    var r := RunOf(j, c0, host, a);
    var e := EndReturns(j, Steps(Output(j), r, host, b), g, host, true);
    StepsCompose(Output(j), r, host, b, e);
    StepsCompose(Output(j), At(0, c0), host, a, b + e);
    n := a + b + e;
  }

  lemma RelinkProgramRuns(host: Host) returns (n: nat)
    ensures Ready(RelinkJob()) && Leaves(RunOf(RelinkJob(), FrameOf(Linking(8, 0, 0)), host, n), Linking(4, 0, 8))
  {
    hide Decode, Ready, Linked, InCode, Start, RunOf, Leaves, Translatable, RelinkJob, Linking, Lands, Leads, IndexOf;
    RelinkInstr(Linking(8, 0, 0));
    TranslatableReady(RelinkJob());
    RelinkPcs();
    var a, c := StartsInCode(RelinkJob(), FrameOf(Linking(8, 0, 0)), Linking(8, 0, 0), host);
    var b := RelinkJumps(c, host);
    n := ThenReturns(RelinkJob(), FrameOf(Linking(8, 0, 0)), host, a, b, Linking(4, 0, 8));
  }

  lemma RelinkNever(host: Host)
    ensures !GuestProduces(RelinkJob(), Linking(8, 0, 0), host, Final(Linking(4, 0, 8)))
  {
    hide GuestRun, Decode;
    forall k: nat
      ensures GuestResult(RelinkJob().text, GuestRun(RelinkJob(), Linking(8, 0, 0), host, k))
        != Some(Final(Linking(4, 0, 8)))
    {
      RelinkGuestRun(host, k);
      assert Linking(4, 1, 8).regs[6] == 1 && Linking(4, 0, 8).regs[6] == 0;
    }
  }

  /** Without the condition on JALR the theorem is false: this program jumps past the second
      instruction, the guest to it. */
  lemma RelinkResultsDiffer(host: Host)
    ensures Differ(RelinkJob(), Linking(8, 0, 0), host, Final(Linking(4, 0, 8)))
  {
    hide Ready, Translatable, Differ, GuestProduces, RelinkJob, Leaves, RunOf, Decode, FrameOf, Linking, Final;
    LinkingZero(8, 0, 0);
    RelinkTranslates();
    var n := RelinkProgramRuns(host);
    RelinkNever(host);
    ShowsDifference(RelinkJob(), Linking(8, 0, 0), Linking(4, 0, 8), host, n);
  }
}
