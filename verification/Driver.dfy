/** The translator from beginning to end: decode, find leaders, emit. */
module Driver {
  import opened Words
  import opened Isa
  import opened Machine
  import opened Interpreter
  import opened Predecode
  import opened Cpp
  import opened Translate
  import opened Generated
  import opened Blocks
  import opened Straight
  import opened Layout
  import opened Simulation
  import opened Runs
  import opened Closure
  import opened Emitter
  import opened BasicBlocks

  // ---- around the instructions ----

  /** RuntimeEmitter::emitDispatchTable. */
  method EmitDispatchTable(cfg: Config, count: nat) returns (slots: seq<Stmt>)
    requires cfg.start + 4 * count <= MEMORY_SIZE
    ensures slots == Slots(cfg, count)
  {
    slots := [];
    for k := 0 to count
      invariant slots == Slots(cfg, count)[..k]
    {
      var address: Word := Wrap(cfg.start + k * 4);
      if address in cfg.leaders {
        slots := slots + [Label(address)];
      } else {
        slots := slots + [InvalidLabel];
      }
    }
    slots := slots + [ExitLabel];
  }

  /** RuntimeEmitter::emitDispatchLoopPrologue: the loop head is after the register load. */
  method EmitDispatchLoopPrologue(output: Emitter.Output, start: Word) returns (head: nat)
    modifies output
    ensures var load := if output.options.pinRegisters then Restores(output.registerMap) else [];
      head == |old(output.text)| + |load| &&
      output.text == old(output.text) + load + [Set(Index, Bin(Quot, Bin(Minus, Get(Pc), Hex(start)), Dec(4))), Dispatch]
  {
    output.EmitRegisterLoad();
    head := |output.text|;
    output.Emit(Set(Index, Bin(Quot, Bin(Minus, Get(Pc), Hex(start)), Dec(4))));
    output.Emit(Dispatch);
  }

  /** RuntimeEmitter::emitInterpreterFallback: the exit, then the fallback, whose end closes the
      dispatch loop. */
  method EmitInterpreterFallback(output: Emitter.Output)
    modifies output
    ensures var pinned := output.options.pinRegisters;
      var save, load := if pinned then Saves(output.registerMap) else [], if pinned then Restores(output.registerMap) else [];
      output.text == old(output.text) + ([ExitLabel] + save + [Print, Leave]) + ([InvalidLabel] + save + [Fallback] + load + [Continue])
  {
    hide Saves, Restores;
    output.Emit(ExitLabel);
    output.EmitRegisterStore();
    output.Emit(Print);
    output.Emit(Leave);
    output.Emit(InvalidLabel);
    output.EmitRegisterStore();
    output.Emit(Fallback);
    output.EmitRegisterLoad();
    output.Emit(Continue);
  }

  // ---- the job of a translation ----

  function JobOf(text: Text, options: Options, pins: seq<Register>, leaders: set<Word>, profile: Profile): Job
    requires text.Placed()
  {
    Job(text, Listing(text), Configure(options, pins, leaders, profile, text.start))
  }

  lemma JobIsReady(text: Text, options: Options, pins: seq<Register>, leaders: set<Word>, profile: Profile)
    requires text.Placed() && 0 !in pins
    ensures Ready(JobOf(text, options, pins, leaders, profile))
  {
    hide Decode;
  }

  /** All instructions in order. */
  method EmitAll(emitter: InstructionEmitter, instrs: seq<Instruction>)
    requires emitter.Valid() && emitter.Tracked() == NothingKnown()
    modifies emitter.output, emitter.regKnown, emitter.regValues
    ensures emitter.output.text == old(emitter.output.text) + BodyUpTo(emitter.Cfg(), instrs, |instrs|)
  {
    hide Labelled, After, Entry, Configure;
    for n := 0 to |instrs|
      invariant emitter.output.text == old(emitter.output.text) + BodyUpTo(emitter.Cfg(), instrs, n)
      invariant emitter.Tracked() == TrackAt(emitter.Cfg(), instrs, n)
    {
      emitter.EmitInstruction(instrs[n]);
    }
  }

  /** The code of a translation. */
  method EmitCode(options: Options, pins: seq<Register>, leaders: set<Word>, profile: Profile, start: Word, instrs: seq<Instruction>)
    returns (code: seq<Stmt>, head: nat)
    ensures var cfg := Configure(options, pins, leaders, profile, start);
      code == Code(cfg, instrs) && head == |RestoreRegisters(cfg)|
  {
    hide BodyUpTo, Saves, Restores;
    var output := new Emitter.Output(options, pins);
    head := EmitDispatchLoopPrologue(output, start);
    var emitter := new InstructionEmitter(output, profile, leaders, start);
    EmitAll(emitter, instrs);
    EmitInterpreterFallback(output);
    code := output.text;
    assert output.text == Prologue(emitter.Cfg()) + BodyUpTo(emitter.Cfg(), instrs, |instrs|) + ExitBlock(emitter.Cfg()) + FallbackBlock(emitter.Cfg());
  }

  ghost predicate LeadersFound(text: Text, options: Options, profile: Profile, sections: seq<seq<Word>>, leaders: set<Word>)
    requires text.Placed()
  {
    forall a: Word :: a in leaders <==>
      IsLeader(Listing(text), options.useProfile, profile, a) || HarvestedIn(sections, text.start, text.End(), a)
  }

  /** main() of the translator: the program it writes is the translation of the text under the
      leaders it found. */
  method TranslateText(text: Text, options: Options, pins: seq<Register>, profile: Profile, sections: seq<seq<Word>>)
    returns (p: Program, leaders: set<Word>)
    requires text.Placed() && 0 !in pins
    ensures LeadersFound(text, options, profile, sections, leaders)
    ensures Ready(JobOf(text, options, pins, leaders, profile)) && p == Simulation.Output(JobOf(text, options, pins, leaders, profile))
  {
    hide Code, Decode, IsLeader, HarvestedIn, Slots;
    var instrs := DecodeSection(text);
    leaders := GetLeaders(instrs, options.useProfile, profile);
    var discovered;
    leaders, discovered := HarvestStaticData(sections, text.start, text.End(), leaders);
    JobIsReady(text, options, pins, leaders, profile);
    var cfg := Configure(options, pins, leaders, profile, text.start);
    var slots := EmitDispatchTable(cfg, |instrs|);
    var code, head := EmitCode(options, pins, leaders, profile, text.start, instrs);
    p := Program(code, slots, head, text.start);
  }

  // ---- when the output compiles ----

  /** Every jump has its label, and every literal is one, in sums that do not overflow. */
  ghost predicate HasMeaning(j: Job) { Closed(Code(j.cfg, j.instrs)) && forall k :: 0 <= k < |j.instrs| ==> SumsDefined(j.instrs[k]) }

  ghost predicate SumsDefined(i: Instruction) {
    i.op == AUIPC && i.rd != 0 ==> forall c: Frame :: Eval(UpperSum(i), c).Some?
  }

  lemma SumsDefinedExactly(i: Instruction, c: Frame)
    requires i.op == AUIPC && Decodable(i)
    ensures (i.rd != 0 ==> UpperSumOk(i)) <==> SumsDefined(i)
  {
    hide UpperSum, UpperSumOk, Eval;
    forall d: Frame
      ensures Eval(UpperSum(i), d).Some? <==> UpperSumOk(i)
    {
      UpperSumDefined(i, d);
    }
    assert SumsDefined(i) && i.rd != 0 ==> Eval(UpperSum(i), c).Some?;
  }

  lemma CompilesExactly(j: Job, k: nat, c: Frame)
    requires Ready(j) && k < |j.instrs|
    ensures Compiles(j, j.instrs[k]) <==> Reachable(j, j.instrs[k]) && SumsDefined(j.instrs[k])
  {
    hide Caches, UpperSumOk, SumsDefined, DirectTarget, PredictedAt, IsBranch, Decodable, Decode, Reachable, HasLabel;
    var i := j.instrs[k];
    JumpsCompile(j, i);
    DecodeDecodable(j.text.words[k], j.text.start + 4 * k);
    CachedDecode(j, k);
    if i.op == AUIPC {
      SumsDefinedExactly(i, c);
    } else {
      NoSum(i);
    }
  }

  lemma JumpsCompile(j: Job, i: Instruction)
    ensures Reachable(j, i) <==>
      && (IsBranch(i.op) || i.op == JAL ==> HasLabel(j, DirectTarget(i)))
      && (i.op == JALR ==> forall a :: a in PredictedAt(j.cfg, i.address) && a in j.cfg.leaders ==> j.text.At(a))
  {
    hide DirectTarget, PredictedAt, ClassOf;
    OtherClass(i.op);
    if Reachable(j, i) {
      assert IsBranch(i.op) || i.op == JAL ==> MayJump(j.cfg, i, DirectTarget(i));
      forall a | i.op == JALR && a in PredictedAt(j.cfg, i.address) && a in j.cfg.leaders
        ensures j.text.At(a)
      {
        assert MayJump(j.cfg, i, a);
      }
    }
  }

  lemma NoSum(i: Instruction)
    requires i.op != AUIPC
    ensures SumsDefined(i)
  {
  }

  lemma CachedDecode(j: Job, k: nat)
    requires Ready(j) && k < |j.instrs|
    ensures j.instrs[k] == Decode(j.text.words[k], j.text.start + 4 * k)
  {
    hide Decode;
  }

  /** The hypothesis of the theorems about runs is that the output has a meaning. */
  lemma TranslatableMeans(j: Job)
    requires Ready(j)
    ensures Translatable(j) <==> HasMeaning(j)
  {
    hide Caches, Compiles, Closed, Code, Reachable, SumsDefined;
    ClosedExactly(j);
    var c := Frame(seq(32, _ => 0), seq(32, _ => 0), 0, 0, 0, seq(MEMORY_SIZE, _ => 0), 0);
    forall k | 0 <= k < |j.instrs|
      ensures Compiles(j, j.instrs[k]) <==> Reachable(j, j.instrs[k]) && SumsDefined(j.instrs[k])
    {
      CompilesExactly(j, k, c);
    }
  }

  /** What an instruction needs once every direct target is a leader: that its targets are in the text. */
  predicate Fits(text: Text, cfg: Config, i: Instruction) {
    && (i.op == AUIPC && i.rd != 0 ==> UpperSumOk(i))
    && (IsBranch(i.op) || i.op == JAL ==> text.At(DirectTarget(i)))
    && (i.op == JALR ==> forall a :: a in PredictedAt(cfg, i.address) && a in cfg.leaders ==> text.At(a))
  }

  /** With the leaders found by the analysis, the output has a meaning if and only if branches, jumps
      and predicted leaders stay in the text and AUIPCs neither go down nor overflow. */
  lemma TranslatableExactly(text: Text, options: Options, pins: seq<Register>, leaders: set<Word>, profile: Profile, sections: seq<seq<Word>>)
    requires text.Placed() && 0 !in pins && LeadersFound(text, options, profile, sections, leaders)
    ensures var j := JobOf(text, options, pins, leaders, profile);
      HasMeaning(j) <==> forall k :: 0 <= k < |j.instrs| ==> Fits(text, j.cfg, j.instrs[k])
  {
    hide Configure, Listing, HarvestedIn, UpperSumOk, PredictedAt, DirectTarget, IsBranch, HasMeaning;
    var j := JobOf(text, options, pins, leaders, profile);
    JobIsReady(text, options, pins, leaders, profile);
    TranslatableMeans(j);
    forall k | 0 <= k < |j.instrs|
      ensures Compiles(j, j.instrs[k]) <==> Fits(text, j.cfg, j.instrs[k])
    {
      TargetsAreLeaders(text, options, pins, leaders, profile, sections, k);
    }
  }

  lemma TargetsAreLeaders(text: Text, options: Options, pins: seq<Register>, leaders: set<Word>, profile: Profile,
                          sections: seq<seq<Word>>, k: nat)
    requires text.Placed() && k < |Listing(text)| && LeadersFound(text, options, profile, sections, leaders)
    ensures Configure(options, pins, leaders, profile, text.start).leaders == leaders
    ensures var i := Listing(text)[k]; IsBranch(i.op) || i.op == JAL ==> DirectTarget(i) in leaders
  {
    hide Listing, HarvestedIn, DirectTarget, IsBranch;
    var i := Listing(text)[k];
    if IsBranch(i.op) || i.op == JAL {
      assert LeadsTo(i, DirectTarget(i));
      assert Led(Listing(text), DirectTarget(i));
    }
  }

  /** Of the added leaders, those predicted somewhere are instruction addresses of the text. */
  ghost predicate PredictedInText(j: Job, more: set<Word>) {
    forall k, a :: 0 <= k < |j.instrs| && j.instrs[k].op == JALR && a in PredictedAt(j.cfg, j.instrs[k].address) && a in more ==>
      j.text.At(a)
  }

  function WithLeaders(j: Job, more: set<Word>): Job { j.(cfg := j.cfg.(leaders := j.cfg.leaders + more)) }

  /** More leaders, even unaligned ones, never spoil a translation that does not predict them. */
  lemma MoreLeadersTranslatable(j: Job, more: set<Word>)
    requires Translatable(j) && PredictedInText(j, more)
    ensures Translatable(WithLeaders(j, more))
  {
    hide Caches, UpperSumOk, IsBranch, DirectTarget;
    forall k | 0 <= k < |j.instrs|
      ensures Compiles(WithLeaders(j, more), j.instrs[k])
    {
      assert Compiles(j, j.instrs[k]);
      assert PredictedAt(WithLeaders(j, more).cfg, j.instrs[k].address) == PredictedAt(j.cfg, j.instrs[k].address);
    }
  }

  /** Enlarging the leader set, aligned or not, changes no result. */
  lemma MoreLeadersSameResults(j: Job, more: set<Word>, c0: Frame, g0: State, host: Host, x: Result)
    requires Translatable(j) && PredictedInText(j, more) && Starts(c0, g0) && BehavesAnyway(j, g0, host)
    ensures Translatable(WithLeaders(j, more)) && (Produces(j, c0, host, x) <==> Produces(WithLeaders(j, more), c0, host, x))
  {
    hide Compiles, BehavesAnyway, Caches, Produces, PredictedInText;
    MoreLeadersTranslatable(j, more);
    TranslationsAgree(j, WithLeaders(j, more), c0, c0, g0, host, x);
  }

  // ---- the memory image ----

  lemma OtherWordStays(m: Mem, a: Word, b: Word, v: Word)
    requires InBounds(a, 4) && InBounds(b, 4) && (a + 4 <= b || b + 4 <= a)
    ensures Load(Store(m, b, 4, v), a, 4) == Load(m, a, 4)
  {
  }

  ghost predicate Holds(m: Mem, instrs: seq<Instruction>, n: nat)
    requires n <= |instrs| && forall k :: 0 <= k < |instrs| ==> InBounds(instrs[k].address, 4)
  {
    forall k :: 0 <= k < n ==> Load(m, instrs[k].address, 4) == instrs[k].word
  }

  /** The writes of the generated main(): the words the fallback will interpret. */
  method LoadInstructions(ctx: Context, instrs: seq<Instruction>)
    requires ctx.Valid() && forall k :: 0 <= k < |instrs| ==> InBounds(instrs[k].address, 4)
    requires forall k, n :: 0 <= k < n < |instrs| ==> instrs[k].address + 4 <= instrs[n].address
    modifies ctx.data
    ensures Holds(ctx.data[..], instrs, |instrs|)
    ensures ctx.View() == old(ctx.View()).(mem := ctx.data[..])
  {
    hide Load, Machine.Store;
    for n := 0 to |instrs|
      invariant Holds(ctx.data[..], instrs, n)
    {
      ghost var m := ctx.data[..];
      var status := ctx.WriteBytes(instrs[n].address, 4, instrs[n].word);
      WordRoundTrip(m, instrs[n].address, instrs[n].word);
      forall k | 0 <= k < n
        ensures Load(ctx.data[..], instrs[k].address, 4) == instrs[k].word
      {
        OtherWordStays(m, instrs[k].address, instrs[n].address, instrs[n].word);
      }
    }
  }

  lemma HeldIsKept(j: Job, m: Mem)
    requires Ready(j) && (forall k :: 0 <= k < |j.instrs| ==> InBounds(j.instrs[k].address, 4)) && Holds(m, j.instrs, |j.instrs|)
    ensures Kept(j).Placed() && Kept(j).In(m)
  {
    hide Load, Decode;
    KeptPlaced(j);
    forall k | 0 <= k < |j.instrs|
      ensures j.instrs[k].address == j.text.start + 4 * k
    {
      DecodeKeepsAddress(j.text.words[k], j.text.start + 4 * k);
    }
  }
}
