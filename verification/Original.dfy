/** The interpreter on the original text, and the guest on the generated program's image of it, where
    undecodable words are zero: what they have in common, and a load that tells them apart. */
module Original {
  import opened Words
  import opened Isa
  import opened Machine
  import opened Interpreter
  import opened Agreement
  import opened Predecode
  import opened Simulation
  import opened Runs

  /** A byte of a text word the image does not keep. */
  predicate Dropped(t: Text, a: int) {
    t.start <= a < t.End() && KeptWord(t.words[(a - t.start) / 4]) != t.words[(a - t.start) / 4]
  }

  ghost predicate SameOutside(t: Text, m: Mem, m': Mem) {
    forall a :: 0 <= a < MEMORY_SIZE && !Dropped(t, a) ==> m[a] == m'[a]
  }

  /** The same state, but for the dropped bytes. */
  ghost predicate Alike(t: Text, s: State, s': State) {
    s.regs == s'.regs && s.pc == s'.pc && s.world == s'.world && SameOutside(t, s.mem, s'.mem)
  }

  ghost predicate AlikeOutcome(t: Text, o: Outcome<State>, o': Outcome<State>) {
    match o
    case Next(s) => o'.Next? && Alike(t, s, o'.state)
    case Exited(mem, world) => o'.Exited? && SameOutside(t, mem, o'.mem) && world == o'.world
    case Fault => o'.Fault?
  }

  // ---- what does not look at the dropped bytes ----

  ghost predicate AvoidsDropped(t: Text, a: Word, n: int) { forall b :: a <= b < a + n ==> !Dropped(t, b) }

  ghost predicate AlikeReply(t: Text, r: Reply, r': Reply) {
    match r
    case Return(a0, mem, world) => r'.Return? && a0 == r'.a0 && world == r'.world && SameOutside(t, mem, r'.mem)
    case Exit(world) => r'.Exit? && world == r'.world
  }

  /** The call the guest makes now is answered alike whatever the dropped bytes are, and the answer
      leaves the text alone. */
  ghost predicate BlindCall(t: Text, s: State, host: Host)
    requires t.Placed()
  {
    forall m: Mem :: SameOutside(t, s.mem, m) ==>
      && AlikeReply(t, host(s.regs[A7], s.regs, s.mem, s.world), host(s.regs[A7], s.regs, m, s.world))
      && CallSpares(t, s.(mem := m), host)
  }

  /** The instruction reads no dropped byte. */
  ghost predicate Blind(t: Text, i: Instruction, s: State, host: Host)
    requires t.Placed()
  {
    var a := s.regs[i.rs1];
    && (IsLoad(i.op) ==> AvoidsDropped(t, Wrap(a + i.imm), AccessSize(i.op)))
    && (i.op == LR_W ==> AvoidsDropped(t, a, 4))
    && (i.op == ECALL ==> BlindCall(t, s, host))
  }

  // ---- one step ----

  lemma LoadAlike(t: Text, m: Mem, m': Mem, a: Word, n: int)
    requires SameOutside(t, m, m') && n in {1, 2, 4} && InBounds(a, n) && AvoidsDropped(t, a, n)
    ensures Load(m, a, n) == Load(m', a, n)
  {
    hide Dropped;
  }

  lemma StoreAlike(t: Text, s: State, s': State, a: Word, n: int, v: Word)
    requires Alike(t, s, s') && n in {1, 2, 4}
    ensures AlikeOutcome(t, WriteTo(s, a, n, v), WriteTo(s', a, n, v))
  {
    hide Dropped;
  }

  lemma LoadIntoAlike(t: Text, s: State, s': State, rd: Register, op: Op, a: Word)
    requires Alike(t, s, s') && IsLoad(op) && AvoidsDropped(t, a, AccessSize(op))
    ensures AlikeOutcome(t, LoadInto(s, rd, op, a), LoadInto(s', rd, op, a))
  {
    hide SameOutside, AvoidsDropped, Load, Loaded, ClassOf;
    if InBounds(a, AccessSize(op)) {
      LoadAlike(t, s.mem, s'.mem, a, AccessSize(op));
    }
  }

  lemma CallAlike(t: Text, s: State, s': State, host: Host)
    requires t.Placed() && Alike(t, s, s') && BlindCall(t, s, host)
    ensures AlikeOutcome(t, SysCall(s, host), SysCall(s', host)) && CallSpares(t, s', host)
  {
    hide SameOutside, CallSpares;
    assert s' == s.(mem := s'.mem);
  }

  lemma SystemAlike(t: Text, i: Instruction, s: State, s': State, host: Host)
    requires t.Placed() && Alike(t, s, s') && Blind(t, i, s, host)
    requires i.op in {ECALL, LR_W, SC_W, EBREAK, FENCE, INVALID}
    ensures AlikeOutcome(t, Effect(i, s, host), Effect(i, s', host))
  {
    hide Effect, SameOutside, AvoidsDropped, SysCall, LoadInto, WriteTo, BlindCall, ClassOf;
    EffectOfSystem(i, s, host);
    EffectOfSystem(i, s', host);
    OtherClass(LW);
    if i.op == ECALL {
      CallAlike(t, s, s', host);
    } else if i.op == LR_W {
      LoadIntoAlike(t, s, s', i.rd, LW, s.regs[i.rs1]);
    } else if i.op == SC_W {
      StoreAlike(t, s, s', s.regs[i.rs1], 4, s.regs[i.rs2]);
    }
  }

  lemma JumpAlike(t: Text, i: Instruction, s: State, s': State, host: Host)
    requires Alike(t, s, s') && i.op in {JAL, JALR, LUI, AUIPC}
    ensures AlikeOutcome(t, Effect(i, s, host), Effect(i, s', host))
  {
    hide Effect, SameOutside, Wrap;
    if i.op == JAL {
      EffectOfJal(i, s, host);
      EffectOfJal(i, s', host);
    } else if i.op == JALR {
      EffectOfJalr(i, s, host);
      EffectOfJalr(i, s', host);
    } else {
      EffectOfUpper(i, s, host);
      EffectOfUpper(i, s', host);
    }
  }

  lemma EffectAlike(t: Text, i: Instruction, s: State, s': State, host: Host)
    requires t.Placed() && Alike(t, s, s') && Blind(t, i, s, host)
    ensures AlikeOutcome(t, Effect(i, s, host), Effect(i, s', host))
  {
    hide Effect, SameOutside, AvoidsDropped, BlindCall, ClassOf, Alu, RegisterForm, LoadInto, WriteTo, Taken, Wrap, AccessSize;
    OtherClass(i.op);
    if ClassOf(i.op) == Other {
      if i.op in {JAL, JALR, LUI, AUIPC} {
        JumpAlike(t, i, s, s', host);
      } else {
        SystemAlike(t, i, s, s', host);
      }
    } else {
      EffectByClass(i, s, host);
      EffectByClass(i, s', host);
      var a := Wrap(s.regs[i.rs1] + i.imm);
      if ClassOf(i.op) == Loading {
        LoadIntoAlike(t, s, s', i.rd, i.op, a);
      } else if ClassOf(i.op) == Storing {
        StoreAlike(t, s, s', a, AccessSize(i.op), s.regs[i.rs2]);
      }
    }
  }

  lemma StepAlike(t: Text, i: Instruction, s: State, s': State, host: Host)
    requires t.Placed() && Alike(t, s, s') && Blind(t, i, s, host)
    ensures AlikeOutcome(t, Exec(i, s, host), Exec(i, s', host))
  {
    hide Effect, SameOutside, Blind, Wrap;
    EffectAlike(t, i, s, s', host);
  }

  /** Stores that spare the text from one state spare it from the other, and so do blind calls. */
  lemma SparesAlike(t: Text, i: Instruction, s: State, s': State, host: Host)
    requires t.Placed() && Alike(t, s, s') && Blind(t, i, s, host) && StoreSpares(t, i, s)
    ensures Spares(t, i, s', host)
  {
    hide SameOutside, AvoidsDropped, BlindCall, CallSpares, ClassOf, Wrap, AccessSize, SysCall;
    if i.op == ECALL {
      CallAlike(t, s, s', host);
    }
  }

  // ---- whole runs ----

  /** The guest neither reads a word the image does not keep nor writes its text. */
  ghost predicate Oblivious(j: Job, g: State, host: Host)
    requires Ready(j)
  {
    g.pc == j.text.End() || (j.text.At(g.pc) && Blind(j.text, InstrAt(j, g), g, host) && StoreSpares(j.text, InstrAt(j, g), g))
  }

  lemma RawStepAlike(j: Job, g: State, s: State, host: Host)
    requires Ready(j) && Alike(j.text, g, s) && j.text.In(s.mem) && g.pc != j.text.End() && Oblivious(j, g, host)
    ensures AlikeOutcome(j.text, CachedStep(j.instrs, j.text.start, g, host), RawStep(s, host))
    ensures RawStep(s, host).Next? ==> j.text.In(RawStep(s, host).state.mem)
  {
    hide Caches, Exec, Spares, StoreSpares, Blind, SameOutside, InstrAt, CachedStep, RawStep, Text.In, AlikeOutcome;
    CachedIsExec(j, g, host);
    OneCachedStep(j.text, j.instrs, s, host);
    SameInstr(j, g, s);
    CachedIsExec(j, s, host);
    StepAlike(j.text, InstrAt(j, g), g, s, host);
    SparesAlike(j.text, InstrAt(j, g), g, s, host);
    if RawStep(s, host).Next? {
      StepKeepsText(j.text, InstrAt(j, g), s, host);
    }
  }

  lemma SameInstr(j: Job, g: State, s: State)
    requires Ready(j) && j.text.At(g.pc) && g.pc == s.pc
    ensures InstrAt(j, g) == InstrAt(j, s)
  {
    hide Caches;
  }

  /** Start the interpreter with the original text in memory and the guest with the image of it, alike
      otherwise.  While the guest is oblivious of the words not kept, the two reach the same registers,
      pc and host state, and the same memory elsewhere, after every number of instructions. */
  lemma {:induction false} OriginalRunAlike(j: Job, g0: State, m: Mem, host: Host, k: nat)
    requires Ready(j) && SameOutside(j.text, g0.mem, m) && j.text.In(m) && !GuestRun(j, g0, host, k).Fault?
    requires forall n: nat :: n < k && GuestRun(j, g0, host, n).Next? ==> Oblivious(j, GuestRun(j, g0, host, n).state, host)
    ensures AlikeOutcome(j.text, GuestRun(j, g0, host, k), RawRun(g0.(mem := m), host, k))
    ensures RawRun(g0.(mem := m), host, k).Next? ==> j.text.In(RawRun(g0.(mem := m), host, k).state.mem)
  {
    hide Caches, CachedStep, RawStep, SameOutside, Oblivious, Text.In;
    if k == 0 {
    } else {
      OriginalRunAlike(j, g0, m, host, k - 1);
      if GuestRun(j, g0, host, k - 1).Next? {
        NotYetAtEnd(j, g0, host, k - 1);
        RawStepAlike(j, GuestRun(j, g0, host, k - 1).state, RawRun(g0.(mem := m), host, k - 1).state, host);
      }
    }
  }

  // ---- a load that tells ----

  /** `lw x5, 4(x0)` at address 0, and behind it a word that does not decode. */
  const LOAD: Word := 0x0040_2283
  const ODD: Word := 0xFFFF_FFFF

  lemma LoadKind()
    ensures Kind(LOAD) == LW && Kind(ODD) == INVALID
  {
  }

  lemma LoadFields()
    ensures Rd(LOAD) == 5 && Rs1(LOAD) == 0 && LOAD / 0x10_0000 == 4
  {
  }

  lemma LoadDecodes(a: Word)
    ensures var d := Decode(LOAD, a); d.op == LW && d.rd == 5 && d.rs1 == 0 && d.imm == 4
  {
    hide IImm, ClassOf, Kind, Decode, Rd, Rs1, Rs2;
    LoadKind();
    LoadFields();
    DecodedFields(LOAD, a);
    OtherClass(LW);
    Powers();
    IImmIsField(LOAD);
  }

  lemma OddIsDropped()
    ensures KeptWord(ODD) == 0
  {
    hide Kind;
    LoadKind();
  }

  lemma LoadStep(s: State, host: Host)
    requires s.regs[0] == 0
    ensures Exec(Decode(LOAD, 0), s, host).Next? && Exec(Decode(LOAD, 0), s, host).state.regs[5] == Load(s.mem, 4, 4)
  {
    hide Decode, Effect, ClassOf, Load;
    LoadDecodes(0);
    OtherClass(LW);
    EffectByClass(Decode(LOAD, 0), s, host);
  }

  /** On that text the first instruction of the guest loads 0, that of the interpreter 0xFFFFFFFF. */
  lemma LoadOfUndecodableDiffers(g: State, m: Mem, host: Host)
    requires g.pc == 0 && g.regs[0] == 0
    requires Text(0, [LOAD, KeptWord(ODD)]).In(g.mem) && Text(0, [LOAD, ODD]).In(m)
    ensures RawStep(g, host).Next? && RawStep(g, host).state.regs[5] == 0
    ensures RawStep(g.(mem := m), host).Next? && RawStep(g.(mem := m), host).state.regs[5] == 0xFFFF_FFFF
  {
    hide Decode, Exec, Load, KeptWord;
    OddIsDropped();
    assert [LOAD, KeptWord(ODD)][0] == LOAD && [LOAD, ODD][0] == LOAD;
    assert [LOAD, KeptWord(ODD)][1] == 0 && [LOAD, ODD][1] == ODD;
    LoadStep(g, host);
    LoadStep(g.(mem := m), host);
  }
}
