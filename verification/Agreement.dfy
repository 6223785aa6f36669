/** How the engines relate on a raw word: the chained-if engine, decoding followed by the
    predecoded engine, and the switch engine. */
module Agreement {
  import opened Words
  import opened Isa
  import opened Machine
  import opened Interpreter

  /** The words on which the switch engine means something else than decoding does. */
  predicate Deviates(w: Word) {
    (FallsIntoLui(w) && Rd(w) != 0) || SkipsCall(w)
  }

  lemma ClearedAnyway(s: State, v: Word)
    ensures Retire(WithReg(s, 0, v)) == Retire(s)
  {
    assert s.regs[0 := v][0 := 0] == s.regs[0 := 0];
  }

  lemma FallsIntoLuiKind(w: Word)
    requires FallsIntoLui(w)
    ensures Kind(w) == INVALID
  {
    hide Opcode, Funct3, Funct7, Funct5;
  }

  lemma SwitchAgrees(w: Word, s: State, host: Host)
    requires !Deviates(w)
    ensures SwitchExec(w, s, host) == Exec(Decode(w, s.pc), s, host)
  {
    hide Decode, Effect, Opcode, Funct3, Rd, UImm, Wrap, Retire, WithReg;
    if FallsIntoLui(w) {
      FallsIntoLuiKind(w);
      WordInvalid(w, s, host);
      ClearedAnyway(s, Wrap(UImm(w) * 0x1000));
    }
  }

  /** On a word that falls into LUI with rd != 0, any state whose rd differs from the upper
      immediate shows the difference. */
  lemma FallThroughShows(w: Word, s: State, host: Host)
    requires FallsIntoLui(w) && Rd(w) != 0 && s.regs[Rd(w)] != Wrap(UImm(w) * 0x1000)
    ensures SwitchExec(w, s, host) != Exec(Decode(w, s.pc), s, host)
  {
    hide Decode, Effect, Opcode, Funct3, Rd, UImm, Wrap;
    FallsIntoLuiKind(w);
    WordInvalid(w, s, host);
    var v := Wrap(UImm(w) * 0x1000);
    assert Retire(WithReg(s, Rd(w), v)).regs[Rd(w)] == v;
    assert Retire(s).regs[Rd(w)] == s.regs[Rd(w)];
  }

  lemma SkippedCallShows(w: Word, s: State, host: Host)
    requires SkipsCall(w)
    requires host(s.regs[A7], s.regs, s.mem, s.world).Exit?
    ensures SwitchExec(w, s, host) != Exec(Decode(w, s.pc), s, host)
  {
    hide Decode, Effect, Opcode, Funct3, Rd, Rs1, Rs2, IImm, LoadInto, WriteTo, UImm, Wrap;
    CallKinds(w);
    WordSystem(w, s, host);
  }

  ghost predicate AgreesEverywhere(w: Word) {
    forall s: State, host: Host :: SwitchExec(w, s, host) == Exec(Decode(w, s.pc), s, host)
  }

  /** The switch engine agrees with decoding on every state exactly outside the two classes. */
  lemma SwitchAgreesExactly(w: Word)
    ensures AgreesEverywhere(w) <==> !Deviates(w)
  {
    hide SwitchExec, Exec, Decode, Opcode, Funct3, Rd, UImm, Wrap;
    if !Deviates(w) {
      forall s: State, host: Host
        ensures SwitchExec(w, s, host) == Exec(Decode(w, s.pc), s, host)
      {
        SwitchAgrees(w, s, host);
      }
    } else {
      var value: Word := if Wrap(UImm(w) * 0x1000) == 0 then 1 else 0;
      var s := State(seq(32, _ => value), 0, seq(MEMORY_SIZE, _ => 0), 0);
      var host: Host := (n, r, m, v) => Exit(v);
      if SkipsCall(w) {
        SkippedCallShows(w, s, host);
      } else {
        FallThroughShows(w, s, host);
      }
    }
  }

  /** The word the generated program keeps for the fallback: an undecodable one is kept as 0. */
  function KeptWord(w: Word): Word { Decode(w, 0).word }

  /** The image of the text section differs from the original exactly at undecodable nonzero words. */
  lemma KeptWordExactly(w: Word)
    ensures KeptWord(w) == w <==> (Kind(w) != INVALID || w == 0)
  {
    hide Kind, Row;
    KindHasNoFence(w);
  }

  lemma ZeroIsInvalid()
    ensures Kind(0) == INVALID && !FallsIntoLui(0) && !SkipsCall(0)
  {
  }

  /** The fallback runs what was decoded: the switch engine on the kept word is the predecoded
      step of the original word, except where the switch engine skips a call. */
  lemma FallbackRunsDecoded(w: Word, s: State, host: Host)
    requires !SkipsCall(w)
    ensures SwitchExec(KeptWord(w), s, host) == Exec(Decode(w, s.pc), s, host)
  {
    hide Kind, SwitchExec, Exec, Deviates, SkipsCall, Effect, Row;
    KindHasNoFence(w);
    if Kind(w) == INVALID {
      InvalidAlike(w, s, host);
    } else {
      NotDeviating(w);
      SwitchAgrees(w, s, host);
    }
  }

  ghost predicate KeptRunsDecoded(w: Word) {
    forall s: State, host: Host :: SwitchExec(KeptWord(w), s, host) == Exec(Decode(w, s.pc), s, host)
  }

  lemma SkippedCallIsKept(w: Word)
    requires SkipsCall(w)
    ensures KeptWord(w) == w
  {
    hide Kind, Opcode, Funct3, IImm, Row, Decode;
    CallKinds(w);
    KeptWordExactly(w);
  }

  /** The fallback runs what was decoded, on every state, if and only if the word is not such a call. */
  lemma FallbackExactly(w: Word)
    ensures KeptRunsDecoded(w) <==> !SkipsCall(w)
  {
    hide SwitchExec, Exec, Decode, SkipsCall, KeptWord;
    if SkipsCall(w) {
      SkippedCallIsKept(w);
      var s := State(seq(32, _ => 0), 0, seq(MEMORY_SIZE, _ => 0), 0);
      var host: Host := (n, r, m, v) => Exit(v);
      SkippedCallShows(w, s, host);
    } else {
      forall s: State, host: Host
        ensures SwitchExec(KeptWord(w), s, host) == Exec(Decode(w, s.pc), s, host)
      {
        FallbackRunsDecoded(w, s, host);
      }
    }
  }

  lemma NotDeviating(w: Word)
    requires Kind(w) != INVALID && !SkipsCall(w)
    ensures !Deviates(w)
  {
    hide Kind, Opcode, Funct3, Rd;
    if FallsIntoLui(w) {
      FallsIntoLuiKind(w);
    }
  }

  lemma InvalidAlike(w: Word, s: State, host: Host)
    requires Kind(w) == INVALID
    ensures SwitchExec(0, s, host) == Exec(Decode(w, s.pc), s, host)
  {
    hide Kind, Decode, Effect, FallsIntoLui, SkipsCall;
    ZeroIsInvalid();
    WordInvalid(w, s, host);
    WordInvalid(0, s, host);
  }
}
