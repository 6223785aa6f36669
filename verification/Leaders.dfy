/** Which addresses the analysis makes leaders, spelled out, and what that does for a run: no return
    from a call, and no step past a branch, leaves translated code. */
module Leaders {
  import opened Words
  import opened Isa
  import opened Machine
  import opened Predecode
  import opened Translate
  import opened Emitter
  import opened BasicBlocks
  import opened Simulation
  import opened Driver

  lemma ListingAddress(text: Text, k: nat)
    requires text.Placed() && k < |text.words|
    ensures |Listing(text)| == |text.words| && Listing(text)[k].address == text.start + 4 * k
  {
    hide Decode;
    DecodeKeepsAddress(text.words[k], text.start + 4 * k);
  }

  /** An instruction that may continue elsewhere than behind itself. */
  predicate Jumps(op: Op) { op in {BEQ, BNE, BLT, BGE, BLTU, BGEU, JAL, JALR} }

  /** One whose target is in the instruction. */
  predicate JumpsDirectly(op: Op) { Jumps(op) && op != JALR }

  lemma BranchesAre(op: Op)
    ensures IsBranch(op) <==> op in {BEQ, BNE, BLT, BGE, BLTU, BGEU}
  {
  }

  lemma LeadsToExactly(i: Instruction, a: Word)
    ensures LeadsTo(i, a) <==> (JumpsDirectly(i.op) && a == Wrap(i.address + i.imm)) || (Jumps(i.op) && a == Wrap(i.address + 4))
  {
    hide IsBranch, Wrap;
    BranchesAre(i.op);
  }

  ghost predicate BehindJump(instrs: seq<Instruction>, a: Word) {
    exists k :: 0 <= k < |instrs| && Jumps(instrs[k].op) && a == Wrap(instrs[k].address + 4)
  }

  ghost predicate JumpedTo(instrs: seq<Instruction>, a: Word) {
    exists k :: 0 <= k < |instrs| && JumpsDirectly(instrs[k].op) && a == Wrap(instrs[k].address + instrs[k].imm)
  }

  ghost predicate WasDestination(profile: Profile, a: Word) {
    exists b, k :: b in profile && 0 <= k < |profile[b]| && profile[b][k].target == a
  }

  ghost predicate InData(sections: seq<seq<Word>>, a: Word) {
    exists k, n :: 0 <= k < |sections| && 0 <= n < |sections[k]| && sections[k][n] == a
  }

  lemma LedExactly(instrs: seq<Instruction>, a: Word)
    ensures Led(instrs, a) <==> JumpedTo(instrs, a) || BehindJump(instrs, a)
  {
    hide LeadsTo, JumpsDirectly, Jumps;
    if Led(instrs, a) {
      var k :| 0 <= k < |instrs| && LeadsTo(instrs[k], a);
      LeadsToExactly(instrs[k], a);
    }
    if JumpedTo(instrs, a) {
      var k :| 0 <= k < |instrs| && JumpsDirectly(instrs[k].op) && a == Wrap(instrs[k].address + instrs[k].imm);
      LeadsToExactly(instrs[k], a);
    }
    if BehindJump(instrs, a) {
      var k :| 0 <= k < |instrs| && Jumps(instrs[k].op) && a == Wrap(instrs[k].address + 4);
      LeadsToExactly(instrs[k], a);
    }
  }

  /** The leaders of a text: its start, the targets of direct jumps, what is behind a jump, profiled
      destinations if profiles are used, and data words that point into the text; and no others. */
  lemma LeadersExactly(text: Text, options: Options, profile: Profile, sections: seq<seq<Word>>, leaders: set<Word>, a: Word)
    requires text.Placed() && LeadersFound(text, options, profile, sections, leaders)
    ensures a in leaders <==>
      || (text.words != [] &&
          (a == text.start || JumpedTo(Listing(text), a) || BehindJump(Listing(text), a) || (options.useProfile && WasDestination(profile, a))))
      || (InData(sections, a) && text.start <= a < text.End())
  {
    hide Led, Listing, JumpedTo, BehindJump;
    LedExactly(Listing(text), a);
    ProfiledExactly(profile, a);
    HarvestedExactly(sections, text, a);
    ListingEmpty(text);
    if text.words != [] {
      ListingAddress(text, 0);
    }
  }

  lemma ListingEmpty(text: Text)
    requires text.Placed()
    ensures Listing(text) == [] <==> text.words == []
  {
    hide Decode;
  }

  lemma ProfiledExactly(profile: Profile, a: Word)
    ensures Profiled(profile, a) <==> WasDestination(profile, a)
  {
    if WasDestination(profile, a) {
      var b, k :| b in profile && 0 <= k < |profile[b]| && profile[b][k].target == a;
      assert BasicBlocks.Listed(profile[b], a);
    }
  }

  lemma HarvestedExactly(sections: seq<seq<Word>>, text: Text, a: Word)
    requires text.Placed()
    ensures HarvestedIn(sections, text.start, text.End(), a) <==> InData(sections, a) && text.start <= a < text.End()
  {
    if InData(sections, a) && text.start <= a < text.End() {
      var k, n :| 0 <= k < |sections| && 0 <= n < |sections[k]| && sections[k][n] == a;
      assert Harvested(sections[k], text.start, text.End(), a);
    }
  }

  /** The instruction behind a branch, a jump or a call has a label: a dispatch to its address, or to
      the end of the text, is not the fallback's. */
  lemma BehindJumpsLead(text: Text, options: Options, pins: seq<Register>, leaders: set<Word>, profile: Profile,
                        sections: seq<seq<Word>>, k: nat)
    requires text.Placed() && LeadersFound(text, options, profile, sections, leaders)
    requires k < |text.words| && |Listing(text)| == |text.words| && Jumps(Listing(text)[k].op)
    ensures Leads(JobOf(text, options, pins, leaders, profile), text.start + 4 * k + 4)
    ensures k + 1 < |text.words| ==> Listing(text)[k + 1].address in leaders
  {
    hide LeadersFound, Listing, JumpedTo, WasDestination, InData, Jumps;
    ListingAddress(text, k);
    LeadersExactly(text, options, profile, sections, leaders, text.start + 4 * k + 4);
    assert BehindJump(Listing(text), text.start + 4 * k + 4);
    if k + 1 < |text.words| {
      ListingAddress(text, k + 1);
    }
  }

  /** In translated code, an indirect jump to what is behind a jump of the text - a return from a call -
      stays in translated code. */
  lemma ReturnsStayTranslated(text: Text, options: Options, pins: seq<Register>, leaders: set<Word>, profile: Profile,
                              sections: seq<seq<Word>>, g: State, host: Host, k: nat)
    requires text.Placed() && 0 !in pins && LeadersFound(text, options, profile, sections, leaders) && text.At(g.pc)
    requires k < |text.words| && |Listing(text)| == |text.words| && Jumps(Listing(text)[k].op)
    requires Ready(JobOf(text, options, pins, leaders, profile))
    ensures var j := JobOf(text, options, pins, leaders, profile);
      var o := Exec(InstrAt(j, g), g, host);
      o.Next? && o.state.pc == text.start + 4 * k + 4 ==> NextMode(j, g, host, true) && NextMode(j, g, host, false)
  {
    hide LeadersFound, Listing, Exec, Jumps, Ready, JobOf, InstrAt, Leads;
    BehindJumpsLead(text, options, pins, leaders, profile, sections, k);
  }
}
