/** The register-use masks of the decoder tables, and that they are right: an instruction
    reads and writes no register its mask leaves out. */
module RegisterUse {
  import opened Words
  import opened Isa
  import opened Machine

  datatype Use = UseRs1 | UseRs2 | UseRd

  function FormatRegisterUse(f: Format): set<Use> {
    match f
    case R => {UseRs1, UseRs2, UseRd}
    case I => {UseRs1, UseRd}
    case S => {UseRs1, UseRs2}
    case B => {UseRs1, UseRs2}
    case J => {UseRd}
    case U => {UseRd}
  }

  /** The mask of an instruction type; ECALL and EBREAK are cleared, the rest follow their format. */
  function Mask(op: Op): set<Use> {
    if HasRow(op) && op != ECALL && op != EBREAK then FormatRegisterUse(Row(op).format) else {}
  }

  /** A table of masks starts out empty everywhere. */
  function Lookup<K>(table: map<K, set<Use>>, key: K): set<Use> { if key in table then table[key] else {} }

  // ---- building the tables ----

  /** Every entry so far is the use of its row. */
  ghost predicate Filled(table: map<Op, set<Use>>) {
    forall op: Op :: op in table ==> HasRow(op) && table[op] == FormatRegisterUse(Row(op).format)
  }

  method AddTypes(table: map<Op, set<Use>>, list: seq<Listed>) returns (more: map<Op, set<Use>>)
    requires Filled(table)
    ensures Filled(more) && table.Keys <= more.Keys
    ensures forall k :: 0 <= k < |list| ==> list[k] in more
  {
    hide Row, FormatRegisterUse;
    more := table;
    for k := 0 to |list|
      invariant Filled(more) && table.Keys <= more.Keys
      invariant forall n :: 0 <= n < k ==> list[n] in more
    {
      more := more[list[k] := FormatRegisterUse(Row(list[k]).format)];
    }
  }

  lemma AllTypes(table: map<Op, set<Use>>, op: Op)
    requires HasRow(op) && forall k :: 0 <= k < |RV32I| ==> RV32I[k] in table
    requires forall k :: 0 <= k < |RV32M| ==> RV32M[k] in table
    requires forall k :: 0 <= k < |RV32A| ==> RV32A[k] in table
    ensures op in table
  {
    hide Row, RV32I, RV32M, RV32A;
    TablesComplete(op);
  }

  method BuildByType() returns (table: map<Op, set<Use>>)
    ensures forall op: Op :: Lookup(table, op) == Mask(op)
  {
    hide Row, FormatRegisterUse, RV32I, RV32M, RV32A;
    table := AddTypes(map[], RV32I);
    table := AddTypes(table, RV32M);
    table := AddTypes(table, RV32A);
    forall op: Op
      ensures Lookup(table[ECALL := {}][EBREAK := {}], op) == Mask(op)
    {
      if HasRow(op) {
        AllTypes(table, op);
      }
    }
    table := table[ECALL := {}][EBREAK := {}];
  }

  predicate OfOpcode(opcode: int, op: Op) { HasRow(op) && Row(op).opcode == opcode }

  ghost predicate Unused(opcode: int) { forall op: Op :: !OfOpcode(opcode, op) }

  /** The rows of one list, in order. */
  method AddOpcodes(table: map<int, set<Use>>, list: seq<Listed>) returns (more: map<int, set<Use>>)
    requires Consistent(table)
    ensures Consistent(more) && table.Keys <= more.Keys
    ensures forall k :: 0 <= k < |list| ==> Row(list[k]).opcode in more
  {
    hide Row, FormatRegisterUse, Consistent;
    more := table;
    for k := 0 to |list|
      invariant Consistent(more) && table.Keys <= more.Keys
      invariant forall n :: 0 <= n < k ==> Row(list[n]).opcode in more
    {
      OpcodeSteps(more, list[k]);
      more := more[Row(list[k]).opcode := FormatRegisterUse(Row(list[k]).format)];
    }
  }

  lemma AllOpcodes(table: map<int, set<Use>>, op: Op)
    requires HasRow(op)
    requires forall k :: 0 <= k < |RV32I| ==> Row(RV32I[k]).opcode in table
    requires forall k :: 0 <= k < |RV32M| ==> Row(RV32M[k]).opcode in table
    requires forall k :: 0 <= k < |RV32A| ==> Row(RV32A[k]).opcode in table
    ensures Row(op).opcode in table
  {
    hide Row, RV32I, RV32M, RV32A;
    TablesComplete(op);
  }

  /** Clearing the SYSTEM opcode at the end gives every type its mask. */
  lemma MasksByOpcode(table: map<int, set<Use>>, op: Op)
    requires HasRow(op) && Consistent(table) && Row(op).opcode in table
    ensures Lookup(table[0x73 := {}], Row(op).opcode) == Mask(op)
  {
    hide Row, FormatRegisterUse;
    SystemOpcode(op);
  }

  lemma NoOtherOpcodes(table: map<int, set<Use>>, opcode: int)
    requires Consistent(table) && Unused(opcode)
    ensures Lookup(table[0x73 := {}], opcode) == {}
  {
    hide Row, FormatRegisterUse;
  }

  method BuildByOpcode() returns (table: map<int, set<Use>>)
    ensures forall op: Op :: HasRow(op) ==> Lookup(table, Row(op).opcode) == Mask(op)
    ensures forall opcode: int :: Unused(opcode) ==> Lookup(table, opcode) == {}
  {
    hide Row, FormatRegisterUse, RV32I, RV32M, RV32A, Consistent, Mask, Lookup, Unused;
    EmptyConsistent();
    table := AddOpcodes(map[], RV32I);
    table := AddOpcodes(table, RV32M);
    table := AddOpcodes(table, RV32A);
    forall op: Op | HasRow(op)
      ensures Lookup(table[0x73 := {}], Row(op).opcode) == Mask(op)
    {
      AllOpcodes(table, op);
      MasksByOpcode(table, op);
    }
    forall opcode: int | Unused(opcode)
      ensures Lookup(table[0x73 := {}], opcode) == {}
    {
      NoOtherOpcodes(table, opcode);
    }
    table := table[0x73 := {}];
  }

  lemma EmptyConsistent()
    ensures Consistent(map[])
  {
  }

  /** What is in the table so far is the use of every row with that opcode. */
  ghost predicate Consistent(table: map<int, set<Use>>) {
    && (forall op: Op :: HasRow(op) && Row(op).opcode in table ==> table[Row(op).opcode] == FormatRegisterUse(Row(op).format))
    && (forall opcode: int :: opcode in table ==> exists op: Op :: OfOpcode(opcode, op))
  }

  lemma OpcodeSteps(table: map<int, set<Use>>, op: Op)
    requires HasRow(op) && Consistent(table)
    ensures Consistent(table[Row(op).opcode := FormatRegisterUse(Row(op).format)])
  {
    hide Row, FormatRegisterUse;
    var opcode := Row(op).opcode;
    var more := table[opcode := FormatRegisterUse(Row(op).format)];
    assert OfOpcode(opcode, op);
    forall other: Op | HasRow(other) && Row(other).opcode in more
      ensures more[Row(other).opcode] == FormatRegisterUse(Row(other).format)
    {
      if Row(other).opcode == opcode {
        OpcodeFixesFormat(op, other);
      }
    }
  }

  function FormatOf(opcode: int): Format {
    if opcode == 0x33 || opcode == 0x2F then R else if opcode == 0x23 then S else if opcode == 0x63 then B
    else if opcode == 0x6F then J else if opcode == 0x37 || opcode == 0x17 then U else I
  }

  lemma OpcodeFormat(op: Op)
    requires HasRow(op)
    ensures Row(op).format == FormatOf(Row(op).opcode)
  {
  }

  /** Rows with the same opcode have the same format, so the order of the rows does not matter. */
  lemma OpcodeFixesFormat(op: Op, other: Op)
    requires HasRow(op) && HasRow(other) && Row(op).opcode == Row(other).opcode
    ensures Row(op).format == Row(other).format
  {
    hide Row, FormatOf;
    OpcodeFormat(op);
    OpcodeFormat(other);
  }

  lemma SystemOpcode(op: Op)
    requires HasRow(op)
    ensures Row(op).opcode == 0x73 <==> op == ECALL || op == EBREAK
  {
  }

  // ---- the masks are right ----

  predicate SameSources(i: Instruction, s: State, t: State) {
    && s.pc == t.pc && s.mem == t.mem && s.world == t.world
    && (UseRs1 in Mask(i.op) ==> s.regs[i.rs1] == t.regs[i.rs1])
    && (UseRs2 in Mask(i.op) ==> s.regs[i.rs2] == t.regs[i.rs2])
  }

  /** The same continuation, and the same value in rd if the mask says it is written. */
  predicate SameEffect(i: Instruction, e: Outcome<State>, f: Outcome<State>) {
    match e
    case Next(u) => f.Next? && u.pc == f.state.pc && u.mem == f.state.mem && u.world == f.state.world
      && (UseRd in Mask(i.op) ==> u.regs[i.rd] == f.state.regs[i.rd])
    case Exited(mem, world) => f == Exited(mem, world)
    case Fault => f.Fault?
  }

  // The format of each class of instructions.

  lemma RegisterFormats(op: Op)
    requires ClassOf(op) == Computing || op == LR_W || op == SC_W
    ensures HasRow(op) && Row(op).format == R
  {
  }

  lemma ImmediateFormats(op: Op)
    requires ClassOf(op) == ComputingImmediate || ClassOf(op) == Loading || op == JALR
    ensures HasRow(op) && Row(op).format == I
  {
  }

  lemma TwoSourceFormats(op: Op)
    requires ClassOf(op) == Storing || ClassOf(op) == Branching
    ensures HasRow(op) && (Row(op).format == S || Row(op).format == B)
  {
  }

  lemma UpperFormats()
    ensures Row(JAL).format == J && Row(LUI).format == U && Row(AUIPC).format == U
  {
  }

  lemma MaskByClass(op: Op)
    ensures ClassOf(op) == Computing ==> Mask(op) == {UseRs1, UseRs2, UseRd}
    ensures ClassOf(op) == ComputingImmediate || ClassOf(op) == Loading || op == JALR ==> Mask(op) == {UseRs1, UseRd}
    ensures ClassOf(op) == Storing || ClassOf(op) == Branching ==> Mask(op) == {UseRs1, UseRs2}
    ensures op == JAL || op == LUI || op == AUIPC ==> Mask(op) == {UseRd}
    ensures op == LR_W || op == SC_W ==> Mask(op) == {UseRs1, UseRs2, UseRd}
    ensures op in {ECALL, EBREAK, FENCE, INVALID} ==> Mask(op) == {}
  {
    hide Row, ClassOf;
    OtherClass(op);
    UpperFormats();
    if ClassOf(op) == Computing || op == LR_W || op == SC_W {
      RegisterFormats(op);
    } else if ClassOf(op) == ComputingImmediate || ClassOf(op) == Loading || op == JALR {
      ImmediateFormats(op);
    } else if ClassOf(op) == Storing || ClassOf(op) == Branching {
      TwoSourceFormats(op);
    }
  }

  lemma JalReadsOnlyUsed(i: Instruction, s: State, t: State, host: Host)
    requires i.op == JAL && SameSources(i, s, t)
    ensures SameEffect(i, Effect(i, s, host), Effect(i, t, host))
  {
    hide Mask, Effect, Wrap;
    EffectOfJal(i, s, host);
    EffectOfJal(i, t, host);
  }

  lemma JalrReadsOnlyUsed(i: Instruction, s: State, t: State, host: Host)
    requires i.op == JALR && SameSources(i, s, t) && UseRs1 in Mask(JALR)
    ensures SameEffect(i, Effect(i, s, host), Effect(i, t, host))
  {
    hide Mask, Effect, Wrap;
    EffectOfJalr(i, s, host);
    EffectOfJalr(i, t, host);
  }

  lemma UpperReadsOnlyUsed(i: Instruction, s: State, t: State, host: Host)
    requires (i.op == LUI || i.op == AUIPC) && SameSources(i, s, t)
    ensures SameEffect(i, Effect(i, s, host), Effect(i, t, host))
  {
    hide Mask, Effect, Wrap;
    EffectOfUpper(i, s, host);
    EffectOfUpper(i, t, host);
  }

  lemma MemoryReadsOnlyUsed(i: Instruction, s: State, t: State, host: Host)
    requires i.op in {LR_W, SC_W, EBREAK, FENCE, INVALID} && SameSources(i, s, t)
    ensures SameEffect(i, Effect(i, s, host), Effect(i, t, host))
  {
    hide ClassOf, Mask, Effect, Load, Loaded, Store, AccessSize, SysCall;
    MaskByClass(i.op);
    OtherClass(i.op);
    EffectOfSystem(i, s, host);
    EffectOfSystem(i, t, host);
  }

  lemma ReadsOnlyUsed(i: Instruction, s: State, t: State, host: Host)
    requires i.op != ECALL && SameSources(i, s, t)
    ensures SameEffect(i, Effect(i, s, host), Effect(i, t, host))
  {
    hide ClassOf, Mask, Effect, Load, Loaded, Store, Wrap, AccessSize, Alu, RegisterForm, Taken;
    OtherClass(i.op);
    MaskByClass(i.op);
    if i.op == JAL {
      JalReadsOnlyUsed(i, s, t, host);
    } else if i.op == JALR {
      JalrReadsOnlyUsed(i, s, t, host);
    } else if i.op == LUI || i.op == AUIPC {
      UpperReadsOnlyUsed(i, s, t, host);
    } else if ClassOf(i.op) == Other {
      MemoryReadsOnlyUsed(i, s, t, host);
    } else {
      EffectByClass(i, s, host);
      EffectByClass(i, t, host);
    }
  }

  /** Two states that agree on pc, memory and the registers the mask names step alike: the same
      outcome, pc and memory, and the same value written. */
  lemma MaskCoversReads(i: Instruction, s: State, t: State, host: Host)
    requires i.op != ECALL && SameSources(i, s, t)
    ensures SameEffect(i, Exec(i, s, host), Exec(i, t, host))
  {
    hide Mask, Effect, Wrap;
    ReadsOnlyUsed(i, s, t, host);
  }

  lemma WritesNothingMask(op: Op)
    requires op != ECALL
    ensures UseRd !in Mask(op) <==> WritesNothing(op)
  {
    hide ClassOf, Mask;
    OtherClass(op);
    MaskByClass(op);
  }

  /** Only rd can change, and only if the mask says so; x0 is zero after every step. */
  lemma MaskCoversWrites(i: Instruction, s: State, host: Host, r: Register)
    requires i.op != ECALL && Exec(i, s, host).Next?
    ensures Exec(i, s, host).state.regs[0] == 0
    ensures r != 0 && (r != i.rd || UseRd !in Mask(i.op)) ==> Exec(i, s, host).state.regs[r] == s.regs[r]
  {
    hide Mask, Effect, WritesNothing;
    WritesNothingMask(i.op);
    EffectTouches(i, s, host);
  }
}
