/** The translator's code generator, as it works: an output that statements are appended to,
    and a table of tracked constants updated instruction by instruction. */
module Emitter {
  import opened Words
  import opened Isa
  import opened Machine
  import opened Cpp
  import opened Translate

  // ---- profile ----

  datatype Destination = Destination(target: Word, count: nat)

  /** Destinations seen from each indirect jump, in the iteration order of the hash map. */
  type Profile = map<Word, seq<Destination>>

  function DestinationsOf(profile: Profile, address: Word): seq<Destination> {
    if address in profile then profile[address] else []
  }

  ghost predicate IsFirstMax(ds: seq<Destination>, m: nat) {
    && m < |ds|
    && (forall k :: 0 <= k < |ds| ==> ds[k].count <= ds[m].count)
    && (forall k :: 0 <= k < m ==> ds[k].count < ds[m].count)
  }

  /** std::max_element: the first of the largest. */
  method MaxElement(ds: seq<Destination>) returns (m: nat)
    requires ds != []
    ensures IsFirstMax(ds, m)
  {
    m := 0;
    for k := 1 to |ds|
      invariant m < k
      invariant IsFirstMax(ds[..k], m)
    {
      if ds[m].count < ds[k].count {
        m := k;
      }
    }
    assert ds[..|ds|] == ds;
  }

  function FirstMax(ds: seq<Destination>): (m: nat)
    requires ds != []
    ensures IsFirstMax(ds, m)
  {
    if |ds| == 1 then 0
    else
      var m := FirstMax(ds[..|ds| - 1]);
      if ds[m].count < ds[|ds| - 1].count then |ds| - 1 else m
  }

  function Without(ds: seq<Destination>, m: nat): seq<Destination>
    requires m < |ds|
  {
    ds[..m] + ds[m + 1..]
  }

  /** The n most frequent destinations, most frequent first. */
  function Hottest(ds: seq<Destination>, n: nat): (top: seq<Destination>)
    ensures |top| <= n
    decreases n
  {
    if n == 0 || ds == [] then []
    else var m := FirstMax(ds); [ds[m]] + Hottest(Without(ds, m), n - 1)
  }

  lemma WithoutKeeps(ds: seq<Destination>, m: nat)
    requires m < |ds|
    ensures multiset(ds) == multiset{ds[m]} + multiset(Without(ds, m))
  {
    assert ds == ds[..m] + [ds[m]] + ds[m + 1..];
  }

  lemma InWhole(ds: seq<Destination>, top: seq<Destination>, rest: seq<Destination>, d: Destination)
    requires multiset(ds) == multiset(top) + multiset(rest) && (d in top || d in rest)
    ensures d in ds
  {
    assert d in multiset(ds);
  }

  lemma HottestOne(ds: seq<Destination>, n: nat, m: nat)
    requires n > 0 && ds != [] && m == FirstMax(ds)
    ensures Hottest(ds, n) == [ds[m]] + Hottest(Without(ds, m), n - 1)
  {
  }

  ghost predicate Descending(top: seq<Destination>) {
    forall p, q :: 0 <= p < q < |top| ==> top[q].count <= top[p].count
  }

  ghost predicate Above(top: seq<Destination>, rest: seq<Destination>) {
    forall a, b :: a in top && b in rest ==> b.count <= a.count
  }

  lemma PrependLargest(d: Destination, top: seq<Destination>, rest: seq<Destination>)
    requires Descending(top) && Above(top, rest)
    requires forall e :: e in top || e in rest ==> e.count <= d.count
    ensures Descending([d] + top) && Above([d] + top, rest)
  {
  }

  lemma LargestOfAll(ds: seq<Destination>, m: nat, top: seq<Destination>, rest: seq<Destination>)
    requires IsFirstMax(ds, m) && multiset(Without(ds, m)) == multiset(top) + multiset(rest)
    ensures forall e :: e in top || e in rest ==> e.count <= ds[m].count
  {
    forall e | e in top || e in rest
      ensures e.count <= ds[m].count
    {
      InWhole(Without(ds, m), top, rest, e);
    }
  }

  lemma PutsBack(ds: seq<Destination>, m: nat, top: seq<Destination>, rest: seq<Destination>)
    requires m < |ds| && multiset(Without(ds, m)) == multiset(top) + multiset(rest)
    ensures multiset(ds) == multiset([ds[m]] + top) + multiset(rest) && |Without(ds, m)| == |ds| - 1
  {
    WithoutKeeps(ds, m);
    assert multiset([ds[m]] + top) == multiset{ds[m]} + multiset(top);
  }

  /** They come from the profile, in order of frequency, and nothing left out is more frequent. */
  lemma {:induction false} HottestAreHottest(ds: seq<Destination>, n: nat) returns (rest: seq<Destination>)
    ensures multiset(ds) == multiset(Hottest(ds, n)) + multiset(rest)
    ensures Descending(Hottest(ds, n)) && Above(Hottest(ds, n), rest)
    ensures |Hottest(ds, n)| == if n <= |ds| then n else |ds|
    decreases n
  {
    hide FirstMax, Descending, Above, Without, IsFirstMax;
    if n == 0 || ds == [] {
      rest := ds;
      NothingAbove(rest);
    } else {
      var m := FirstMax(ds);
      FirstMaxBound(ds);
      HottestOne(ds, n, m);
      rest := HottestAreHottest(Without(ds, m), n - 1);
      var top := Hottest(Without(ds, m), n - 1);
      PutsBack(ds, m, top, rest);
      LargestOfAll(ds, m, top, rest);
      PrependLargest(ds[m], top, rest);
    }
  }

  lemma FirstMaxBound(ds: seq<Destination>)
    requires ds != []
    ensures FirstMax(ds) < |ds|
  {
  }

  lemma NothingAbove(rest: seq<Destination>)
    ensures Descending([]) && Above([], rest)
  {
  }

  function TargetsOf(ds: seq<Destination>): seq<Word> { seq(|ds|, k requires 0 <= k < |ds| => ds[k].target) }

  // ---- options ----

  datatype Options = Options(chaining: bool, useProfile: bool, predict: bool, pinRegisters: bool)

  /** Everything the code generator is given, as the specification of its output sees it. */
  function Configure(options: Options, pins: seq<Register>, leaders: set<Word>, profile: Profile, start: Word): Config {
    Config(pins, options.pinRegisters, options.chaining, leaders,
           if options.predict then map a | a in profile :: TargetsOf(Hottest(profile[a], 3)) else map[], start)
  }

  lemma ConfiguredPredictions(options: Options, pins: seq<Register>, leaders: set<Word>, profile: Profile, start: Word, address: Word)
    ensures PredictedAt(Configure(options, pins, leaders, profile, start), address)
      == if options.predict then TargetsOf(Hottest(DestinationsOf(profile, address), 3)) else []
    ensures Configure(options, pins, leaders, profile, start).leaders == leaders
  {
  }

  // ---- output ----

  class Output {
    const options: Options
    const registerMap: seq<Register>
    var text: seq<Stmt>

    constructor (options: Options, registerMap: seq<Register>)
      ensures this.options == options && this.registerMap == registerMap && text == []
    {
      this.options, this.registerMap, text := options, registerMap, [];
    }

    method Emit(s: Stmt)
      modifies this
      ensures text == old(text) + [s]
    {
      text := text + [s];
    }

    method EmitRegisterStore()
      modifies this
      ensures text == old(text) + if options.pinRegisters then Saves(registerMap) else []
    {
      if !options.pinRegisters { return; }
      for k := 0 to |registerMap|
        invariant text == old(text) + Saves(registerMap)[..k]
      {
        Emit(Set(Ctx(registerMap[k]), Get(Pinned(registerMap[k]))));
      }
    }

    method EmitRegisterLoad()
      modifies this
      ensures text == old(text) + if options.pinRegisters then Restores(registerMap) else []
    {
      if !options.pinRegisters { return; }
      for k := 0 to |registerMap|
        invariant text == old(text) + Restores(registerMap)[..k]
      {
        Emit(Set(Pinned(registerMap[k]), Get(Ctx(registerMap[k]))));
      }
    }

    /** The host register of a guest register, by its place in the map. */
    method GetHostRegister(r: Register) returns (host: Option<nat>)
      ensures host.Some? <==> r in registerMap
      ensures host.Some? ==> host.value < |registerMap| && registerMap[host.value] == r
    {
      for k := 0 to |registerMap|
        invariant r !in registerMap[..k]
      {
        if registerMap[k] == r { return Some(k); }
      }
      return None;
    }
  }

  // ---- instructions ----

  datatype Field = RS1 | RS2 | RD

  function RegisterAt(i: Instruction, f: Field): Register {
    match f
    case RS1 => i.rs1
    case RS2 => i.rs2
    case RD => i.rd
  }

  class InstructionEmitter {
    const output: Output
    const profile: Profile
    const leaders: set<Word>
    const start: Word
    const regKnown: array<bool>
    const regValues: array<Word>

    ghost predicate Valid()
      reads this
    {
      regKnown.Length == 32 && regValues.Length == 32
    }

    ghost function Tracked(): Tracking
      requires Valid()
      reads this, regKnown, regValues
    {
      Translate.Track(regKnown[..], regValues[..])
    }

    ghost function Cfg(): Config {
      Configure(output.options, output.registerMap, leaders, profile, start)
    }

    constructor (output: Output, profile: Profile, leaders: set<Word>, start: Word)
      ensures Valid() && Tracked() == NothingKnown()
      ensures this.output == output && this.profile == profile && this.leaders == leaders && this.start == start
      ensures fresh(regKnown) && fresh(regValues)
    {
      this.output, this.profile, this.leaders, this.start := output, profile, leaders, start;
      regKnown := new bool[32](_ => false);
      regValues := new Word[32](_ => 0);
    }

    method Track(r: Register, value: Word)
      requires Valid()
      modifies regKnown, regValues
      ensures Tracked() == Learn(old(Tracked()), r, value)
    {
      regValues[r] := value;
      regKnown[r] := true;
    }

    method ResetTracked()
      requires Valid()
      modifies regKnown
      ensures Tracked() == Reset(old(Tracked()))
    {
      for k := 0 to 32
        invariant forall r :: 0 <= r < k ==> !regKnown[r]
      {
        regKnown[k] := false;
      }
    }

    /** REG: the text that stands for a register operand. */
    method Reg(i: Instruction, f: Field) returns (e: Expr)
      requires Valid()
      ensures f != RD ==> e == Operand(Cfg(), Tracked(), RegisterAt(i, f))
      ensures f == RD && i.rd != 0 ==> e == Get(Cfg().Holder(i.rd))
    {
      var index := RegisterAt(i, f);
      if index == 0 { return Dec(0); }
      if f != RD && regKnown[index] { return Dec(regValues[index]); }
      var mapped := output.GetHostRegister(index);
      if output.options.pinRegisters && mapped.Some? { return Get(Pinned(index)); }
      return Get(Ctx(index));
    }

    method EmitPlain(s: Stmt)
      requires Valid()
      modifies output
      ensures output.text == old(output.text) + [s]
    {
      output.Emit(s);
    }

    /** The emit that drops assignments to x0, and forgets what rd held. */
    method EmitTo(s: Stmt, i: Instruction)
      requires Valid()
      modifies output, regKnown
      ensures output.text == old(output.text) + ToRd(i, s)
      ensures Tracked() == Forget(old(Tracked()), i.rd)
    {
      if i.rd > 0 {
        output.Emit(s);
      }
      regKnown[i.rd] := false;
    }

    method Destination(i: Instruction) returns (d: Var)
      requires Valid()
      ensures d == Cfg().Holder(i.rd)
    {
      var mapped := output.GetHostRegister(i.rd);
      if output.options.pinRegisters && mapped.Some? { return Pinned(i.rd); }
      return Ctx(i.rd);
    }

    method EmitOp(i: Instruction, op: BinOp, ordered: bool)
      requires Valid()
      modifies output, regKnown
      ensures output.text == old(output.text) + ToRd(i, OpStmt(Cfg(), old(Tracked()), i, op, ordered))
      ensures Tracked() == Forget(old(Tracked()), i.rd)
    {
      hide Operand, ToRd, Configure;
      var d := Destination(i);
      var a := Reg(i, RS1);
      var b := Reg(i, RS2);
      if i.rd == i.rs1 {
        EmitTo(Update(d, op, b), i);
      } else if i.rd == i.rs2 && !ordered {
        EmitTo(Update(d, op, a), i);
      } else if i.rd == i.rs2 && i.rs1 == 0 {
        EmitTo(Set(d, Neg(b)), i);
      } else {
        EmitTo(Set(d, Bin(op, a, b)), i);
      }
    }

    method EmitLoadSaveAddress(i: Instruction)
      requires Valid()
      modifies output
      ensures output.text == old(output.text) + [AddressStmt(Cfg(), Tracked(), i)]
    {
      hide Operand, Configure;
      var a := Reg(i, RS1);
      if i.imm == 0 {
        EmitPlain(Set(Address, a));
      } else {
        EmitPlain(Set(Address, Bin(Plus, a, Decimal(i.imm))));
      }
    }

    method EmitComputing(i: Instruction)
      requires Valid() && IsRegisterOp(i.op)
      modifies output, regKnown
      ensures output.text == old(output.text) + ToRd(i, ComputeStmt(Cfg(), old(Tracked()), i))
      ensures Tracked() == Forget(old(Tracked()), i.rd)
    {
      hide Operand, ToRd, Configure, OpStmt, Forget, ComputeStmt, OperatorOf;
      if IsArithmetic(i.op) {
        OperationForm(Cfg(), Tracked(), i);
        EmitOp(i, OperatorOf(i.op), i.op == SUB);
      } else {
        var s := ComputationText(i);
        EmitTo(s, i);
      }
    }

    /** The statement of an operation that is always written out. */
    method ComputationText(i: Instruction) returns (s: Stmt)
      requires Valid() && IsRegisterOp(i.op) && !IsArithmetic(i.op)
      ensures s == ComputeStmt(Cfg(), Tracked(), i)
    {
      hide Operand, Configure, ShiftExpr, ProductExpr, DivideStmt, Low5;
      var d := Destination(i);
      var a := Reg(i, RS1);
      var b := Reg(i, RS2);
      if i.op == SLT {
        return Set(d, Bin(Less, Cast(I32, a), Cast(I32, b)));
      } else if i.op == SLTU {
        return Set(d, Bin(Less, a, b));
      } else if i.op in {SLL, SRL, SRA} {
        return Set(d, ShiftExpr(i.op, a, Low5(b)));
      } else if i.op in {MUL, MULH, MULHSU, MULHU} {
        return Set(d, ProductExpr(i.op, a, b));
      } else {
        return DivideStmt(i.op, d, a, b);
      }
    }

    /** ADDI turns into a subtraction or an op-assignment. */
    method AdditionText(i: Instruction) returns (s: Stmt)
      requires Valid()
      ensures s == AddImmediateStmt(Cfg(), Tracked(), i)
    {
      hide Operand, Configure, Decimal;
      var d := Destination(i);
      var a := Reg(i, RS1);
      var n: int := i.imm;
      if n == 0 {
        return Set(d, a);
      } else if i.rs1 == 0 {
        return Set(d, Decimal(n));
      } else if n < 0 {
        if i.rs1 == i.rd {
          return Update(d, Minus, Decimal(-n));
        } else {
          return Set(d, Bin(Minus, a, Decimal(-n)));
        }
      } else if i.rs1 == i.rd {
        return Update(d, Plus, Decimal(n));
      } else {
        return Set(d, Bin(Plus, a, Decimal(n)));
      }
    }

    method ImmediateText(i: Instruction) returns (s: Stmt)
      requires Valid() && IsImmediateOp(i.op)
      ensures s == ComputeImmediateStmt(Cfg(), Tracked(), i)
    {
      hide Operand, Configure, Decimal, AddImmediateStmt, ShiftExpr;
      var d := Destination(i);
      var a := Reg(i, RS1);
      if i.op == ADDI {
        s := AdditionText(i);
      } else if i.op == XORI {
        s := Set(d, Bin(BinOp.Bit(Xor), a, Decimal(i.imm)));
      } else if i.op == ORI {
        s := Set(d, Bin(BinOp.Bit(Or), a, Decimal(i.imm)));
      } else if i.op == ANDI {
        s := Set(d, Bin(BinOp.Bit(And), a, Decimal(i.imm)));
      } else if i.op == SLTI {
        s := Set(d, Bin(Less, Cast(I32, a), Decimal(i.imm)));
      } else if i.op == SLTIU {
        s := Set(d, Bin(Less, a, Decimal(Wrap(i.imm))));
      } else {
        s := Set(d, ShiftExpr(i.op, a, Decimal(i.rs2)));
      }
    }

    /** Loading a constant is where one is learnt. */
    method EmitImmediate(i: Instruction)
      requires Valid() && IsImmediateOp(i.op)
      modifies output, regKnown, regValues
      ensures output.text == old(output.text) + ToRd(i, ComputeImmediateStmt(Cfg(), old(Tracked()), i))
      ensures Tracked() == After(old(Tracked()), i)
    {
      hide Configure, ToRd, ComputeImmediateStmt, Wrap, Forget, Learn;
      ImmediateClass(i.op);
      var s := ImmediateText(i);
      EmitTo(s, i);
      if i.op == ADDI && i.imm != 0 && i.rs1 == 0 {
        LearnsAnyway(old(Tracked()), i.rd, Wrap(i.imm));
        Track(i.rd, Wrap(i.imm));
      }
    }

    method EmitLoad(i: Instruction)
      requires Valid() && IsLoad(i.op)
      modifies output, regKnown
      ensures output.text == old(output.text) + ([AddressStmt(Cfg(), old(Tracked()), i)] + ToRd(i, Set(Cfg().Holder(i.rd), LoadExpr(i.op))))
      ensures Tracked() == Forget(old(Tracked()), i.rd)
    {
      hide AddressStmt, ToRd, Configure, LoadExpr;
      var d := Destination(i);
      EmitLoadSaveAddress(i);
      EmitTo(Set(d, LoadExpr(i.op)), i);
    }

    method EmitStore(i: Instruction)
      requires Valid() && IsStore(i.op)
      modifies output
      ensures output.text ==
        old(output.text) + [AddressStmt(Cfg(), Tracked(), i), WriteMem(AccessSize(i.op), Get(Address), Operand(Cfg(), Tracked(), i.rs2))]
    {
      hide AddressStmt, Configure, Operand, AccessSize;
      var b := Reg(i, RS2);
      EmitLoadSaveAddress(i);
      EmitPlain(WriteMem(AccessSize(i.op), Get(Address), b));
    }

    method EmitBranch(i: Instruction)
      requires Valid() && IsBranch(i.op)
      modifies output
      ensures output.text == old(output.text)
        + [IfGoto(BranchTest(i.op, Operand(Cfg(), Tracked(), i.rs1), Operand(Cfg(), Tracked(), i.rs2)), DirectTarget(i))]
    {
      hide Configure, Operand, BranchTest, DirectTarget;
      var a := Reg(i, RS1);
      var b := Reg(i, RS2);
      EmitPlain(IfGoto(BranchTest(i.op, a, b), DirectTarget(i)));
    }

    /** Direct jumps to the three most frequent targets, those of them that are leaders: the copy of
        the destinations loses its largest element in every round. */
    method EmitPredictions(i: Instruction)
      requires Valid()
      modifies output
      ensures output.text == old(output.text) + Predictions(Cfg(), PredictedAt(Cfg(), i.address))
    {
      hide Hottest, FirstMax, Predictions, Without, PredictedAt, TargetsOf, Configure;
      ConfiguredPredictions(output.options, output.registerMap, leaders, profile, start, i.address);
      NoPredictions(Cfg());
      if !output.options.predict { return; }
      var left := DestinationsOf(profile, i.address);
      var rounds := 3;
      ghost var all := old(output.text) + Predictions(Cfg(), PredictedAt(Cfg(), i.address));
      while rounds > 0 && left != []
        invariant 0 <= rounds <= 3
        invariant output.text + Predictions(Cfg(), TargetsOf(Hottest(left, rounds))) == all
      {
        var m := MaxElement(left);
        PredictionsOne(Cfg(), left, rounds, m);
        var target := left[m].target;
        if target in leaders {
          output.Emit(IfGoto(Bin(Equal, Get(Pc), Hex(target)), target));
        }
        left := Without(left, m);
        rounds := rounds - 1;
      }
      NoneLeft(Cfg(), left, rounds);
    }

    method EmitIndirectExit()
      requires Valid()
      modifies output
      ensures output.text == old(output.text) + IndirectExit(Cfg())
    {
      if output.options.chaining {
        EmitPlain(Set(Index, Bin(Quot, Bin(Minus, Get(Pc), Hex(start)), Dec(4))));
        EmitPlain(Dispatch);
      } else {
        EmitPlain(Continue);
      }
    }

    method EmitLink(i: Instruction)
      requires Valid()
      modifies output, regKnown
      ensures output.text == old(output.text) + LinkStmts(Cfg(), i)
      ensures Tracked() == Forget(old(Tracked()), i.rd)
    {
      hide ToRd, Forget, Configure;
      var d := Destination(i);
      EmitTo(Set(d, Hex(Wrap(i.address + 4))), i);
    }

    method EmitJump(i: Instruction)
      requires Valid() && (i.op == JAL || i.op == JALR)
      modifies output, regKnown
      ensures output.text == old(output.text) + OtherBlock(Cfg(), old(Tracked()), i)
      ensures Tracked() == Forget(old(Tracked()), i.rd)
    {
      hide Configure, Operand, DirectTarget, Predictions, PredictedAt, LinkStmts, IndirectExit, Decimal, Forget, OtherBlock;
      JumpForm(Cfg(), Tracked(), i, output.text);
      if i.op == JAL {
        EmitLink(i);
        EmitPlain(Goto(DirectTarget(i)));
      } else {
        var a := Reg(i, RS1);
        EmitPlain(Set(Pc, Bin(Plus, Decimal(i.imm), a)));
        EmitLink(i);
        EmitPredictions(i);
        EmitIndirectExit();
      }
    }

    method EmitCall()
      requires Valid()
      modifies output, regKnown
      ensures output.text == old(output.text) + (SaveRegisters(Cfg())
        + [Call(if old(Tracked()).known[A7] then Some(old(Tracked()).value[A7]) else None)] + RestoreRegisters(Cfg()))
      ensures Tracked() == Forget(old(Tracked()), A0)
    {
      hide Saves, Restores;
      output.EmitRegisterStore();
      if regKnown[A7] {
        EmitPlain(Call(Some(regValues[A7])));
      } else {
        EmitPlain(Call(None));
      }
      output.EmitRegisterLoad();
      regKnown[A0] := false;
    }

    method EmitUnsupported()
      requires Valid()
      modifies output
      ensures output.text == old(output.text) + (SaveRegisters(Cfg()) + [Print] + RestoreRegisters(Cfg()))
    {
      hide Saves, Restores;
      output.EmitRegisterStore();
      EmitPlain(Print);
      output.EmitRegisterLoad();
    }

    method EmitSystem(i: Instruction)
      requires Valid() && (i.op == ECALL || i.op == INVALID || i.op == EBREAK || i.op == FENCE)
      modifies output, regKnown
      ensures output.text == old(output.text) + OtherBlock(Cfg(), old(Tracked()), i)
      ensures Tracked() == if i.op == ECALL then Forget(old(Tracked()), A0) else old(Tracked())
    {
      hide OtherBlock, Configure, SaveRegisters, RestoreRegisters, Forget;
      SystemForm(Cfg(), Tracked(), i);
      if i.op == ECALL {
        EmitCall();
      } else if i.op == INVALID {
        EmitUnsupported();
      }
    }

    method EmitUpper(i: Instruction)
      requires Valid() && (i.op == LUI || i.op == AUIPC || i.op == LR_W || i.op == SC_W)
      modifies output, regKnown
      ensures output.text == old(output.text) + OtherBlock(Cfg(), old(Tracked()), i)
      ensures Tracked() == Forget(old(Tracked()), i.rd)
    {
      hide OtherBlock, Configure, Operand, ToRd, Decimal, HexSigned, Shift12, Forget;
      UpperForm(Cfg(), Tracked(), i);
      var d := Destination(i);
      var a := Reg(i, RS1);
      var b := Reg(i, RS2);
      var s := Set(d, Dec(0));
      if i.op == LUI {
        s := Set(d, Decimal(Shift12(i.imm)));
      } else if i.op == AUIPC {
        s := Set(d, Bin(Plus, Hex(i.address), HexSigned(Shift12(i.imm))));
      } else if i.op == LR_W {
        s := Set(d, Read(4, false, a));
      } else {
        EmitPlain(WriteMem(4, a, b));
      }
      EmitTo(s, i);
    }

    method EmitOther(i: Instruction)
      requires Valid() && ClassOf(i.op) == Other
      modifies output, regKnown
      ensures output.text == old(output.text) + OtherBlock(Cfg(), old(Tracked()), i)
      ensures Tracked() == After(old(Tracked()), i)
    {
      hide ClassOf, OtherBlock, Configure, Forget;
      OtherClass(i.op);
      if i.op == JAL || i.op == JALR {
        EmitJump(i);
      } else if i.op == ECALL || i.op == INVALID || i.op == EBREAK || i.op == FENCE {
        EmitSystem(i);
      } else {
        EmitUpper(i);
      }
    }

    method EmitBody(i: Instruction)
      requires Valid()
      modifies output, regKnown, regValues
      ensures output.text == old(output.text) + Block(Cfg(), old(Tracked()), i)
      ensures Tracked() == After(old(Tracked()), i)
    {
      hide ClassOf, OtherBlock, Configure, Forget, ComputeStmt, ComputeImmediateStmt, AddressStmt, LoadExpr, Operand, BranchTest,
        DirectTarget, AccessSize, ToRd, After;
      AfterByClass(Tracked(), i);
      match ClassOf(i.op) {
        case Computing => EmitComputing(i);
        case ComputingImmediate => EmitImmediate(i);
        case Loading => EmitLoad(i);
        case Storing => EmitStore(i);
        case Branching => EmitBranch(i);
        case Other => EmitOther(i);
      }
    }

    /** The label, where tracking starts over, and the statements of one instruction. */
    method EmitInstruction(i: Instruction)
      requires Valid()
      modifies output, regKnown, regValues
      ensures output.text == old(output.text) + Labelled(Cfg(), old(Tracked()), i)
      ensures Tracked() == After(Entry(Cfg(), old(Tracked()), i), i)
    {
      hide Block, After, Forget, Learn;
      if i.address in leaders {
        EmitPlain(Label(i.address));
        ResetTracked();
      }
      EmitBody(i);
    }
  }

  // ---- about the specification ----

  lemma OperationForm(cfg: Config, t: Tracking, i: Instruction)
    requires IsArithmetic(i.op)
    ensures IsRegisterOp(i.op) && ComputeStmt(cfg, t, i) == OpStmt(cfg, t, i, OperatorOf(i.op), i.op == SUB)
  {
    hide OpStmt;
  }

  lemma SystemForm(cfg: Config, t: Tracking, i: Instruction)
    ensures i.op == ECALL ==>
      OtherBlock(cfg, t, i) == SaveRegisters(cfg) + [Call(if t.known[A7] then Some(t.value[A7]) else None)] + RestoreRegisters(cfg)
    ensures i.op == INVALID ==> OtherBlock(cfg, t, i) == SaveRegisters(cfg) + [Print] + RestoreRegisters(cfg)
    ensures i.op == EBREAK || i.op == FENCE ==> OtherBlock(cfg, t, i) == []
  {
    hide SaveRegisters, RestoreRegisters, Operand;
  }

  lemma JumpForm(cfg: Config, t: Tracking, i: Instruction, text: seq<Stmt>)
    ensures i.op == JAL ==> text + OtherBlock(cfg, t, i) == text + LinkStmts(cfg, i) + [Goto(DirectTarget(i))]
    ensures i.op == JALR ==>
      text + OtherBlock(cfg, t, i) == text + [Set(Pc, Bin(Plus, Decimal(i.imm), Operand(cfg, t, i.rs1)))] + LinkStmts(cfg, i)
        + Predictions(cfg, PredictedAt(cfg, i.address)) + IndirectExit(cfg)
  {
    hide Operand, DirectTarget, Predictions, PredictedAt, LinkStmts, IndirectExit, Decimal;
  }

  lemma UpperForm(cfg: Config, t: Tracking, i: Instruction)
    ensures var d, a, b := cfg.Holder(i.rd), Operand(cfg, t, i.rs1), Operand(cfg, t, i.rs2);
      && (i.op == LUI ==> OtherBlock(cfg, t, i) == ToRd(i, Set(d, Decimal(Shift12(i.imm)))))
      && (i.op == AUIPC ==> OtherBlock(cfg, t, i) == ToRd(i, Set(d, Bin(Plus, Hex(i.address), HexSigned(Shift12(i.imm))))))
      && (i.op == LR_W ==> OtherBlock(cfg, t, i) == ToRd(i, Set(d, Read(4, false, a))))
      && (i.op == SC_W ==> OtherBlock(cfg, t, i) == [WriteMem(4, a, b)] + ToRd(i, Set(d, Dec(0))))
  {
    hide Operand, ToRd, Decimal, HexSigned, Shift12;
  }

  lemma ImmediateClass(op: Op)
    ensures IsImmediateOp(op) ==> !IsStore(op) && !IsBranch(op) && op !in {EBREAK, FENCE, INVALID, ECALL}
  {
  }

  lemma LearnsAnyway(t: Tracking, r: Register, v: Word)
    ensures Learn(Forget(t, r), r, v) == Learn(t, r, v)
  {
  }

  lemma AfterByClass(t: Tracking, i: Instruction)
    ensures ClassOf(i.op) == Computing || ClassOf(i.op) == Loading ==> After(t, i) == Forget(t, i.rd)
    ensures ClassOf(i.op) == Storing || ClassOf(i.op) == Branching ==> After(t, i) == t
  {
  }

  lemma NoPredictions(cfg: Config)
    ensures Predictions(cfg, []) == []
  {
  }

  lemma NoneLeft(cfg: Config, left: seq<Destination>, rounds: nat)
    requires rounds == 0 || left == []
    ensures Predictions(cfg, TargetsOf(Hottest(left, rounds))) == []
  {
  }

  lemma FirstMaxUnique(ds: seq<Destination>, m: nat)
    requires ds != [] && IsFirstMax(ds, m)
    ensures m == FirstMax(ds)
  {
  }

  lemma PredictionsOne(cfg: Config, left: seq<Destination>, rounds: nat, m: nat)
    requires left != [] && rounds > 0 && IsFirstMax(left, m)
    ensures var a := left[m].target;
      Predictions(cfg, TargetsOf(Hottest(left, rounds))) ==
      (if a in cfg.leaders then [IfGoto(Bin(Equal, Get(Pc), Hex(a)), a)] else [])
      + Predictions(cfg, TargetsOf(Hottest(Without(left, m), rounds - 1)))
  {
    hide FirstMax, Without;
    FirstMaxUnique(left, m);
    var rest := Hottest(Without(left, m), rounds - 1);
    assert TargetsOf([left[m]] + rest)[1..] == TargetsOf(rest);
  }
}
