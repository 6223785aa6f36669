/** The predecoded instruction cache and runs from it: on programs that leave
    their text alone, running from the cache is fetching and decoding at every step. */
module Predecode {
  import opened Words
  import opened Isa
  import opened Machine
  import opened Interpreter

  /** One contiguous executable section. */
  datatype Text = Text(start: Word, words: seq<Word>) {
    predicate Placed() { start + 4 * |words| <= MEMORY_SIZE }

    function End(): int { start + 4 * |words| }

    predicate At(pc: Word) { start <= pc < End() && (pc - start) % 4 == 0 }

    /** Memory holds the section. */
    ghost predicate In(m: Mem)
      requires Placed()
    {
      forall k :: 0 <= k < |words| ==> Load(m, start + 4 * k, 4) == words[k]
    }

    ghost predicate Same(m: Mem, m': Mem)
      requires Placed()
    {
      forall a :: start <= a < End() ==> m[a] == m'[a]
    }
  }

  /** Table index of an address, in 32-bit arithmetic. */
  function Slot(start: Word, pc: Word): nat { Wrap(pc - start) / 4 }

  lemma SlotOfWord(t: Text, pc: Word)
    requires t.Placed() && t.At(pc)
    ensures 0 <= Slot(t.start, pc) < |t.words| && pc == t.start + 4 * Slot(t.start, pc)
  {
  }

  // ---- filling the table ----

  /** ElfBinary::decodeToContainer on one section, with its running address. */
  method DecodeSection(t: Text) returns (listing: seq<Instruction>)
    requires t.Placed()
    ensures listing == Listing(t)
  {
    hide Decode;
    listing := [];
    var address: Word := t.start;
    for n := 0 to |t.words|
      invariant address == t.start + 4 * n
      invariant listing == seq(n, k requires 0 <= k < n => Decode(t.words[k], t.start + 4 * k))
    {
      var instruction := DecodeByTables(t.words[n], address);
      listing := listing + [instruction];
      address := Wrap(address + 4);
    }
  }

  /** The table starts out INVALID everywhere; every listed instruction lands in its own slot. */
  method FillTable(start: Word, count: nat, listing: seq<Instruction>) returns (table: seq<Instruction>)
    requires forall m :: 0 <= m < |listing| ==> Slot(start, listing[m].address) < count
    requires forall m, n :: 0 <= m < n < |listing| ==> Slot(start, listing[m].address) != Slot(start, listing[n].address)
    ensures |table| == count
    ensures forall m :: 0 <= m < |listing| ==> table[Slot(start, listing[m].address)] == listing[m]
    ensures forall k :: 0 <= k < count && (forall m :: 0 <= m < |listing| ==> Slot(start, listing[m].address) != k)
              ==> table[k].op == INVALID
  {
    hide Slot;
    table := seq(count, _ => Undecoded(0));
    for n := 0 to |listing|
      invariant |table| == count
      invariant forall m :: 0 <= m < n ==> table[Slot(start, listing[m].address)] == listing[m]
      invariant forall k :: 0 <= k < count && (forall m :: 0 <= m < n ==> Slot(start, listing[m].address) != k)
                  ==> table[k].op == INVALID
    {
      table := table[Slot(start, listing[n].address) := listing[n]];
    }
  }

  /** main(): listing and table of one section; slot k holds word k, decoded. */
  method BuildTable(t: Text) returns (table: seq<Instruction>)
    requires t.Placed()
    ensures Caches(t, table)
  {
    hide Decode;
    var listing := DecodeSection(t);
    forall m | 0 <= m < |listing|
      ensures Slot(t.start, listing[m].address) == m
    {
      DecodeKeepsAddress(t.words[m], t.start + 4 * m);
    }
    table := FillTable(t.start, |t.words|, listing);
    forall m | 0 <= m < |t.words|
      ensures table[m] == Decode(t.words[m], t.start + 4 * m)
    {
      assert Slot(t.start, listing[m].address) == m;
    }
  }

  lemma DecodeKeepsAddress(w: Word, address: Word)
    ensures Decode(w, address).address == address
  {
    hide Kind;
  }

  /** The decoded words of a section, in order. */
  function Listing(t: Text): seq<Instruction>
    requires t.Placed()
  {
    seq(|t.words|, k requires 0 <= k < |t.words| => Decode(t.words[k], t.start + 4 * k))
  }

  predicate Caches(t: Text, table: seq<Instruction>)
    requires t.Placed()
  {
    |table| == |t.words| && forall k :: 0 <= k < |table| ==> table[k] == Decode(t.words[k], t.start + 4 * k)
  }

  // ---- steps and runs ----

  /** Fetch the word at pc, decode it and execute it. */
  function RawStep(s: State, host: Host): Outcome<State> {
    if InBounds(s.pc, 4) then Exec(Decode(Load(s.mem, s.pc, 4), s.pc), s, host) else Fault
  }

  /** Execute the table entry for pc; indexing past the table is undefined. */
  function CachedStep(table: seq<Instruction>, start: Word, s: State, host: Host): Outcome<State> {
    if Slot(start, s.pc) < |table| then Exec(table[Slot(start, s.pc)], s, host) else Fault
  }

  function RawRun(s: State, host: Host, n: nat): Outcome<State> {
    if n == 0 then Next(s)
    else match RawRun(s, host, n - 1) { case Next(t) => RawStep(t, host) case stopped => stopped }
  }

  function CachedRun(table: seq<Instruction>, start: Word, s: State, host: Host, n: nat): Outcome<State> {
    if n == 0 then Next(s)
    else match CachedRun(table, start, s, host, n - 1) {
      case Next(t) => CachedStep(table, start, t, host)
      case stopped => stopped
    }
  }

  // ---- what leaves the text alone ----

  /** Neither a store of this instruction nor the call it makes reaches into the text. */
  ghost predicate Spares(t: Text, i: Instruction, s: State, host: Host)
    requires t.Placed()
  {
    StoreSpares(t, i, s) && (i.op == ECALL ==> CallSpares(t, s, host))
  }

  predicate StoreSpares(t: Text, i: Instruction, s: State) {
    var a := s.regs[i.rs1];
    && (IsStore(i.op) ==> Misses(t, Wrap(a + i.imm), AccessSize(i.op)))
    && (i.op == SC_W ==> Misses(t, a, 4))
  }

  ghost predicate CallSpares(t: Text, s: State, host: Host)
    requires t.Placed()
  {
    match host(s.regs[A7], s.regs, s.mem, s.world)
    case Return(a0, mem, world) => t.Same(s.mem, mem)
    case Exit(world) => true
  }

  predicate Misses(t: Text, a: Word, n: int) { a + n <= t.start || t.End() <= a }

  lemma StoreMisses(t: Text, s: State, a: Word, n: int, v: Word)
    requires t.Placed() && n in {1, 2, 4} && Misses(t, a, n)
    ensures WriteTo(s, a, n, v).Next? ==> t.Same(s.mem, WriteTo(s, a, n, v).state.mem)
  {
  }

  lemma EffectKeepsText(t: Text, i: Instruction, s: State, host: Host)
    requires t.Placed() && Spares(t, i, s, host)
    requires Effect(i, s, host).Next?
    ensures t.Same(s.mem, Effect(i, s, host).state.mem)
  {
    hide Effect, ClassOf, Alu, RegisterForm, Load, Loaded, WriteTo, AccessSize, Taken, Wrap, Misses;
    OtherClass(i.op);
    var a, b := s.regs[i.rs1], s.regs[i.rs2];
    if ClassOf(i.op) == Other {
      OtherKeepsText(t, i, s, host);
    } else {
      EffectByClass(i, s, host);
      if ClassOf(i.op) == Storing {
        StoreMisses(t, s, Wrap(a + i.imm), AccessSize(i.op), b);
      }
    }
  }

  lemma OtherKeepsText(t: Text, i: Instruction, s: State, host: Host)
    requires t.Placed() && Spares(t, i, s, host)
    requires ClassOf(i.op) == Other && Effect(i, s, host).Next?
    ensures t.Same(s.mem, Effect(i, s, host).state.mem)
  {
    hide Effect, ClassOf, Load, Loaded, WriteTo, AccessSize, Wrap, Misses;
    OtherClass(i.op);
    EffectOfUpper(i, s, host);
    EffectOfSystem(i, s, host);
    if i.op == JAL {
      EffectOfJal(i, s, host);
    } else if i.op == JALR {
      EffectOfJalr(i, s, host);
    } else if i.op == SC_W {
      StoreMisses(t, s, s.regs[i.rs1], 4, s.regs[i.rs2]);
    }
  }

  lemma StepKeepsText(t: Text, i: Instruction, s: State, host: Host)
    requires t.Placed() && t.In(s.mem) && Spares(t, i, s, host)
    requires Exec(i, s, host).Next?
    ensures t.In(Exec(i, s, host).state.mem)
  {
    hide Effect, Spares, Wrap;
    EffectKeepsText(t, i, s, host);
  }

  // ---- coherence ----

  ghost predicate StepStays(t: Text, u: State, host: Host)
    requires t.Placed()
  {
    t.At(u.pc) && Spares(t, Decode(Load(u.mem, u.pc, 4), u.pc), u, host)
  }

  /** The run never leaves the text and never writes it. */
  ghost predicate StaysInText(t: Text, s: State, host: Host, n: nat)
    requires t.Placed()
  {
    forall k :: 0 <= k < n && RawRun(s, host, k).Next? ==> StepStays(t, RawRun(s, host, k).state, host)
  }

  lemma OneCachedStep(t: Text, table: seq<Instruction>, s: State, host: Host)
    requires t.Placed() && Caches(t, table) && t.In(s.mem) && t.At(s.pc)
    ensures table[Slot(t.start, s.pc)] == Decode(Load(s.mem, s.pc, 4), s.pc)
    ensures CachedStep(table, t.start, s, host) == RawStep(s, host)
  {
    hide Decode, Exec, Load, Slot;
    SlotOfWord(t, s.pc);
  }

  /** For every n, n steps from the cache reach the state of n raw fetch-decode steps. */
  lemma {:induction false} CacheCoherence(t: Text, table: seq<Instruction>, s: State, host: Host, n: nat)
    requires t.Placed() && Caches(t, table) && t.In(s.mem)
    requires StaysInText(t, s, host, n)
    ensures CachedRun(table, t.start, s, host, n) == RawRun(s, host, n)
    ensures RawRun(s, host, n).Next? ==> t.In(RawRun(s, host, n).state.mem)
  {
    hide CachedStep, Exec, Decode, Load, Caches, Spares;
    if n == 0 {
    } else {
      CacheCoherence(t, table, s, host, n - 1);
      if RawRun(s, host, n - 1).Next? {
        var u := RawRun(s, host, n - 1).state;
        OneCachedStep(t, table, u, host);
        if RawStep(u, host).Next? {
          StepKeepsText(t, Decode(Load(u.mem, u.pc, 4), u.pc), u, host);
        }
      }
    }
  }
}
