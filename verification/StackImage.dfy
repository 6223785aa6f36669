/** The initial stack of a guest: argc, argv, envp and the auxiliary vector, written below the
    strings they point to, and read back by the system calls. */
module StackImage {
  import opened Words
  import opened Machine
  import opened Cpp

  const AT_NULL: Word := 0
  const AT_PAGESZ: Word := 6

  /** A C string without its terminating zero. */
  type CString = s: seq<Byte> | forall k :: 0 <= k < |s| ==> s[k] != 0 witness []

  /** Room for the strings, each with its zero. */
  function Room(ss: seq<CString>): nat { if ss == [] then 0 else Room(ss[..|ss| - 1]) + |ss[|ss| - 1]| + 1 }

  /** The arguments the guest sees: the emulator hides the second one. */
  function Visible(argv: seq<CString>, skip: bool): seq<CString> {
    if skip && |argv| >= 2 then [argv[0]] + argv[2..] else argv
  }

  /** argc, both pointer arrays with their null ends, and two pairs of the auxiliary vector. */
  function ArgsSize(args: nat, envs: nat): nat { 4 * args + 4 * envs + 28 }

  predicate Fits(argv: seq<CString>, envp: seq<CString>, skip: bool) {
    var args := Visible(argv, skip);
    (skip ==> |argv| >= 2) && ArgsSize(|args|, |envp|) + Room(args) + Room(envp) <= DATA_SIZE
  }

  /** Hiding leaves the first argument and moves those behind the second one place forward. */
  lemma VisibleHides(argv: seq<CString>, k: nat)
    requires |argv| >= 2 && k < |argv| - 1
    ensures |Visible(argv, true)| == |argv| - 1 && Visible(argv, true)[k] == argv[if k == 0 then 0 else k + 1]
  {
  }

  // ---- the host's auxiliary vector ----

  type Wide = x: int | 0 <= x < 0x1_0000_0000_0000_0000

  /** A pair of 64-bit words, as the host passes them. */
  datatype Pair = Pair(tag: Wide, value: Wide)

  ghost predicate Ended(vector: seq<Pair>) { exists k :: 0 <= k < |vector| && vector[k].tag == 0 }

  /** The value of the first pair with this tag in front of the first zero tag; 0 if there is none. */
  function HostValue(vector: seq<Pair>, tag: Word): Wide {
    if vector == [] || vector[0].tag == 0 then 0
    else if vector[0].tag == tag then vector[0].value
    else HostValue(vector[1..], tag)
  }

  /** getAuxValue. */
  method GetAuxValue(vector: seq<Pair>, tag: Word) returns (value: Wide)
    requires Ended(vector)
    ensures value == HostValue(vector, tag)
  {
    var i := 0;
    while vector[i].tag != 0
      invariant i < |vector| && Ended(vector[i..]) && HostValue(vector, tag) == HostValue(vector[i..], tag)
      decreases |vector| - i
    {
      if vector[i].tag == tag { return vector[i].value; }
      EndedTail(vector[i..]);
      assert vector[i..][1..] == vector[i + 1..];
      i := i + 1;
    }
    return 0;
  }

  lemma EndedTail(vector: seq<Pair>)
    requires Ended(vector) && vector[0].tag != 0
    ensures Ended(vector[1..]) && |vector| > 1
  {
    var k :| 0 <= k < |vector| && vector[k].tag == 0;
    assert vector[1..][k - 1].tag == 0;
  }

  /** No pair in front of pair k has this tag or ends the vector. */
  ghost predicate NotBefore(vector: seq<Pair>, k: nat, tag: Word)
    requires k <= |vector|
  {
    forall n :: 0 <= n < k ==> vector[n].tag != tag && vector[n].tag != 0
  }

  /** What is found is the value of the first such pair, and nothing is found behind the end. */
  lemma {:induction false} HostValueIsFirst(vector: seq<Pair>, k: nat, tag: Word)
    requires k < |vector| && NotBefore(vector, k, tag)
    ensures vector[k].tag == 0 ==> HostValue(vector, tag) == 0
    ensures vector[k].tag == tag && tag != 0 ==> HostValue(vector, tag) == vector[k].value
  {
    if k > 0 {
      assert vector[0].tag != tag && vector[0].tag != 0;
      HostValueIsFirst(vector[1..], k - 1, tag);
    }
  }

  // ---- memory contents ----

  predicate StringAt(m: Mem, a: int, s: CString) {
    0 <= a && a + |s| < MEMORY_SIZE && m[a..a + |s|] == s && m[a + |s|] == 0
  }

  predicate EntryAt(m: Mem, slot: int, at: int, s: CString) {
    0 <= slot && slot + 4 <= MEMORY_SIZE && Load(m, slot, 4) == at && StringAt(m, at, s)
  }

  function StringPlace(strings: int, ss: seq<CString>, k: nat): int
    requires k <= |ss|
  {
    strings + Room(ss[..k])
  }

  /** Pointers from `slots` on, to the strings laid out from `strings` on. */
  ghost predicate Table(m: Mem, slots: int, strings: int, ss: seq<CString>) {
    forall k :: 0 <= k < |ss| ==> EntryOf(m, slots, strings, ss, k)
  }

  predicate EntryOf(m: Mem, slots: int, strings: int, ss: seq<CString>, k: nat)
    requires k < |ss|
  {
    EntryAt(m, slots + 4 * k, StringPlace(strings, ss, k), ss[k])
  }

  ghost predicate SameBetween(m: Mem, m': Mem, lo: int, hi: int) {
    forall a :: 0 <= a < MEMORY_SIZE && lo <= a < hi ==> m[a] == m'[a]
  }

  lemma {:induction false} RoomGrows(ss: seq<CString>, k: nat)
    requires k < |ss|
    ensures Room(ss[..k]) + |ss[k]| + 1 == Room(ss[..k + 1]) <= Room(ss)
    decreases |ss|
  {
    assert ss[..k + 1][..k] == ss[..k];
    if k + 1 == |ss| {
      assert ss[..k + 1] == ss;
    } else {
      var less := ss[..|ss| - 1];
      assert less[..k + 1] == ss[..k + 1] && less[..k] == ss[..k];
      RoomGrows(less, k);
    }
  }

  lemma LoadSame(m: Mem, m': Mem, a: Word)
    requires a + 4 <= MEMORY_SIZE && SameBetween(m, m', a, a + 4)
    ensures Load(m, a, 4) == Load(m', a, 4)
  {
  }

  lemma StringSame(m: Mem, m': Mem, a: int, s: CString)
    requires StringAt(m, a, s) && SameBetween(m, m', a, a + |s| + 1)
    ensures StringAt(m', a, s)
  {
  }

  lemma EntrySame(m: Mem, m': Mem, slot: int, at: int, s: CString)
    requires EntryAt(m, slot, at, s) && SameBetween(m, m', slot, slot + 4) && SameBetween(m, m', at, at + |s| + 1)
    ensures EntryAt(m', slot, at, s)
  {
    hide Load, StringAt, SameBetween;
    LoadSame(m, m', slot);
    StringSame(m, m', at, s);
  }

  lemma SameNarrower(m: Mem, m': Mem, lo: int, hi: int, lo': int, hi': int)
    requires SameBetween(m, m', lo, hi) && lo <= lo' && hi' <= hi
    ensures SameBetween(m, m', lo', hi')
  {
  }

  lemma EntryOfSame(m: Mem, m': Mem, slots: int, strings: int, ss: seq<CString>, k: nat)
    requires k < |ss| && EntryOf(m, slots, strings, ss, k)
    requires SameBetween(m, m', slots, slots + 4 * |ss|) && SameBetween(m, m', strings, strings + Room(ss))
    ensures EntryOf(m', slots, strings, ss, k)
  {
    hide EntryAt, SameBetween, Room;
    RoomGrows(ss, k);
    var at := StringPlace(strings, ss, k);
    SameNarrower(m, m', slots, slots + 4 * |ss|, slots + 4 * k, slots + 4 * k + 4);
    SameNarrower(m, m', strings, strings + Room(ss), at, at + |ss[k]| + 1);
    EntrySame(m, m', slots + 4 * k, at, ss[k]);
  }

  /** A table stays while its pointers and strings do. */
  lemma TableSame(m: Mem, m': Mem, slots: int, strings: int, ss: seq<CString>)
    requires Table(m, slots, strings, ss)
    requires SameBetween(m, m', slots, slots + 4 * |ss|) && SameBetween(m, m', strings, strings + Room(ss))
    ensures Table(m', slots, strings, ss)
  {
    hide EntryOf, SameBetween, Room;
    forall k | 0 <= k < |ss|
      ensures EntryOf(m', slots, strings, ss, k)
    {
      EntryOfSame(m, m', slots, strings, ss, k);
    }
  }

  lemma EntryOfPrefix(m: Mem, slots: int, strings: int, ss: seq<CString>, s: CString, k: nat)
    requires k < |ss| && EntryOf(m, slots, strings, ss, k)
    ensures EntryOf(m, slots, strings, ss + [s], k)
  {
    hide EntryAt, Room;
    assert (ss + [s])[..k] == ss[..k] && (ss + [s])[k] == ss[k];
  }

  lemma EntryOfLast(m: Mem, slots: int, strings: int, ss: seq<CString>, s: CString)
    requires EntryAt(m, slots + 4 * |ss|, strings + Room(ss), s)
    ensures EntryOf(m, slots, strings, ss + [s], |ss|)
  {
    hide EntryAt, Room;
    assert (ss + [s])[..|ss|] == ss && (ss + [s])[|ss|] == s;
  }

  lemma TableExtends(m: Mem, slots: int, strings: int, ss: seq<CString>, s: CString)
    requires Table(m, slots, strings, ss) && EntryAt(m, slots + 4 * |ss|, strings + Room(ss), s)
    ensures Table(m, slots, strings, ss + [s])
  {
    hide EntryAt, EntryOf, Room;
    EntryOfLast(m, slots, strings, ss, s);
    forall k | 0 <= k < |ss|
      ensures EntryOf(m, slots, strings, ss + [s], k)
    {
      EntryOfPrefix(m, slots, strings, ss, s, k);
    }
  }

  // ---- writing ----

  method WriteWord(data: array<Byte>, a: Word, v: Word)
    requires data.Length == MEMORY_SIZE && InBounds(a, 4)
    modifies data
    ensures Load(data[..], a, 4) == v
    ensures forall b :: 0 <= b < MEMORY_SIZE && !(a <= b < a + 4) ==> data[b] == old(data[b])
  {
    data[a] := v % 0x100;
    data[a + 1] := v / 0x100 % 0x100;
    data[a + 2] := v / 0x1_0000 % 0x100;
    data[a + 3] := v / 0x100_0000;
    FourBytes(v);
  }

  /** memcpy of a string with its zero. */
  method CopyString(data: array<Byte>, a: Word, s: CString)
    requires data.Length == MEMORY_SIZE && a + |s| < MEMORY_SIZE
    modifies data
    ensures StringAt(data[..], a, s)
    ensures forall b :: 0 <= b < MEMORY_SIZE && !(a <= b <= a + |s|) ==> data[b] == old(data[b])
  {
    for k := 0 to |s|
      invariant forall n :: 0 <= n < k ==> data[a + n] == s[n]
      invariant forall b :: 0 <= b < MEMORY_SIZE && !(a <= b < a + k) ==> data[b] == old(data[b])
    {
      data[a + k] := s[k];
    }
    data[a + |s|] := 0;
  }

  /** A pointer and the string it points to. */
  method WriteEntry(data: array<Byte>, slot: Word, at: Word, s: CString)
    requires data.Length == MEMORY_SIZE && slot + 4 <= at && at + |s| < MEMORY_SIZE
    modifies data
    ensures EntryAt(data[..], slot, at, s)
    ensures forall b :: 0 <= b < MEMORY_SIZE && !(slot <= b < slot + 4) && !(at <= b <= at + |s|) ==> data[b] == old(data[b])
  {
    hide Load;
    WriteWord(data, slot, at);
    ghost var m := data[..];
    CopyString(data, at, s);
    LoadSame(m, data[..], slot);
  }

  /** The state of a table while it is written. */
  ghost predicate Written(m0: Mem, m: Mem, slots: int, strings: int, ss: seq<CString>) {
    && Table(m, slots, strings, ss)
    && SameBetween(m0, m, 0, slots) && SameBetween(m0, m, slots + 4 * |ss|, strings)
    && SameBetween(m0, m, strings + Room(ss), MEMORY_SIZE)
  }

  lemma NothingWritten(m: Mem, slots: int, strings: int)
    ensures Written(m, m, slots, strings, [])
  {
  }

  lemma OneMoreWritten(m0: Mem, m: Mem, m': Mem, slots: int, strings: int, ss: seq<CString>, s: CString)
    requires Written(m0, m, slots, strings, ss) && 0 <= slots && slots + 4 * |ss| + 4 <= strings
    requires EntryAt(m', slots + 4 * |ss|, strings + Room(ss), s)
    requires SameBetween(m, m', 0, slots + 4 * |ss|) && SameBetween(m, m', slots + 4 * |ss| + 4, strings + Room(ss))
    requires SameBetween(m, m', strings + Room(ss) + |s| + 1, MEMORY_SIZE)
    ensures Written(m0, m', slots, strings, ss + [s]) && Room(ss + [s]) == Room(ss) + |s| + 1
  {
    hide EntryAt, Table, SameBetween;
    assert (ss + [s])[..|ss|] == ss;
    SameNarrower(m, m', 0, slots + 4 * |ss|, slots, slots + 4 * |ss|);
    SameNarrower(m, m', slots + 4 * |ss| + 4, strings + Room(ss), strings, strings + Room(ss));
    TableSame(m, m', slots, strings, ss);
    TableExtends(m', slots, strings, ss, s);
    SameChain(m0, m, m', 0, slots, 0, slots + 4 * |ss|);
    SameChain(m0, m, m', slots + 4 * |ss|, strings, slots + 4 * |ss| + 4, strings + Room(ss));
    SameChain(m0, m, m', strings + Room(ss), MEMORY_SIZE, strings + Room(ss) + |s| + 1, MEMORY_SIZE);
  }

  lemma SameChain(a: Mem, b: Mem, c: Mem, lo: int, hi: int, lo': int, hi': int)
    requires SameBetween(a, b, lo, hi) && SameBetween(b, c, lo', hi')
    ensures SameBetween(a, c, if lo > lo' then lo else lo', if hi < hi' then hi else hi')
  {
  }

  // ---- loadAux ----

  lemma VisibleStep(argv: seq<CString>, skip: bool, k: nat)
    requires k < |argv|
    ensures Visible(argv[..k + 1], skip) ==
      if skip && k == 1 then Visible(argv[..k], skip) else Visible(argv[..k], skip) + [argv[k]]
  {
    assert argv[..k + 1] == argv[..k] + [argv[k]];
  }

  lemma VisiblePrefix(argv: seq<CString>, skip: bool, k: nat)
    requires k <= |argv|
    ensures Visible(argv[..k], skip) <= Visible(argv, skip)
  {
    assert argv[..k] <= argv;
  }

  lemma RoomAppend(ss: seq<CString>, s: CString)
    ensures Room(ss + [s]) == Room(ss) + |s| + 1
  {
    assert (ss + [s])[..|ss|] == ss;
  }

  lemma {:induction false} RoomPrefix(ss: seq<CString>, more: seq<CString>)
    requires ss <= more
    ensures Room(ss) <= Room(more)
    decreases |more|
  {
    if ss == more {
    } else {
      RoomPrefix(ss, more[..|more| - 1]);
    }
  }

  /** The first loops: how much room the strings need. */
  method StringsRoom(argv: seq<CString>, skip: bool) returns (size: nat)
    ensures size == Room(Visible(argv, skip))
  {
    hide Visible, Room;
    NoStrings(skip);
    size := 0;
    assert argv[..0] == [];
    for k := 0 to |argv|
      invariant size == Room(Visible(argv[..k], skip))
    {
      VisibleStep(argv, skip, k);
      RoomAppend(Visible(argv[..k], skip), argv[k]);
      if k == 1 && skip { continue; }
      size := size + |argv[k]| + 1;
    }
    assert argv[..|argv|] == argv;
  }

  lemma NoStrings(skip: bool)
    ensures Visible([], skip) == [] && Room([]) == 0
  {
  }

  /** The second loops: a pointer and a string for every visible entry. */
  method WriteStrings(data: array<Byte>, argv: seq<CString>, skip: bool, slots: Word, strings: Word) returns (dataPtr: Word, strPtr: Word)
    requires data.Length == MEMORY_SIZE
    requires slots + 4 * |Visible(argv, skip)| <= strings && strings + Room(Visible(argv, skip)) <= DATA_SIZE
    modifies data
    ensures Written(old(data[..]), data[..], slots, strings, Visible(argv, skip))
    ensures dataPtr == slots + 4 * |Visible(argv, skip)| && strPtr == strings + Room(Visible(argv, skip))
  {
    hide Visible, Room, Written, EntryAt;
    NoStrings(skip);
    NothingWritten(data[..], slots, strings);
    dataPtr, strPtr := slots, strings;
    assert argv[..0] == [];
    for k := 0 to |argv|
      invariant Written(old(data[..]), data[..], slots, strings, Visible(argv[..k], skip))
      invariant dataPtr == slots + 4 * |Visible(argv[..k], skip)| && strPtr == strings + Room(Visible(argv[..k], skip))
    {
      VisibleStep(argv, skip, k);
      if k == 1 && skip { continue; }
      ghost var ss, m := Visible(argv[..k], skip), data[..];
      RoomAppend(ss, argv[k]);
      VisiblePrefix(argv, skip, k + 1);
      RoomPrefix(ss + [argv[k]], Visible(argv, skip));
      WriteEntry(data, dataPtr, strPtr, argv[k]);
      OneMoreWritten(old(data[..]), m, data[..], slots, strings, ss, argv[k]);
      dataPtr := dataPtr + 4;
      strPtr := strPtr + |argv[k]| + 1;
    }
    assert argv[..|argv|] == argv;
  }

  method WriteAuxValue(data: array<Byte>, kind: Word, value: Word, a: Word) returns (written: nat)
    requires data.Length == MEMORY_SIZE && InBounds(a, 8)
    modifies data
    ensures written == 8 && Load(data[..], a, 4) == kind && Load(data[..], a + 4, 4) == value
    ensures forall b :: 0 <= b < MEMORY_SIZE && !(a <= b < a + 8) ==> data[b] == old(data[b])
  {
    hide Load;
    WriteWord(data, a, kind);
    ghost var m := data[..];
    WriteWord(data, a + 4, value);
    LoadSame(m, data[..], a);
    written := 8;
  }

  // ---- the whole image ----

  function Slots(sp: int): int { sp + 4 }
  function EnvSlots(sp: int, args: nat): int { Slots(sp) + 4 * args + 4 }
  function AuxAt(sp: int, args: nat, envs: nat): int { EnvSlots(sp, args) + 4 * envs + 4 }
  function StringsAt(sp: int, args: nat, envs: nat): int { sp + ArgsSize(args, envs) }

  predicate WordIs(m: Mem, a: int, v: Word) { 0 <= a && a + 4 <= MEMORY_SIZE && Load(m, a, 4) == v }

  ghost predicate AuxWritten(m: Mem, a: int, page: Word) {
    WordIs(m, a, AT_PAGESZ) && WordIs(m, a + 4, page) && WordIs(m, a + 8, AT_NULL) && WordIs(m, a + 12, 0)
  }

  /** The stack after loadAux.  Everything written is in [sp, DATA_SIZE); the null ends of the two
      arrays are not written at all. */
  ghost predicate Laid(m0: Mem, m: Mem, sp: int, args: seq<CString>, envp: seq<CString>, page: Word) {
    var envs, aux, strings := EnvSlots(sp, |args|), AuxAt(sp, |args|, |envp|), StringsAt(sp, |args|, |envp|);
    && 0 <= sp && sp % 2 == 0 && DATA_SIZE - 1 <= strings + Room(args) + Room(envp) <= DATA_SIZE
    && aux + 16 == strings
    && WordIs(m, sp, |args|)
    && Table(m, Slots(sp), strings, args)
    && Table(m, envs, strings + Room(args), envp)
    && AuxWritten(m, aux, page)
    && SameBetween(m0, m, 0, sp) && SameBetween(m0, m, DATA_SIZE, MEMORY_SIZE)
    && SameBetween(m0, m, envs - 4, envs) && SameBetween(m0, m, aux - 4, aux)
  }

  lemma WordSame(m: Mem, m': Mem, a: int, v: Word)
    requires WordIs(m, a, v) && SameBetween(m, m', a, a + 4)
    ensures WordIs(m', a, v)
  {
    hide Load, SameBetween;
    LoadSame(m, m', a);
  }

  /** After argc (m1), argv (m2), envp (m3) and the auxiliary vector (m4). */
  lemma StagesLay(m0: Mem, m1: Mem, m2: Mem, m3: Mem, m4: Mem, sp: int, args: seq<CString>, envp: seq<CString>, page: Word)
    requires 0 <= sp && sp % 2 == 0
    requires DATA_SIZE - 1 <= StringsAt(sp, |args|, |envp|) + Room(args) + Room(envp) <= DATA_SIZE
    requires WordIs(m1, sp, |args|) && SameBetween(m0, m1, 0, sp) && SameBetween(m0, m1, sp + 4, MEMORY_SIZE)
    requires var strings := StringsAt(sp, |args|, |envp|);
      Written(m1, m2, Slots(sp), strings, args) && Written(m2, m3, EnvSlots(sp, |args|), strings + Room(args), envp)
    requires var aux := AuxAt(sp, |args|, |envp|);
      AuxWritten(m4, aux, page) && SameBetween(m3, m4, 0, aux) && SameBetween(m3, m4, aux + 16, MEMORY_SIZE)
    ensures Laid(m0, m4, sp, args, envp, page)
  {
    hide Table, WordIs, AuxWritten, Room, SameBetween;
    ArgsStay(m1, m2, m3, m4, sp, args, envp);
    EnvsStay(m2, m3, m4, sp, args, envp);
    FrameStays(m0, m1, m2, m3, m4, sp, args, envp);
    SameNarrower(m1, m4, 0, Slots(sp), sp, sp + 4);
    WordSame(m1, m4, sp, |args|);
  }

  lemma FrameStays(m0: Mem, m1: Mem, m2: Mem, m3: Mem, m4: Mem, sp: int, args: seq<CString>, envp: seq<CString>)
    requires 0 <= sp && StringsAt(sp, |args|, |envp|) + Room(args) + Room(envp) <= DATA_SIZE
    requires SameBetween(m0, m1, 0, sp) && SameBetween(m0, m1, sp + 4, MEMORY_SIZE)
    requires var strings := StringsAt(sp, |args|, |envp|);
      Written(m1, m2, Slots(sp), strings, args) && Written(m2, m3, EnvSlots(sp, |args|), strings + Room(args), envp)
    requires var aux := AuxAt(sp, |args|, |envp|); SameBetween(m3, m4, 0, aux) && SameBetween(m3, m4, aux + 16, MEMORY_SIZE)
    ensures SameBetween(m0, m4, 0, sp) && SameBetween(m0, m4, DATA_SIZE, MEMORY_SIZE) && SameBetween(m1, m4, 0, Slots(sp))
    ensures var envs, aux := EnvSlots(sp, |args|), AuxAt(sp, |args|, |envp|);
      SameBetween(m0, m4, envs - 4, envs) && SameBetween(m0, m4, aux - 4, aux)
  {
    hide Table, Room;
  }

  lemma ArgsStay(m1: Mem, m2: Mem, m3: Mem, m4: Mem, sp: int, args: seq<CString>, envp: seq<CString>)
    requires var strings := StringsAt(sp, |args|, |envp|);
      Written(m1, m2, Slots(sp), strings, args) && Written(m2, m3, EnvSlots(sp, |args|), strings + Room(args), envp)
    requires var aux := AuxAt(sp, |args|, |envp|); SameBetween(m3, m4, 0, aux) && SameBetween(m3, m4, aux + 16, MEMORY_SIZE)
    ensures Table(m4, Slots(sp), StringsAt(sp, |args|, |envp|), args)
  {
    hide Table, Room;
    TableSame(m2, m3, Slots(sp), StringsAt(sp, |args|, |envp|), args);
    TableSame(m3, m4, Slots(sp), StringsAt(sp, |args|, |envp|), args);
  }

  lemma EnvsStay(m2: Mem, m3: Mem, m4: Mem, sp: int, args: seq<CString>, envp: seq<CString>)
    requires Written(m2, m3, EnvSlots(sp, |args|), StringsAt(sp, |args|, |envp|) + Room(args), envp)
    requires var aux := AuxAt(sp, |args|, |envp|); SameBetween(m3, m4, 0, aux) && SameBetween(m3, m4, aux + 16, MEMORY_SIZE)
    ensures Table(m4, EnvSlots(sp, |args|), StringsAt(sp, |args|, |envp|) + Room(args), envp)
  {
    hide Table, Room;
    TableSame(m3, m4, EnvSlots(sp, |args|), StringsAt(sp, |args|, |envp|) + Room(args), envp);
  }

  /** The first half: how large everything is, and where the stack starts. */
  method Measure(argv: seq<CString>, envp: seq<CString>, skip: bool) returns (argc: Word, argsSize: nat, sp: Word)
    requires Fits(argv, envp, skip)
    ensures var args := Visible(argv, skip);
      && argc == |args| && argsSize == ArgsSize(|args|, |envp|) && sp % 2 == 0
      && DATA_SIZE - 1 <= sp + argsSize + Room(args) + Room(envp) <= DATA_SIZE
  {
    hide Visible, Room;
    VisibleCounts(argv, skip);
    VisibleAll(envp);
    argc := |argv| - if skip then 1 else 0;
    argsSize := 2 * 4 + argc * 4;
    var strSize := StringsRoom(argv, skip);
    var envSize := StringsRoom(envp, false);
    strSize := strSize + envSize;
    argsSize := argsSize + |envp| * 4 + 4 + 8 + 8;
    sp := DATA_SIZE - argsSize - strSize;
    sp := sp - sp % 2;
  }

  /** Memory::loadAux.  `vector` is what the host has behind its environment pointers. */
  method LoadAux(data: array<Byte>, argv: seq<CString>, envp: seq<CString>, vector: seq<Pair>, skipSecondArg: bool)
    returns (sp: Word, pageSize: Wide)
    requires data.Length == MEMORY_SIZE && Fits(argv, envp, skipSecondArg) && Ended(vector)
    modifies data
    ensures pageSize == HostValue(vector, 6)
    ensures Laid(old(data[..]), data[..], sp, Visible(argv, skipSecondArg), envp, Wrap(pageSize))
  {
    hide Visible, Room, Table, Laid, WordIs, SameBetween, Written, AuxWritten;
    var argc, argsSize;
    argc, argsSize, sp := Measure(argv, envp, skipSecondArg);
    VisibleAll(envp);
    ghost var m0 := data[..];
    WriteCount(data, sp, argc);
    ghost var m1 := data[..];
    var dataPtr, strPtr := WriteStrings(data, argv, skipSecondArg, sp + 4, sp + argsSize);
    ghost var m2 := data[..];
    dataPtr, strPtr := WriteStrings(data, envp, false, dataPtr + 4, strPtr);
    ghost var m3 := data[..];
    pageSize := WriteAuxVector(data, dataPtr + 4, vector);
    StagesLay(m0, m1, m2, m3, data[..], sp, Visible(argv, skipSecondArg), envp, Wrap(pageSize));
  }

  method WriteCount(data: array<Byte>, a: Word, v: Word)
    requires data.Length == MEMORY_SIZE && InBounds(a, 4)
    modifies data
    ensures WordIs(data[..], a, v)
    ensures SameBetween(old(data[..]), data[..], 0, a) && SameBetween(old(data[..]), data[..], a + 4, MEMORY_SIZE)
  {
    hide Load;
    WriteWord(data, a, v);
  }

  lemma VisibleCounts(argv: seq<CString>, skip: bool)
    ensures |Visible(argv, skip)| == |argv| - (if skip then 1 else 0) <==> (skip ==> |argv| >= 2)
  {
  }

  /** The auxiliary vector ends in front of the strings if and only if there is a second argument to
      hide: with less, one pointer more is written than room was made for, and the last words of the
      vector are written over the first string. */
  lemma VectorEndsExactly(argv: seq<CString>, envp: seq<CString>, skip: bool, sp: int)
    ensures var counted := |argv| - if skip then 1 else 0;
      AuxAt(sp, |Visible(argv, skip)|, |envp|) + 16 <= sp + 4 * counted + 4 * |envp| + 28 <==> (skip ==> |argv| >= 2)
  {
    VisibleCounts(argv, skip);
  }

  lemma VisibleAll(envp: seq<CString>)
    ensures Visible(envp, false) == envp
  {
  }

  /** The page size and the end of the vector, whose value is looked up as well. */
  method WriteAuxVector(data: array<Byte>, a: Word, vector: seq<Pair>) returns (pageSize: Wide)
    requires data.Length == MEMORY_SIZE && InBounds(a, 16) && Ended(vector)
    modifies data
    ensures pageSize == HostValue(vector, AT_PAGESZ) && AuxWritten(data[..], a, Wrap(pageSize))
    ensures SameBetween(old(data[..]), data[..], 0, a) && SameBetween(old(data[..]), data[..], a + 16, MEMORY_SIZE)
  {
    hide Load, HostValue;
    pageSize := GetAuxValue(vector, AT_PAGESZ);
    var written := WriteAuxValue(data, AT_PAGESZ, Wrap(pageSize), a);
    ghost var m := data[..];
    var end := GetAuxValue(vector, AT_NULL);
    NullHasNoValue(vector);
    var _ := WriteAuxValue(data, AT_NULL, Wrap(end), a + written);
    LoadSame(m, data[..], a);
    LoadSame(m, data[..], a + 4);
  }

  lemma {:induction false} NullHasNoValue(vector: seq<Pair>)
    ensures HostValue(vector, AT_NULL) == 0
  {
    if vector != [] && vector[0].tag != 0 {
      NullHasNoValue(vector[1..]);
    }
  }

  // ---- reading it back ----

  /** The zero-terminated bytes at an address. */
  function Terminated(m: Mem, a: nat): Option<seq<Byte>>
    decreases MEMORY_SIZE - a
  {
    if a >= MEMORY_SIZE then None
    else if m[a] == 0 then Some([])
    else match Terminated(m, a + 1) { case None => None case Some(rest) => Some([m[a]] + rest) }
  }

  lemma {:induction false} StringReads(m: Mem, a: nat, s: CString)
    requires StringAt(m, a, s)
    ensures Terminated(m, a) == Some(s)
    decreases |s|
  {
    if s == [] {
    } else {
      assert m[a] == m[a..a + |s|][0] == s[0];
      assert m[a + 1..a + |s|] == m[a..a + |s|][1..];
      StringReads(m, a + 1, s[1..]);
      assert [s[0]] + s[1..] == s;
    }
  }

  /** The nonzero words from an address on, up to a zero; None if there is none before memory ends. */
  function Pointers(m: Mem, a: nat): Option<seq<Word>>
    decreases MEMORY_SIZE - a
  {
    if a + 4 > MEMORY_SIZE then None
    else if Load(m, a, 4) == 0 then Some([])
    else match Pointers(m, a + 4) { case None => None case Some(rest) => Some([Load(m, a, 4)] + rest) }
  }

  function Ahead(found: seq<Word>, rest: Option<seq<Word>>): Option<seq<Word>> {
    match rest
    case None => None
    case Some(more) => Some(found + more)
  }

  datatype Walk = Null | Array(entries: seq<Word>) | Overrun

  function WalkOf(m: Mem, a: Word): Walk {
    if a == 0 then Null else match Pointers(m, a) { case None => Overrun case Some(entries) => Array(entries) }
  }

  /** translatePointerArray. */
  method TranslatePointerArray(data: array<Byte>, guestArray: Word) returns (walk: Walk)
    requires data.Length == MEMORY_SIZE
    ensures walk == WalkOf(data[..], guestArray)
  {
    hide Load, Pointers, Ahead;
    if guestArray == 0 { return Null; }
    var storage: seq<Word> := [];
    var address: int := guestArray;
    AheadOfNothing(Pointers(data[..], guestArray));
    while address + 4 <= MEMORY_SIZE
      invariant guestArray <= address
      invariant Pointers(data[..], guestArray) == Ahead(storage, Pointers(data[..], address))
      decreases MEMORY_SIZE - address
    {
      var entry := Load(data[..], address, 4);
      PointersFrom(data[..], storage, address);
      if entry == 0 { return Array(storage); }
      storage := storage + [entry];
      address := address + 4;
    }
    PointersEnd(data[..], storage, address);
    return Overrun;
  }

  lemma AheadOfNothing(rest: Option<seq<Word>>)
    ensures Ahead([], rest) == rest
  {
    if rest.Some? {
      assert [] + rest.value == rest.value;
    }
  }

  lemma PointersFrom(m: Mem, found: seq<Word>, a: nat)
    requires a + 4 <= MEMORY_SIZE
    ensures Load(m, a, 4) == 0 ==> Ahead(found, Pointers(m, a)) == Some(found)
    ensures Load(m, a, 4) != 0 ==> Ahead(found, Pointers(m, a)) == Ahead(found + [Load(m, a, 4)], Pointers(m, a + 4))
  {
    hide Load;
    if Load(m, a, 4) != 0 && Pointers(m, a + 4).Some? {
      var e, rest := Load(m, a, 4), Pointers(m, a + 4).value;
      assert found + ([e] + rest) == found + [e] + rest;
    }
    assert found + [] == found;
  }

  lemma PointersEnd(m: Mem, found: seq<Word>, a: nat)
    requires a + 4 > MEMORY_SIZE
    ensures Ahead(found, Pointers(m, a)) == None
  {
  }

  /** The entries found are the strings, in order. */
  ghost predicate Names(m: Mem, entries: seq<Word>, ss: seq<CString>) {
    |entries| == |ss| && forall k :: 0 <= k < |ss| ==> Terminated(m, entries[k]) == Some(ss[k])
  }

  function Places(strings: nat, ss: seq<CString>, k: nat): seq<int>
    requires k <= |ss|
  {
    seq(|ss| - k, n requires 0 <= n < |ss| - k => StringPlace(strings, ss, k + n))
  }

  lemma PlacesFrom(strings: nat, ss: seq<CString>, k: nat)
    requires k < |ss|
    ensures Places(strings, ss, k) == [StringPlace(strings, ss, k)] + Places(strings, ss, k + 1)
  {
  }

  lemma {:induction false} WalksTable(m: Mem, slots: nat, strings: nat, ss: seq<CString>, k: nat)
    requires Table(m, slots, strings, ss) && WordIs(m, slots + 4 * |ss|, 0) && 0 < strings && k <= |ss|
    ensures Pointers(m, slots + 4 * k).Some? && Pointers(m, slots + 4 * k).value == Places(strings, ss, k)
    decreases |ss| - k
  {
    hide Load, StringAt, StringPlace;
    if k == |ss| {
    } else {
      WalksTable(m, slots, strings, ss, k + 1);
      assert EntryOf(m, slots, strings, ss, k);
      PlaceIsPositive(strings, ss, k);
      PlacesFrom(strings, ss, k);
      assert slots + 4 * k + 4 == slots + 4 * (k + 1);
    }
  }

  lemma PlaceIsPositive(strings: nat, ss: seq<CString>, k: nat)
    requires 0 < strings && k < |ss|
    ensures StringPlace(strings, ss, k) > 0
  {
  }

  lemma TableReadsBack(m: Mem, slots: nat, strings: nat, ss: seq<CString>) returns (entries: seq<Word>)
    requires Table(m, slots, strings, ss) && WordIs(m, slots + 4 * |ss|, 0) && 0 < strings
    ensures Pointers(m, slots) == Some(entries) && Names(m, entries, ss)
  {
    hide Pointers, Terminated, StringAt, Load, StringPlace;
    WalksTable(m, slots, strings, ss, 0);
    entries := Pointers(m, slots).value;
    forall k | 0 <= k < |ss|
      ensures Terminated(m, entries[k]) == Some(ss[k])
    {
      assert EntryOf(m, slots, strings, ss, k);
      assert entries[k] == Places(strings, ss, 0)[k];
      StringReads(m, entries[k], ss[k]);
    }
  }

  /** Memory that was zero where the two arrays end. */
  ghost predicate ZeroEnds(m0: Mem, sp: int, args: nat, envs: nat) {
    WordIs(m0, EnvSlots(sp, args) - 4, 0) && WordIs(m0, AuxAt(sp, args, envs) - 4, 0)
  }

  /** Walking argv and envp as the system calls do gives back the strings the image was made of. */
  lemma ImageRoundTrip(m0: Mem, m: Mem, sp: Word, args: seq<CString>, envp: seq<CString>, page: Word)
    returns (argv: seq<Word>, env: seq<Word>)
    requires Laid(m0, m, sp, args, envp, page) && ZeroEnds(m0, sp, |args|, |envp|)
    ensures WordIs(m, sp, |args|)
    ensures WalkOf(m, sp + 4) == Array(argv) && Names(m, argv, args)
    ensures WalkOf(m, sp + 4 + 4 * |args| + 4) == Array(env) && Names(m, env, envp)
  {
    hide Table, WordIs, AuxWritten, Room, SameBetween, Names, Pointers;
    var strings := StringsAt(sp, |args|, |envp|);
    WordSame(m0, m, EnvSlots(sp, |args|) - 4, 0);
    WordSame(m0, m, AuxAt(sp, |args|, |envp|) - 4, 0);
    argv := TableReadsBack(m, Slots(sp), strings, args);
    env := TableReadsBack(m, EnvSlots(sp, |args|), strings + Room(args), envp);
  }

  /** The guest's search of its auxiliary vector: pairs of words up to a zero tag. */
  function AuxValue(m: Mem, a: nat, tag: Word): Option<Word>
    decreases MEMORY_SIZE - a
  {
    if a + 8 > MEMORY_SIZE then None
    else if Load(m, a, 4) == 0 then Some(0)
    else if Load(m, a, 4) == tag then Some(Load(m, a + 4, 4))
    else AuxValue(m, a + 8, tag)
  }

  lemma PairIsSkipped(m: Mem, a: nat, tag: Word, kind: Word, value: Word)
    requires WordIs(m, a, kind) && WordIs(m, a + 4, value) && kind != 0
    ensures AuxValue(m, a, tag) == if tag == kind then Some(value) else AuxValue(m, a + 8, tag)
  {
    hide Load;
  }

  lemma EndIsZero(m: Mem, a: nat, tag: Word, value: Word)
    requires WordIs(m, a, 0) && WordIs(m, a + 4, value)
    ensures AuxValue(m, a, tag) == Some(0)
  {
    hide Load;
  }

  /** Behind argc, both arrays and their ends, a guest that asks for tag 6 finds the page size, and one
      that asks for any other tag finds nothing. */
  lemma AuxReadsBack(m0: Mem, m: Mem, sp: Word, args: seq<CString>, envp: seq<CString>, page: Word, tag: Word)
    requires Laid(m0, m, sp, args, envp, page)
    ensures AuxValue(m, sp + 4 + 4 * |args| + 4 + 4 * |envp| + 4, tag) == Some(if tag == 6 then page else 0)
  {
    hide Table, WordIs, Room, SameBetween, AuxValue;
    var a := sp + 4 + 4 * |args| + 4 + 4 * |envp| + 4;
    PairIsSkipped(m, a, tag, AT_PAGESZ, page);
    EndIsZero(m, a + 8, tag, 0);
  }

  // ---- the zero ends are needed ----

  /** Some array of pointers starts here and names these strings. */
  ghost predicate NamesFrom(m: Mem, a: int, ss: seq<CString>) {
    0 <= a < 0x1_0000_0000 && exists entries: seq<Word> :: WalkOf(m, a) == Array(entries) && Names(m, entries, ss)
  }

  /** A walk of n entries ends at a zero word. */
  lemma {:induction false} WalkEnds(m: Mem, a: nat, n: nat)
    requires Pointers(m, a).Some? && |Pointers(m, a).value| == n
    ensures WordIs(m, a + 4 * n, 0)
    decreases n
  {
    hide Load;
    if n == 0 {
    } else {
      PointersTail(m, a, n);
      WalkEnds(m, a + 4, n - 1);
    }
  }

  lemma PointersTail(m: Mem, a: nat, n: nat)
    requires Pointers(m, a).Some? && |Pointers(m, a).value| == n && n > 0
    ensures Pointers(m, a + 4).Some? && |Pointers(m, a + 4).value| == n - 1
  {
    hide Load;
  }

  lemma NamesEnd(m: Mem, a: int, ss: seq<CString>)
    requires NamesFrom(m, a, ss) && a > 0
    ensures WordIs(m, a + 4 * |ss|, 0)
  {
    hide Pointers, Terminated, WordIs;
    var entries: seq<Word> :| WalkOf(m, a) == Array(entries) && Names(m, entries, ss);
    WalkEnds(m, a, |ss|);
  }

  lemma WordSameBack(m: Mem, m': Mem, a: int, v: Word)
    requires WordIs(m', a, v) && SameBetween(m, m', a, a + 4)
    ensures WordIs(m, a, v)
  {
    hide Load, SameBetween;
    LoadSame(m, m', a);
  }

  /** After loadAux, walking argv and envp gives back their strings if and only if memory was zero
      where the two arrays end. */
  lemma ImageRoundTripExactly(m0: Mem, m: Mem, sp: Word, args: seq<CString>, envp: seq<CString>, page: Word)
    requires Laid(m0, m, sp, args, envp, page)
    ensures NamesFrom(m, Slots(sp), args) && NamesFrom(m, EnvSlots(sp, |args|), envp) <==> ZeroEnds(m0, sp, |args|, |envp|)
  {
    hide Table, WordIs, AuxWritten, Room, SameBetween, Names, Pointers, NamesFrom;
    if ZeroEnds(m0, sp, |args|, |envp|) {
      var argv, env := ImageRoundTrip(m0, m, sp, args, envp, page);
      ArrayNames(m, Slots(sp), argv, args);
      ArrayNames(m, EnvSlots(sp, |args|), env, envp);
    }
    if NamesFrom(m, Slots(sp), args) && NamesFrom(m, EnvSlots(sp, |args|), envp) {
      NamesEnd(m, Slots(sp), args);
      NamesEnd(m, EnvSlots(sp, |args|), envp);
      WordSameBack(m0, m, EnvSlots(sp, |args|) - 4, 0);
      WordSameBack(m0, m, AuxAt(sp, |args|, |envp|) - 4, 0);
    }
  }

  lemma ArrayNames(m: Mem, a: int, entries: seq<Word>, ss: seq<CString>)
    requires 0 <= a < 0x1_0000_0000 && WalkOf(m, a) == Array(entries) && Names(m, entries, ss)
    ensures NamesFrom(m, a, ss)
  {
    hide Pointers, Names;
  }

  /** Memory full of ones: whatever is laid out on it cannot be walked. */
  lemma OnesCannotBeWalked(m: Mem, sp: Word, args: seq<CString>, envp: seq<CString>, page: Word)
    requires Laid(seq(MEMORY_SIZE, _ => 1), m, sp, args, envp, page)
    ensures !(NamesFrom(m, Slots(sp), args) && NamesFrom(m, EnvSlots(sp, |args|), envp))
  {
    hide Laid, NamesFrom;
    ImageRoundTripExactly(seq(MEMORY_SIZE, _ => 1), m, sp, args, envp, page);
    OnesAreNotZero(EnvSlots(sp, |args|) - 4);
  }

  lemma OnesAreNotZero(a: int)
    ensures !WordIs(seq(MEMORY_SIZE, _ => 1), a, 0)
  {
  }
}
