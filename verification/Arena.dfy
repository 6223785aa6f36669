/** The mmap arena of the guest memory: a vector of mapped areas, searched first-fit, sorted
    after every reservation. */
module Arena {
  import opened Words
  import opened Machine
  import opened Cpp

  const ARENA_END := DATA_SIZE + MMAP_SIZE

  datatype Area = Area(base: Word, size: Word) {
    function End(): int { base + size }
  }

  // ---- page alignment ----

  /** A page size divides both ends of the arena. */
  predicate IsPage(page: int) { 0 < page && DATA_SIZE % page == 0 && MMAP_SIZE % page == 0 }

  function AlignUp(x: int, page: int): int
    requires page > 0
  {
    (x + page - 1) / page * page
  }

  /** pageAlignAddress, in 64-bit arithmetic. */
  function PageAlign(address: int, shift: nat): int {
    Bitwise(And, Wrap64(address + (Pow2(shift) - 1)), Wrap64(-1 - (Pow2(shift) - 1)))
  }

  lemma {:induction false} PowersMonotone(k: nat, n: nat)
    requires k <= n
    ensures Pow2(k) <= Pow2(n)
    decreases n
  {
    if k == n {
    } else {
      PowersMonotone(k, n - 1);
    }
  }

  lemma SixtyFour()
    ensures Pow2(64) == 0x1_0000_0000_0000_0000 && Pow2(19) == DATA_SIZE
  {
    Powers();
    assert Pow2(37) == 0x20_0000_0000;
    assert Pow2(42) == 0x400_0000_0000;
    assert Pow2(47) == 0x8000_0000_0000;
    assert Pow2(52) == 0x10_0000_0000_0000;
    assert Pow2(57) == 0x200_0000_0000_0000;
    assert Pow2(62) == 0x4000_0000_0000_0000;
  }

  lemma DropsRemainder(y: int, page: int)
    requires page > 0
    ensures y - y % page == y / page * page
  {
  }

  /** The bit trick rounds up to a multiple of the page size. */
  lemma PageAlignRoundsUp(address: Word, shift: nat)
    requires shift <= 19
    ensures PageAlign(address, shift) == AlignUp(address, Pow2(shift))
  {
    hide Pow2, Bitwise;
    SixtyFour();
    PowersMonotone(shift, 19);
    var page := Pow2(shift);
    assert Wrap64(address + (page - 1)) == address + page - 1;
    assert Wrap64(-1 - (page - 1)) == Pow2(64) - page;
    AndHighMask(address + page - 1, shift, 64);
    DropsRemainder(address + page - 1, page);
  }

  lemma {:induction false} PowerDivides(k: nat, n: nat) returns (q: int)
    requires k <= n
    ensures Pow2(n) == q * Pow2(k)
    decreases n
  {
    if k == n {
      q := 1;
    } else {
      q := PowerDivides(k, n - 1);
      q := 2 * q;
    }
  }

  lemma PagesOfPowers(shift: nat)
    requires shift <= 19
    ensures IsPage(Pow2(shift))
  {
    hide Pow2;
    SixtyFour();
    var q := PowerDivides(shift, 19);
    ModUnique(DATA_SIZE, Pow2(shift), q, 0);
  }

  lemma MultipleOrder(a: int, b: int, page: int)
    requires a <= b && page > 0
    ensures a * page <= b * page
  {
  }

  /** The least multiple of the page size that is not below x. */
  lemma AlignUpLeast(x: int, page: int, y: int)
    requires page > 0
    ensures AlignUp(x, page) % page == 0 && x <= AlignUp(x, page) < x + page
    ensures y % page == 0 && x <= y ==> AlignUp(x, page) <= y
  {
    var q := (x + page - 1) / page;
    ModUnique(q * page, page, q, 0);
    DropsRemainder(x + page - 1, page);
    if y % page == 0 && x <= y {
      DropsRemainder(y, page);
      var n := y / page;
      if n < q {
        MultipleOrder(n + 1, q, page);
      }
    }
  }

  // ---- invariant ----

  predicate InArena(a: Area, page: int)
    requires page > 0
  {
    a.base % page == 0 && 0 < a.size && DATA_SIZE <= a.base && a.End() <= ARENA_END
  }

  predicate Apart(a: Area, b: Area) { a.End() <= b.base || b.End() <= a.base }

  /** Sorted by base, page-aligned, disjoint and inside the arena. */
  ghost predicate WellFormed(areas: seq<Area>, page: int)
    requires page > 0
  {
    && (forall k :: 0 <= k < |areas| ==> InArena(areas[k], page))
    && (forall k, n :: 0 <= k < n < |areas| ==> areas[k].End() <= areas[n].base)
  }

  /** Two areas apart in either order, sorted by base, are in order. */
  ghost predicate Sorted(areas: seq<Area>) {
    forall k, n :: 0 <= k < n < |areas| ==> areas[k].base <= areas[n].base
  }

  // ---- first fit ----

  /** Where the space after an area starts. */
  function After(a: Area, page: int): Word
    requires page > 0
  {
    Wrap(AlignUp(Wrap(a.base + a.size), page))
  }

  /** getMmapAddress from area k on: the first space after an area that is large enough, or the
      space after the last one.  The space in front of the first area is not considered. */
  function FirstFit(areas: seq<Area>, size: Word, page: int, k: nat): Word
    requires page > 0 && k < |areas|
    decreases |areas| - k
  {
    var end := After(areas[k], page);
    if k + 1 == |areas| || Wrap(areas[k + 1].base - end) >= size then end else FirstFit(areas, size, page, k + 1)
  }

  function MmapAddress(areas: seq<Area>, size: Word, page: int): Word
    requires page > 0
  {
    if areas == [] then Wrap(AlignUp(DATA_SIZE, page)) else FirstFit(areas, size, page, 0)
  }

  /** The space after area k, up to the next one or to the end of the arena. */
  predicate FitsAfter(areas: seq<Area>, size: Word, page: int, k: nat)
    requires page > 0 && k < |areas|
  {
    AlignUp(areas[k].End(), page) + size <= if k + 1 < |areas| then areas[k + 1].base else ARENA_END
  }

  lemma AfterIsEnd(a: Area, page: int)
    requires IsPage(page) && InArena(a, page)
    ensures After(a, page) == AlignUp(a.End(), page) && a.End() <= After(a, page) <= ARENA_END && After(a, page) % page == 0
  {
    hide AlignUp;
    EndAligned(page);
    AlignUpLeast(a.End(), page, ARENA_END);
  }

  lemma EndAligned(page: int)
    requires IsPage(page)
    ensures ARENA_END % page == 0
  {
    var q, r := DATA_SIZE / page, MMAP_SIZE / page;
    assert DATA_SIZE == q * page && MMAP_SIZE == r * page;
    ModUnique(ARENA_END, page, q + r, 0);
  }

  /** The unsigned subtraction of the gap does not underflow. */
  lemma GapDoesNotUnderflow(areas: seq<Area>, page: int, k: nat)
    requires IsPage(page) && WellFormed(areas, page) && k + 1 < |areas|
    ensures After(areas[k], page) <= areas[k + 1].base
    ensures Wrap(areas[k + 1].base - After(areas[k], page)) == areas[k + 1].base - After(areas[k], page)
  {
    hide AlignUp, After;
    AfterIsEnd(areas[k], page);
    AlignUpLeast(areas[k].End(), page, areas[k + 1].base);
  }

  /** The search returns the first space that fits, or the last space. */
  lemma {:induction false} FirstFitFrom(areas: seq<Area>, size: Word, page: int, k: nat) returns (n: nat)
    requires IsPage(page) && WellFormed(areas, page) && k < |areas|
    ensures k <= n < |areas| && FirstFit(areas, size, page, k) == AlignUp(areas[n].End(), page)
    ensures forall m :: k <= m < n ==> !FitsAfter(areas, size, page, m)
    ensures n + 1 < |areas| ==> FitsAfter(areas, size, page, n)
    decreases |areas| - k
  {
    hide AlignUp, After;
    AfterIsEnd(areas[k], page);
    if k + 1 == |areas| {
      n := k;
    } else {
      GapDoesNotUnderflow(areas, page, k);
      if areas[k + 1].base - After(areas[k], page) >= size {
        n := k;
      } else {
        n := FirstFitFrom(areas, size, page, k + 1);
      }
    }
  }

  predicate Fresh(a: Area, areas: seq<Area>) { forall k :: 0 <= k < |areas| ==> Apart(a, areas[k]) }

  /** What the search finds: an aligned address in the arena; a block there that ends in the arena is
      apart from all areas; and if it does not, no space after any area is large enough. */
  lemma FirstFitCorrect(areas: seq<Area>, size: Word, page: int)
    requires IsPage(page) && WellFormed(areas, page)
    ensures var address := MmapAddress(areas, size, page);
      && address % page == 0 && DATA_SIZE <= address <= ARENA_END
      && (address + size <= ARENA_END ==> Fresh(Area(address, size), areas))
      && (address + size > ARENA_END ==>
           (areas == [] ==> size > MMAP_SIZE) && forall k :: 0 <= k < |areas| ==> !FitsAfter(areas, size, page, k))
      && (areas != [] ==> address >= areas[0].End())
  {
    hide AlignUp;
    EndAligned(page);
    if areas == [] {
      AlignUpLeast(DATA_SIZE, page, DATA_SIZE);
    } else {
      var n := FirstFitFrom(areas, size, page, 0);
      AfterIsEnd(areas[n], page);
    }
  }

  // ---- sorting ----

  ghost predicate IsSortOf(sorted: seq<Area>, areas: seq<Area>) { Sorted(sorted) && multiset(sorted) == multiset(areas) }

  /** One way to sort by base. */
  method SortByBase(areas: seq<Area>) returns (sorted: seq<Area>)
    ensures IsSortOf(sorted, areas)
  {
    sorted := [];
    for k := 0 to |areas|
      invariant IsSortOf(sorted, areas[..k])
    {
      sorted := InsertArea(sorted, areas[k]);
      assert areas[..k + 1] == areas[..k] + [areas[k]];
    }
    assert areas[..|areas|] == areas;
  }

  function Spliced(sorted: seq<Area>, a: Area, n: nat): (more: seq<Area>)
    requires n <= |sorted|
    ensures |more| == |sorted| + 1
  {
    sorted[..n] + [a] + sorted[n..]
  }

  lemma SplicedKeeps(sorted: seq<Area>, a: Area, n: nat)
    requires n <= |sorted|
    ensures multiset(Spliced(sorted, a, n)) == multiset(sorted + [a])
  {
    assert sorted == sorted[..n] + sorted[n..];
  }

  lemma SplicedAt(sorted: seq<Area>, a: Area, n: nat, k: nat)
    requires n <= |sorted| && k <= |sorted|
    ensures Spliced(sorted, a, n)[k] == if k < n then sorted[k] else if k == n then a else sorted[k - 1]
  {
  }

  lemma SplicedSorted(sorted: seq<Area>, a: Area, n: nat)
    requires Sorted(sorted) && n <= |sorted| && (n > 0 ==> sorted[n - 1].base <= a.base)
    requires forall k :: n <= k < |sorted| ==> a.base < sorted[k].base
    ensures Sorted(Spliced(sorted, a, n))
  {
    hide Spliced;
    forall k, m | 0 <= k < m <= |sorted|
      ensures Spliced(sorted, a, n)[k].base <= Spliced(sorted, a, n)[m].base
    {
      SplicedAt(sorted, a, n, k);
      SplicedAt(sorted, a, n, m);
    }
  }

  method InsertArea(sorted: seq<Area>, a: Area) returns (more: seq<Area>)
    requires Sorted(sorted)
    ensures IsSortOf(more, sorted + [a])
  {
    var n: nat := |sorted|;
    while n > 0 && a.base < sorted[n - 1].base
      invariant n <= |sorted|
      invariant forall k :: n <= k < |sorted| ==> a.base < sorted[k].base
    {
      n := n - 1;
    }
    more := Spliced(sorted, a, n);
    SplicedKeeps(sorted, a, n);
    SplicedSorted(sorted, a, n);
  }

  // ---- the class ----

  class Memory {
    const page: int
    var mappedAreas: seq<Area>

    ghost predicate Valid()
      reads this
    {
      IsPage(page)
    }

    constructor (shift: nat)
      requires shift <= 19
      ensures Valid() && page == Pow2(shift) && mappedAreas == []
    {
      page, mappedAreas := Pow2(shift), [];
      new;
      PagesOfPowers(shift);
    }

    method GetMmapAddress(size: Word) returns (address: Word)
      requires Valid()
      ensures address == MmapAddress(mappedAreas, size, page)
    {
      hide AlignUp;
      var it := 0;
      while it < |mappedAreas|
        invariant it <= |mappedAreas|
        invariant it < |mappedAreas| ==> MmapAddress(mappedAreas, size, page) == FirstFit(mappedAreas, size, page, it)
        invariant it == |mappedAreas| ==> mappedAreas == []
      {
        var previousEnd: Word := Wrap(mappedAreas[it].base + mappedAreas[it].size);
        previousEnd := Wrap(AlignUp(previousEnd, page));
        it := it + 1;
        if it == |mappedAreas| {
          return previousEnd;
        }
        if Wrap(mappedAreas[it].base - previousEnd) >= size {
          return previousEnd;
        }
      }
      return Wrap(AlignUp(DATA_SIZE, page));
    }

    method ReserveMmapSpace(size: Word) returns (ok: bool)
      requires Valid()
      modifies this`mappedAreas
      ensures ok == Accepts(old(mappedAreas), size, page)
      ensures ok ==> IsSortOf(mappedAreas, old(mappedAreas) + [Area(MmapAddress(old(mappedAreas), size, page), size)])
      ensures !ok ==> mappedAreas == old(mappedAreas)
    {
      hide MmapAddress;
      var address := GetMmapAddress(size);
      if Wrap(address + size) > ARENA_END {
        return false;
      }
      mappedAreas := SortByBase(mappedAreas + [Area(address, size)]);
      return true;
    }

    method FreeMmapSpace(address: Word, size: Word) returns (ok: bool)
      requires Valid()
      modifies this`mappedAreas
      ensures ok == Releases(old(mappedAreas), address, size)
      ensures mappedAreas == if ok then Removed(old(mappedAreas), address) else old(mappedAreas)
    {
      var it := 0;
      while it < |mappedAreas| && mappedAreas[it].base != address
        invariant it <= |mappedAreas|
        invariant FirstAt(mappedAreas, address) == it + FirstAt(mappedAreas[it..], address)
      {
        assert mappedAreas[it..][1..] == mappedAreas[it + 1..];
        it := it + 1;
      }
      if it == |mappedAreas| || mappedAreas[it].size != size {
        return false;
      }
      mappedAreas := mappedAreas[..it] + mappedAreas[it + 1..];
      return true;
    }

    /** The mmap system call, for an answer of the host kernel.  The address is chosen before the
        kernel is asked, and the outcome of the reservation is ignored. */
    method Mmap(address: Word, size: Word, hostMaps: bool) returns (result: Option<Word>)
      requires Valid()
      modifies this`mappedAreas
      ensures var placed := if address == 0 then MmapAddress(old(mappedAreas), size, page) else address;
        result == if hostMaps then Some(placed) else None
      ensures hostMaps && address == 0 && Accepts(old(mappedAreas), size, page) ==>
        IsSortOf(mappedAreas, old(mappedAreas) + [Area(result.value, size)])
      ensures !(hostMaps && address == 0 && Accepts(old(mappedAreas), size, page)) ==> mappedAreas == old(mappedAreas)
    {
      hide MmapAddress;
      var placed := address;
      if address == 0 {
        placed := GetMmapAddress(size);
      }
      if !hostMaps {
        return None;
      }
      result := Some(placed);
      if address == 0 {
        var ok := ReserveMmapSpace(size);
      }
    }
  }

  // ---- the operations on values ----

  predicate Accepts(areas: seq<Area>, size: Word, page: int)
    requires page > 0
  {
    Wrap(MmapAddress(areas, size, page) + size) <= ARENA_END
  }

  /** Index of the first area with this base; the length if there is none. */
  function FirstAt(areas: seq<Area>, address: Word): (k: nat)
    ensures k <= |areas| && (k < |areas| ==> areas[k].base == address)
    ensures forall n :: 0 <= n < k ==> areas[n].base != address
  {
    if areas == [] || areas[0].base == address then 0 else 1 + FirstAt(areas[1..], address)
  }

  predicate Releases(areas: seq<Area>, address: Word, size: Word) {
    var k := FirstAt(areas, address); k < |areas| && areas[k].size == size
  }

  function Removed(areas: seq<Area>, address: Word): seq<Area>
    requires FirstAt(areas, address) < |areas|
  {
    var k := FirstAt(areas, address); areas[..k] + areas[k + 1..]
  }

  /** Inserted behind the areas that do not start after it. */
  function Inserted(areas: seq<Area>, a: Area): seq<Area> {
    if areas == [] || a.base < areas[0].base then [a] + areas else [areas[0]] + Inserted(areas[1..], a)
  }

  datatype Request = Map(size: Word) | Unmap(address: Word, size: Word)

  function Handle(areas: seq<Area>, r: Request, page: int): seq<Area>
    requires page > 0
  {
    match r
    case Map(size) => if Accepts(areas, size, page) then Inserted(areas, Area(MmapAddress(areas, size, page), size)) else areas
    case Unmap(address, size) => if Releases(areas, address, size) then Removed(areas, address) else areas
  }

  function HandleAll(areas: seq<Area>, requests: seq<Request>, page: int): seq<Area>
    requires page > 0
    decreases |requests|
  {
    if requests == [] then areas else HandleAll(Handle(areas, requests[0], page), requests[1..], page)
  }

  // ---- sorting has one result ----

  lemma {:induction false} InsertedKeeps(areas: seq<Area>, a: Area)
    ensures multiset(Inserted(areas, a)) == multiset(areas + [a]) && |Inserted(areas, a)| == |areas| + 1
  {
    if areas == [] || a.base < areas[0].base {
    } else {
      InsertedKeeps(areas[1..], a);
      assert areas == [areas[0]] + areas[1..];
    }
  }

  lemma MemberOf(s: seq<Area>, t: seq<Area>, x: Area)
    requires multiset(s) == multiset(t) && x in s
    ensures x in t
  {
    assert x in multiset(s);
  }

  ghost predicate StrictlySorted(areas: seq<Area>) {
    forall k, n :: 0 <= k < n < |areas| ==> areas[k].base < areas[n].base
  }

  lemma SameFirst(r: seq<Area>, s: seq<Area>)
    requires Sorted(r) && StrictlySorted(s) && multiset(r) == multiset(s) && r != [] && s != []
    ensures r[0] == s[0]
  {
    MemberOf(r, s, r[0]);
    MemberOf(s, r, s[0]);
    var k :| 0 <= k < |s| && s[k] == r[0];
    var n :| 0 <= n < |r| && r[n] == s[0];
  }

  lemma SameRest(r: seq<Area>, s: seq<Area>)
    requires multiset(r) == multiset(s) && r != [] && s != [] && r[0] == s[0]
    ensures multiset(r[1..]) == multiset(s[1..])
  {
    assert r == [r[0]] + r[1..] && s == [s[0]] + s[1..];
    assert multiset(r[1..]) == multiset(r) - multiset{r[0]};
    assert multiset(s[1..]) == multiset(s) - multiset{s[0]};
  }

  lemma {:induction false} SortedUnique(r: seq<Area>, s: seq<Area>)
    requires Sorted(r) && StrictlySorted(s) && multiset(r) == multiset(s)
    ensures r == s
    decreases |r|
  {
    assert |multiset(r)| == |multiset(s)|;
    if r == [] {
    } else {
      SameFirst(r, s);
      SameRest(r, s);
      SortedUnique(r[1..], s[1..]);
    }
  }

  lemma WellFormedSorted(areas: seq<Area>, page: int)
    requires page > 0 && WellFormed(areas, page)
    ensures StrictlySorted(areas)
  {
    forall k, n | 0 <= k < n < |areas|
      ensures areas[k].base < areas[n].base
    {
      assert InArena(areas[k], page);
    }
  }

  // ---- what the operations keep ----

  lemma WellFormedTail(areas: seq<Area>, page: int)
    requires page > 0 && WellFormed(areas, page) && areas != []
    ensures WellFormed(areas[1..], page)
  {
    forall k, n | 0 <= k < n < |areas[1..]|
      ensures areas[1..][k].End() <= areas[1..][n].base
    {
      assert areas[1..][k] == areas[k + 1] && areas[1..][n] == areas[n + 1];
    }
  }

  lemma WellFormedCons(a: Area, areas: seq<Area>, page: int)
    requires page > 0 && InArena(a, page) && WellFormed(areas, page)
    requires forall x :: x in areas ==> a.End() <= x.base
    ensures WellFormed([a] + areas, page)
  {
    var all := [a] + areas;
    forall k, n | 0 <= k < n < |all|
      ensures all[k].End() <= all[n].base
    {
      assert all[n] == areas[n - 1];
      if k > 0 {
        assert all[k] == areas[k - 1];
      }
    }
  }

  lemma {:induction false} InsertedWellFormed(areas: seq<Area>, a: Area, page: int)
    requires page > 0 && WellFormed(areas, page) && InArena(a, page) && Fresh(a, areas)
    ensures WellFormed(Inserted(areas, a), page)
  {
    hide InArena;
    if areas == [] || a.base < areas[0].base {
      AllBehind(areas, a, page);
      WellFormedCons(a, areas, page);
    } else {
      WellFormedTail(areas, page);
      assert Fresh(a, areas[1..]);
      InsertedWellFormed(areas[1..], a, page);
      HeadStays(areas, a, page);
      WellFormedCons(areas[0], Inserted(areas[1..], a), page);
    }
  }

  lemma AllBehind(areas: seq<Area>, a: Area, page: int)
    requires page > 0 && WellFormed(areas, page) && InArena(a, page) && Fresh(a, areas)
    requires areas != [] ==> a.base < areas[0].base
    ensures forall x :: x in areas ==> a.End() <= x.base
  {
    WellFormedSorted(areas, page);
    forall k | 0 <= k < |areas|
      ensures a.End() <= areas[k].base
    {
      assert Apart(a, areas[k]) && InArena(areas[k], page);
      assert k > 0 ==> areas[0].base < areas[k].base;
    }
  }

  lemma HeadStays(areas: seq<Area>, a: Area, page: int)
    requires page > 0 && WellFormed(areas, page) && InArena(a, page) && Fresh(a, areas) && areas != [] && areas[0].base <= a.base
    ensures InArena(areas[0], page) && forall x :: x in Inserted(areas[1..], a) ==> areas[0].End() <= x.base
  {
    InsertedKeeps(areas[1..], a);
    forall x | x in Inserted(areas[1..], a)
      ensures areas[0].End() <= x.base
    {
      MemberOf(Inserted(areas[1..], a), areas[1..] + [a], x);
      if x == a {
        assert Apart(a, areas[0]);
      } else {
        var k :| 0 <= k < |areas[1..]| && areas[1..][k] == x;
        assert x == areas[k + 1];
      }
    }
  }

  /** A refused request is neither empty nor near wrapping around. */
  lemma RefusedIsSensible(areas: seq<Area>, size: Word, page: int)
    requires IsPage(page) && WellFormed(areas, page) && !Accepts(areas, size, page)
    ensures 0 < size && MmapAddress(areas, size, page) + size < 0x1_0000_0000
  {
    hide WellFormed, MmapAddress;
    FirstFitCorrect(areas, size, page);
  }

  /** A request keeps the invariant if and only if it is not empty and its end does not wrap around. */
  lemma MapKeepsExactly(areas: seq<Area>, size: Word, page: int)
    requires IsPage(page) && WellFormed(areas, page)
    ensures WellFormed(Handle(areas, Map(size), page), page) <==>
      0 < size && MmapAddress(areas, size, page) + size < 0x1_0000_0000
  {
    hide WellFormed, MmapAddress, Inserted;
    var address := MmapAddress(areas, size, page);
    var a := Area(address, size);
    FirstFitCorrect(areas, size, page);
    if !Accepts(areas, size, page) {
      RefusedIsSensible(areas, size, page);
    } else if 0 < size && address + size < 0x1_0000_0000 {
      InsertedWellFormed(areas, a, page);
    } else {
      InsertedKeeps(areas, a);
      NotInArena(Inserted(areas, a), areas, a, page);
    }
  }

  lemma NotInArena(all: seq<Area>, areas: seq<Area>, a: Area, page: int)
    requires page > 0 && multiset(all) == multiset(areas + [a]) && !InArena(a, page)
    ensures !WellFormed(all, page)
  {
    assert a == (areas + [a])[|areas|];
    MemberOf(areas + [a], all, a);
  }

  lemma UnmapKeeps(areas: seq<Area>, address: Word, size: Word, page: int)
    requires page > 0 && WellFormed(areas, page)
    ensures WellFormed(Handle(areas, Unmap(address, size), page), page)
  {
    if Releases(areas, address, size) {
      var k := FirstAt(areas, address);
      assert forall n :: 0 <= n < |Removed(areas, address)| ==> Removed(areas, address)[n] == areas[if n < k then n else n + 1];
    }
  }

  /** A request a caller may make: not empty, and not within the arena's end of wrapping around. */
  predicate Sensible(r: Request) { r.Map? ==> 0 < r.size < 0x1_0000_0000 - ARENA_END }

  lemma SensibleKeeps(areas: seq<Area>, r: Request, page: int)
    requires IsPage(page) && WellFormed(areas, page) && Sensible(r)
    ensures WellFormed(Handle(areas, r, page), page)
  {
    hide WellFormed, MmapAddress, Handle, Accepts;
    match r
    case Map(size) =>
      FirstFitCorrect(areas, size, page);
      MapKeepsExactly(areas, size, page);
    case Unmap(address, size) => UnmapKeeps(areas, address, size, page);
  }

  /** The invariant holds over every sequence of sensible requests, from the empty arena on. */
  lemma {:induction false} ArenaStaysWellFormed(areas: seq<Area>, requests: seq<Request>, page: int)
    requires IsPage(page) && WellFormed(areas, page) && forall k :: 0 <= k < |requests| ==> Sensible(requests[k])
    ensures WellFormed(HandleAll(areas, requests, page), page)
    decreases |requests|
  {
    hide WellFormed, Handle, Sensible;
    if requests == [] {
    } else {
      SensibleKeeps(areas, requests[0], page);
      ArenaStaysWellFormed(Handle(areas, requests[0], page), requests[1..], page);
    }
  }

  // ---- what the caller gets ----

  /** Refusal of a sensible request: no space after an area, and none behind the last, is large enough. */
  lemma RefusalExactly(areas: seq<Area>, size: Word, page: int)
    requires IsPage(page) && WellFormed(areas, page) && Sensible(Map(size))
    ensures Accepts(areas, size, page) <==>
      if areas == [] then size <= MMAP_SIZE else exists k :: 0 <= k < |areas| && FitsAfter(areas, size, page, k)
  {
    hide WellFormed, AlignUp, FirstFit;
    FirstFitCorrect(areas, size, page);
    if areas == [] {
      AlignUpLeast(DATA_SIZE, page, DATA_SIZE);
    } else {
      var n := FirstFitFrom(areas, size, page, 0);
      if Accepts(areas, size, page) {
        SpaceFits(areas, size, page, n);
      }
    }
  }

  lemma SpaceFits(areas: seq<Area>, size: Word, page: int, n: nat)
    requires IsPage(page) && WellFormed(areas, page) && n < |areas| && (n + 1 < |areas| ==> FitsAfter(areas, size, page, n))
    requires AlignUp(areas[n].End(), page) + size <= ARENA_END
    ensures FitsAfter(areas, size, page, n)
  {
    hide AlignUp;
  }

  /** Unmapping succeeds exactly on an area that is mapped, and removes that one. */
  lemma UnmapExactly(areas: seq<Area>, address: Word, size: Word, page: int)
    requires page > 0 && WellFormed(areas, page)
    ensures Releases(areas, address, size) <==> Area(address, size) in areas
    ensures Releases(areas, address, size) ==>
      multiset(Handle(areas, Unmap(address, size), page)) == multiset(areas) - multiset{Area(address, size)}
  {
    hide FirstAt, WellFormed, StrictlySorted;
    WellFormedSorted(areas, page);
    if Area(address, size) in areas {
      var k :| 0 <= k < |areas| && areas[k] == Area(address, size);
      OnlyBase(areas, address, k);
    }
    if Releases(areas, address, size) {
      CutOut(areas, FirstAt(areas, address));
    }
  }

  lemma CutOut(areas: seq<Area>, k: nat)
    requires k < |areas|
    ensures multiset(areas[..k] + areas[k + 1..]) == multiset(areas) - multiset{areas[k]}
  {
    var rest := areas[..k] + areas[k + 1..];
    assert areas == areas[..k] + [areas[k]] + areas[k + 1..];
    assert multiset(areas) == multiset(rest) + multiset{areas[k]};
  }

  lemma OnlyBase(areas: seq<Area>, address: Word, k: nat)
    requires StrictlySorted(areas) && k < |areas| && areas[k].base == address
    ensures FirstAt(areas, address) == k
  {
    var n := FirstAt(areas, address);
    assert n <= k;
  }

  /** Unmapping what was just mapped gives back the areas there were. */
  lemma UnmapUndoesMap(areas: seq<Area>, size: Word, page: int)
    requires IsPage(page) && WellFormed(areas, page) && Sensible(Map(size)) && Accepts(areas, size, page)
    ensures Handle(Handle(areas, Map(size), page), Unmap(MmapAddress(areas, size, page), size), page) == areas
  {
    hide WellFormed, MmapAddress, Inserted, Sorted, Removed, Accepts;
    var address := MmapAddress(areas, size, page);
    var a, more := Area(address, size), Inserted(areas, Area(address, size));
    SensibleKeeps(areas, Map(size), page);
    InsertedKeeps(areas, a);
    MemberOf(areas + [a], more, a);
    UnmapExactly(more, address, size, page);
    UnmapKeeps(more, address, size, page);
    var back := Handle(more, Unmap(address, size), page);
    assert multiset(back) == multiset(areas);
    WellFormedSorted(back, page);
    StrictIsSorted(back);
    WellFormedSorted(areas, page);
    SortedUnique(back, areas);
  }

  lemma StrictIsSorted(areas: seq<Area>)
    requires StrictlySorted(areas)
    ensures Sorted(areas)
  {
  }

  // ---- the class follows the operations on values ----

  lemma ReservedIsHandled(areas: seq<Area>, size: Word, page: int, sorted: seq<Area>)
    requires IsPage(page) && WellFormed(areas, page) && Sensible(Map(size)) && Accepts(areas, size, page)
    requires IsSortOf(sorted, areas + [Area(MmapAddress(areas, size, page), size)])
    ensures sorted == Handle(areas, Map(size), page)
  {
    hide WellFormed, MmapAddress, Inserted, Sorted, Accepts;
    var a := Area(MmapAddress(areas, size, page), size);
    SensibleKeeps(areas, Map(size), page);
    InsertedKeeps(areas, a);
    WellFormedSorted(Inserted(areas, a), page);
    SortedUnique(sorted, Inserted(areas, a));
  }

  method RunRequests(memory: Memory, requests: seq<Request>)
    requires memory.Valid() && WellFormed(memory.mappedAreas, memory.page)
    requires forall k :: 0 <= k < |requests| ==> Sensible(requests[k])
    modifies memory`mappedAreas
    ensures memory.mappedAreas == HandleAll(old(memory.mappedAreas), requests, memory.page)
    ensures WellFormed(memory.mappedAreas, memory.page)
  {
    hide WellFormed, MmapAddress, Sensible, Accepts, Releases, IsSortOf, HandleAll;
    NoRequests(memory.mappedAreas, memory.page);
    for n := 0 to |requests|
      invariant WellFormed(memory.mappedAreas, memory.page)
      invariant memory.mappedAreas == HandleAll(old(memory.mappedAreas), requests[..n], memory.page)
    {
      ghost var areas := memory.mappedAreas;
      SensibleKeeps(areas, requests[n], memory.page);
      match requests[n] {
        case Map(size) =>
          var ok := memory.ReserveMmapSpace(size);
          if ok {
            ReservedIsHandled(areas, size, memory.page, memory.mappedAreas);
          }
        case Unmap(address, size) =>
          var ok := memory.FreeMmapSpace(address, size);
      }
      HandleOneMore(old(memory.mappedAreas), requests, n, memory.page);
    }
    assert requests[..|requests|] == requests;
  }

  lemma NoRequests(areas: seq<Area>, page: int)
    requires page > 0
    ensures HandleAll(areas, [], page) == areas
  {
  }

  lemma {:induction false} HandleOneMore(areas: seq<Area>, requests: seq<Request>, n: nat, page: int)
    requires page > 0 && n < |requests|
    ensures HandleAll(areas, requests[..n + 1], page) == Handle(HandleAll(areas, requests[..n], page), requests[n], page)
    decreases n
  {
    hide Handle;
    if n == 0 {
      assert requests[..1][1..] == [];
    } else {
      assert requests[..n + 1][1..] == requests[1..][..n] && requests[..n][1..] == requests[1..][..n - 1];
      HandleOneMore(Handle(areas, requests[0], page), requests[1..], n - 1, page);
    }
  }

  // ---- what goes wrong otherwise ----

  /** Three areas in a row, and a fourth, empty one that starts with the second. */
  function ThreeAreas(): seq<Area> { [Area(DATA_SIZE, 4096), Area(DATA_SIZE + 4096, 4096), Area(DATA_SIZE + 8192, 4096)] }

  function WithEmpty(): seq<Area> {
    [Area(DATA_SIZE, 4096), Area(DATA_SIZE + 4096, 4096), Area(DATA_SIZE + 4096, 0), Area(DATA_SIZE + 8192, 4096)]
  }

  lemma ThreeAreasFit()
    ensures WellFormed(ThreeAreas(), 4096)
  {
  }

  lemma EmptyMappingAccepted()
    ensures Handle(ThreeAreas(), Map(0), 4096) == WithEmpty()
  {
    var three, empty := ThreeAreas(), Area(DATA_SIZE + 4096, 0);
    assert After(three[0], 4096) == DATA_SIZE + 4096;
    assert Inserted(three[1..][1..], empty) == [empty, three[2]];
    assert Inserted(three[1..], empty) == [three[1], empty, three[2]];
  }

  /** An empty reservation makes the unsigned gap in front of it underflow, and the next one is placed
      over an area in use.  This is an input to reserveMmapSpace itself: the system call makes none,
      because the host refuses to map nothing first. */
  lemma EmptyMappingOverlaps()
    ensures WellFormed(ThreeAreas(), 4096) && Handle(ThreeAreas(), Map(0), 4096) == WithEmpty()
    ensures Accepts(WithEmpty(), 4096, 4096) && Area(MmapAddress(WithEmpty(), 4096, 4096), 4096) in WithEmpty()
  {
    hide Handle, AlignUp, WellFormed;
    ThreeAreasFit();
    EmptyMappingAccepted();
    var areas := WithEmpty();
    AlignUpLeast(areas[0].End(), 4096, areas[0].End());
    AlignUpLeast(areas[1].End(), 4096, areas[1].End());
    assert FirstFit(areas, 4096, 4096, 1) == DATA_SIZE + 8192;
    assert areas[3] == Area(DATA_SIZE + 8192, 4096);
  }

  /** A request whose end wraps around is accepted. */
  lemma HugeMappingAccepted()
    ensures Accepts([], 0xFFF8_0000, 4096) && !InArena(Area(MmapAddress([], 0xFFF8_0000, 4096), 0xFFF8_0000), 4096)
  {
  }

  /** Space in front of the first area is never used again. */
  lemma LeadingSpaceLost()
    ensures var areas := [Area(DATA_SIZE + 0x4_0000, 0x4_0000)];
      && WellFormed(areas, 4096) && !Accepts(areas, 0x4_0000, 4096)
      && InArena(Area(DATA_SIZE, 0x4_0000), 4096) && Fresh(Area(DATA_SIZE, 0x4_0000), areas)
  {
    var areas := [Area(DATA_SIZE + 0x4_0000, 0x4_0000)];
    assert After(areas[0], 4096) == ARENA_END;
  }
}
