/** Which addresses get a label: the leader set, from the instructions, the profile and the
    words of the data sections. */
module BasicBlocks {
  import opened Words
  import opened Isa
  import opened Machine
  import opened Translate
  import opened Emitter

  /** An instruction that makes an address a leader: a direct target, or the address after a jump. */
  predicate LeadsTo(i: Instruction, a: Word) {
    || ((IsBranch(i.op) || i.op == JAL) && (a == DirectTarget(i) || a == Wrap(i.address + 4)))
    || (i.op == JALR && a == Wrap(i.address + 4))
  }

  ghost predicate Listed(ds: seq<Destination>, a: Word) { exists k :: 0 <= k < |ds| && ds[k].target == a }

  ghost predicate Profiled(profile: Profile, a: Word) { exists b :: b in profile && Listed(profile[b], a) }

  ghost predicate Led(instrs: seq<Instruction>, a: Word) { exists k :: 0 <= k < |instrs| && LeadsTo(instrs[k], a) }

  ghost predicate IsLeader(instrs: seq<Instruction>, useProfile: bool, profile: Profile, a: Word) {
    instrs != [] && (a == instrs[0].address || Led(instrs, a) || (useProfile && Profiled(profile, a)))
  }

  method AddDestinations(leaders: set<Word>, ds: seq<Destination>) returns (more: set<Word>)
    ensures forall a: Word :: a in more <==> a in leaders || Listed(ds, a)
  {
    more := leaders;
    for k := 0 to |ds|
      invariant forall a: Word :: a in more <==> a in leaders || Listed(ds[..k], a)
    {
      more := more + {ds[k].target};
      assert ds[..k + 1] == ds[..k] + [ds[k]];
      ListedOneMore(ds[..k], ds[k]);
    }
    assert ds[..|ds|] == ds;
  }

  lemma ListedOneMore(ds: seq<Destination>, d: Destination)
    ensures forall a: Word :: Listed(ds + [d], a) <==> Listed(ds, a) || a == d.target
  {
    forall a: Word
      ensures Listed(ds + [d], a) <==> Listed(ds, a) || a == d.target
    {
      assert (ds + [d])[|ds|] == d;
      if Listed(ds, a) {
        var k :| 0 <= k < |ds| && ds[k].target == a;
        assert (ds + [d])[k] == ds[k];
      }
    }
  }

  method AddProfile(leaders: set<Word>, profile: Profile) returns (more: set<Word>)
    ensures forall a: Word :: a in more <==> a in leaders || Profiled(profile, a)
  {
    hide Listed;
    more := leaders;
    var left := profile.Keys;
    while left != {}
      invariant left <= profile.Keys
      invariant forall a: Word :: a in more <==> a in leaders || exists b :: b in profile.Keys - left && Listed(profile[b], a)
      decreases |left|
    {
      var b :| b in left;
      more := AddDestinations(more, profile[b]);
      left := left - {b};
    }
  }

  method AddTargets(instrs: seq<Instruction>) returns (leaders: set<Word>)
    requires instrs != []
    ensures forall a: Word :: a in leaders <==> a == instrs[0].address || Led(instrs, a)
  {
    hide DirectTarget, ClassOf;
    leaders := {instrs[0].address};
    for k := 0 to |instrs|
      invariant forall a: Word :: a in leaders <==> a == instrs[0].address || Led(instrs[..k], a)
    {
      var i := instrs[k];
      assert instrs[..k + 1] == instrs[..k] + [i];
      LedOneMore(instrs[..k], i);
      if IsBranch(i.op) || i.op == JAL {
        leaders := leaders + {DirectTarget(i)} + {Wrap(i.address + 4)};
      } else if i.op == JALR {
        leaders := leaders + {Wrap(i.address + 4)};
      }
    }
    assert instrs[..|instrs|] == instrs;
  }

  lemma LedOneMore(instrs: seq<Instruction>, i: Instruction)
    ensures forall a: Word :: Led(instrs + [i], a) <==> Led(instrs, a) || LeadsTo(i, a)
  {
    hide LeadsTo;
    forall a: Word
      ensures Led(instrs + [i], a) <==> Led(instrs, a) || LeadsTo(i, a)
    {
      assert (instrs + [i])[|instrs|] == i;
      if Led(instrs, a) {
        var k :| 0 <= k < |instrs| && LeadsTo(instrs[k], a);
        assert (instrs + [i])[k] == instrs[k];
      }
    }
  }

  /** BasicBlocks::getLeaders. */
  method GetLeaders(instrs: seq<Instruction>, useProfile: bool, profile: Profile) returns (leaders: set<Word>)
    ensures forall a: Word :: a in leaders <==> IsLeader(instrs, useProfile, profile, a)
  {
    hide Led, Profiled;
    if instrs == [] { return {}; }
    leaders := AddTargets(instrs);
    if useProfile {
      leaders := AddProfile(leaders, profile);
    }
  }

  // ---- data sections ----

  predicate Harvested(words: seq<Word>, start: Word, end: Word, a: Word) { a in words && start <= a < end }

  method HarvestSection(words: seq<Word>, start: Word, end: Word, leaders: set<Word>) returns (more: set<Word>, discovered: nat)
    ensures forall a: Word :: a in more <==> a in leaders || Harvested(words, start, end, a)
    ensures |more| == |leaders| + discovered
  {
    more, discovered := leaders, 0;
    for k := 0 to |words|
      invariant forall a: Word :: a in more <==> a in leaders || Harvested(words[..k], start, end, a)
      invariant |more| == |leaders| + discovered
    {
      var address := words[k];
      if start <= address < end {
        if address in more {
          assert more + {address} == more;
        } else {
          discovered := discovered + 1;
        }
        more := more + {address};
      }
    }
  }

  ghost predicate HarvestedIn(sections: seq<seq<Word>>, start: Word, end: Word, a: Word) {
    exists k :: 0 <= k < |sections| && Harvested(sections[k], start, end, a)
  }

  /** BasicBlocks::harvestStaticData: every data word that is an address in the text becomes a
      leader, and the count printed is the number of new ones. */
  method HarvestStaticData(sections: seq<seq<Word>>, start: Word, end: Word, leaders: set<Word>)
    returns (more: set<Word>, discovered: nat)
    ensures forall a: Word :: a in more <==> a in leaders || HarvestedIn(sections, start, end, a)
    ensures |more| == |leaders| + discovered
  {
    hide Harvested;
    more, discovered := leaders, 0;
    for k := 0 to |sections|
      invariant forall a: Word :: a in more <==> a in leaders || exists n :: 0 <= n < k && Harvested(sections[n], start, end, a)
      invariant |more| == |leaders| + discovered
    {
      var found;
      more, found := HarvestSection(sections[k], start, end, more);
      discovered := discovered + found;
    }
  }
}
