/** Whole runs: the generated program computes what the guest computes, for every choice of
    translation options, leaders and predictions. */
module Runs {
  import opened Words
  import opened Isa
  import opened Machine
  import opened Interpreter
  import opened Agreement
  import opened Predecode
  import opened Cpp
  import opened Translate
  import opened Generated
  import opened Blocks
  import opened Straight
  import opened Layout
  import opened Simulation

  // ---- one guest step ----

  /** The guest's outcome, seen from the run. */
  ghost predicate Keeps(j: Job, r: Run, o: Outcome<State>, code: bool)
    requires Ready(j)
  {
    Tracks(j, r, o, code) && !o.Fault?
  }

  /** One guest step in either mode. */
  lemma LinkedSteps(j: Job, r: Run, g: State, host: Host, code: bool) returns (n: nat)
    requires Translatable(j) && Linked(j, r, g, code) && WellBehaved(j, g, host, code)
    ensures Keeps(j, Steps(Output(j), r, host, n), Exec(InstrAt(j, g), g, host), NextMode(j, g, host, code))
    ensures 0 < n || RunsOn(InstrAt(j, g).op)
    ensures Clean(j, r, host, n, Successor(Exec(InstrAt(j, g), g, host), g))
    ensures n == 0 || Fresh(j, r, g)
  {
    hide Clean, Caches, InstrAt, Exec, Agrees, Sound, Entry, TrackAt, Start, FallbackAt, Steps, Output, Tracks, FaithfulRem,
      FaithfulJalr, FaithfulCall, ImageAt, Compiles, RunsOn, NextMode, Fresh, HasCode;
    if code {
      LandsIndex(j, g.pc);
      n := CodeStep(j, r.c, g, host);
      CodeIsFresh(j, r, g, n);
    } else {
      n := FallbackStep(j, r.c, g, host);
      FallbackIsFresh(j, r, g);
    }
  }

  /** If the run is at the first statement of an instruction, it is the guest's. */
  ghost predicate Fresh(j: Job, r: Run, g: State)
    requires Ready(j)
  {
    Opens(j, r) ==> Entered(j, r, g)
  }

  /** At the first statement of the guest's instruction, with the guest's registers and all tracked
      constants right. */
  ghost predicate Entered(j: Job, r: Run, g: State)
    requires Ready(j)
  {
    LandsIndexIf(j, g.pc);
    j.text.At(g.pc) && InCode(j, r, g) && Opening(j.cfg, j.instrs, IndexOf(j, g.pc), r.pos)
  }

  lemma CodeIsFresh(j: Job, r: Run, g: State, n: nat)
    requires Ready(j) && j.text.At(g.pc) && InCode(j, r, g) && 0 <= IndexOf(j, g.pc) < |j.instrs| && HasCode(j, IndexOf(j, g.pc), n)
    ensures n == 0 || Fresh(j, r, g)
  {
    hide Caches, Agrees, Sound, Start, Entry, TrackAt, StartsAt;
  }

  lemma FallbackIsFresh(j: Job, r: Run, g: State)
    requires Ready(j) && InFallback(j, r, g)
    ensures Fresh(j, r, g)
  {
    hide Caches, Agrees, Sound, Start, FallbackAt, Within, Opens;
    FallbackBehind(j);
    BehindInvalid(j, FallbackAt(j.cfg, j.instrs), 0, r.c);
  }

  /** A guest step is a step of the predecoded engine. */
  lemma CachedIsExec(j: Job, g: State, host: Host)
    requires Ready(j) && j.text.At(g.pc)
    ensures CachedStep(j.instrs, j.text.start, g, host) == Exec(InstrAt(j, g), g, host)
  {
    hide Caches, Exec;
    LandsIndex(j, g.pc);
  }

  // ---- starting and leaving ----

  /** The generated program is entered with the guest's initial state in its context. */
  predicate Starts(c: Frame, g: State) { Generated.Context(c) == g && g.regs[0] == 0 }

  lemma Arrives(j: Job, c: Frame, g: State, host: Host) returns (n: nat)
    requires Ready(j) && Starts(c, g) && Lands(j, g.pc)
    ensures Arrived(j, Steps(Output(j), At(0, c), host, n), g) && Clean(j, At(0, c), host, n, g)
    ensures !Opens(j, At(0, c))
  {
    hide Code, Caches, Agrees, Arrived, Steps, RestoreRegisters, Follows, DoAll, Slots, Clean, Within, Opens, Start, Lands, Output,
      Ready;
    EndsAt(j.cfg, j.instrs);
    FollowsSplit(Code(j.cfg, j.instrs), 0, RestoreRegisters(j.cfg), [IndexStmt(j.cfg), Dispatch]);
    var loads := |RestoreRegisters(j.cfg)|;
    ReadyProper(j);
    var c' := RestoreSpreads(j.cfg, c, g, host);
    PinningSimple(j.cfg);
    PartsUnmarked(j.cfg, Undecoded(0));
    HeadWithin(j, c');
    WithinEnds(j);
    NotOpen(j, -1, loads + 2, 0, c);
    OutputCode(j);
    RunsStraight(Output(j), 0, RestoreRegisters(j.cfg), c, host);
    CleanStraight(j, 0, RestoreRegisters(j.cfg), c, host, g);
    var m := DispatchLands(j, loads, c', g, host);
    Joins(j, At(0, c), host, loads, m, g);
    n := loads + m;
  }

  /** What is left when the generated program returns: the guest's registers, in the context,
      its memory, and the host. */
  predicate Leaves(r: Run, g: State) {
    r.Returned? && r.c.ctx == g.regs && r.c.mem == g.mem && r.c.world == g.world
  }

  lemma LeaveStep(p: Program, pos: nat, c: Frame, host: Host)
    requires Follows(p.code, pos, [Leave])
    ensures Steps(p, At(pos, c), host, 1) == Returned(c)
  {
    hide Do, JumpTo, FallbackRound;
    FollowsHead(p.code, pos, Leave);
    StepsOne(p, pos, c, host);
  }

  lemma ExitRuns(cfg: Config, c: Frame, g: State, host: Host)
    requires Proper(cfg) && Agrees(cfg, c, g)
    ensures DoAll(SaveRegisters(cfg) + [Print], c, host) == Next(c.(ctx := g.regs))
    ensures AllSimple(SaveRegisters(cfg) + [Print]) && Unmarked(SaveRegisters(cfg) + [Print])
    ensures c.mem == g.mem && c.world == g.world
  {
    hide Agrees, SaveRegisters, Do, DoAll;
    PinningSimple(cfg);
    PartsUnmarked(cfg, Undecoded(0));
    SaveGathers(cfg, c, g, host);
    SameMemory(cfg, c, g);
    Sandwich(SaveRegisters(cfg), Print, [], c, host);
    PrintDoes(c.(ctx := g.regs), host);
    assert SaveRegisters(cfg) + [Print] + [] == SaveRegisters(cfg) + [Print];
  }

  /** At the end of the text the program saves its registers and returns. */
  lemma ReturnsAtEnd(j: Job, c: Frame, g: State, host: Host) returns (n: nat)
    requires Ready(j) && Agrees(j.cfg, c, g)
    ensures 0 < n && Leaves(Steps(Output(j), At(Start(j.cfg, j.instrs, |j.instrs|), c), host, n), g)
    ensures Clean(j, At(Start(j.cfg, j.instrs, |j.instrs|), c), host, n, g)
    ensures !Opens(j, At(Start(j.cfg, j.instrs, |j.instrs|), c))
  {
    hide Code, Caches, Agrees, Steps, SaveRegisters, Follows, DoAll, Slots, Start, Clean, OnTarget, Output, Within, Opens;
    var exit, pos := SaveRegisters(j.cfg) + [Print], Start(j.cfg, j.instrs, |j.instrs|);
    EndsAt(j.cfg, j.instrs);
    assert ExitBlock(j.cfg) == [ExitLabel] + (exit + [Leave]);
    FollowsSplit(Code(j.cfg, j.instrs), pos, [ExitLabel], exit + [Leave]);
    FollowsSplit(Code(j.cfg, j.instrs), pos + 1, exit, [Leave]);
    MarkStep(j, pos, ExitLabel, c, host);
    QuietTarget(j, pos, ExitLabel, c, g);
    CleanOne(j, At(pos, c), host, g);
    ExitRuns(j.cfg, c, g, host);
    OutputCode(j);
    BehindInvalid(j, pos, 0, c);
    BehindInvalid(j, pos + 1, |exit|, c);
    RunsStraight(Output(j), pos + 1, exit, c, host);
    CleanStraight(j, pos + 1, exit, c, host, g);
    var c' := c.(ctx := g.regs);
    BehindInvalid(j, pos + 1 + |exit|, 0, c');
    LeaveStep(Output(j), pos + 1 + |exit|, c', host);
    QuietTarget(j, pos + 1 + |exit|, Leave, c', g);
    CleanOne(j, At(pos + 1 + |exit|, c'), host, g);
    Joins(j, At(pos + 1, c), host, |exit|, 1, g);
    Joins(j, At(pos, c), host, 1, |exit| + 1, g);
    n := 1 + |exit| + 1;
  }

  lemma EndReturns(j: Job, r: Run, g: State, host: Host, code: bool) returns (n: nat)
    requires Ready(j) && Linked(j, r, g, code) && g.pc == j.text.End()
    ensures 0 < n && Leaves(Steps(Output(j), r, host, n), g) && Clean(j, r, host, n, g) && Fresh(j, r, g)
  {
    hide Caches, Agrees, Sound, Entry, TrackAt, Start, FallbackAt, Steps, Output, Leaves, Clean, Opens;
    LandsIndex(j, g.pc);
    n := ReturnsAtEnd(j, r.c, g, host);
  }

  // ---- runs ----

  function GuestRun(j: Job, g0: State, host: Host, k: nat): Outcome<State> {
    CachedRun(j.instrs, j.text.start, g0, host, k)
  }

  /** Whether the guest's k-th state is in translated code, from the guest run and the leaders alone. */
  predicate Mode(j: Job, g0: State, host: Host, k: nat)
    requires Ready(j)
  {
    if k == 0 then Leads(j, g0.pc)
    else if GuestRun(j, g0, host, k - 1).Next? && j.text.At(GuestRun(j, g0, host, k - 1).state.pc) then
      NextMode(j, GuestRun(j, g0, host, k - 1).state, host, Mode(j, g0, host, k - 1))
    else true
  }

  function RunOf(j: Job, c0: Frame, host: Host, n: nat): Run
    requires Ready(j)
  {
    Steps(Output(j), At(0, c0), host, n)
  }

  /** Every guest state on the way is well behaved in its mode, or at the end of the text. */
  ghost predicate Behaves(j: Job, g0: State, host: Host)
    requires Ready(j)
  {
    forall k: nat :: GuestRun(j, g0, host, k).Next? ==>
      Fine(j, GuestRun(j, g0, host, k).state, host, Mode(j, g0, host, k))
  }

  ghost predicate Fine(j: Job, g: State, host: Host, code: bool)
    requires Ready(j)
  {
    g.pc == j.text.End() || WellBehaved(j, g, host, code)
  }

  /** The setting of the theorems about runs. */
  ghost predicate Setting(j: Job, c0: Frame, g0: State, host: Host) {
    Translatable(j) && Starts(c0, g0) && Behaves(j, g0, host)
  }

  /** If the next statement is a dispatch or the fallback label, the guest has been, after some
      number of instructions, at the pc in `ctx.pc`, with the same registers and memory. */
  ghost predicate AtDispatch(j: Job, g0: State, host: Host, r: Run)
    requires Ready(j)
  {
    exists k: nat :: GuestRun(j, g0, host, k).Next? && OnTarget(j, r, GuestRun(j, g0, host, k).state)
  }

  /** If it is the first statement of an instruction, the guest has been at that instruction, with
      the same registers and memory, and every constant tracked there is in its register. */
  ghost predicate AtEntry(j: Job, g0: State, host: Host, r: Run)
    requires Ready(j)
  {
    Opens(j, r) ==> exists k: nat :: GuestRun(j, g0, host, k).Next? && Entered(j, r, GuestRun(j, g0, host, k).state)
  }

  ghost predicate AtGuest(j: Job, c0: Frame, g0: State, host: Host, n: nat)
    requires Ready(j)
  {
    AtDispatch(j, g0, host, RunOf(j, c0, host, n)) && AtEntry(j, g0, host, RunOf(j, c0, host, n))
  }

  ghost predicate AtGuestBefore(j: Job, c0: Frame, g0: State, host: Host, n: nat)
    requires Ready(j)
  {
    forall m: nat :: m < n ==> AtGuest(j, c0, g0, host, m)
  }

  lemma EntryIsGuests(j: Job, g0: State, host: Host, r: Run, k: nat)
    requires Ready(j) && GuestRun(j, g0, host, k).Next? && Fresh(j, r, GuestRun(j, g0, host, k).state)
    ensures AtEntry(j, g0, host, r)
  {
    hide Caches, Opens, Entered, CachedRun;
  }

  lemma OneOnTheWay(j: Job, c0: Frame, g0: State, host: Host, r: Run, i: nat, k: nat)
    requires Ready(j) && GuestRun(j, g0, host, k).Next? && AtEntry(j, g0, host, r)
    requires OnTheWay(j, r, RunOf(j, c0, host, i), GuestRun(j, g0, host, k).state)
    ensures AtGuest(j, c0, g0, host, i)
  {
    hide Caches, Output, Steps, OnTarget, Opens, Entered, CachedRun;
  }

  /** m further statements on the way to the guest's state after k instructions. */
  lemma ExtendsClean(j: Job, c0: Frame, g0: State, host: Host, n: nat, m: nat, k: nat)
    requires Ready(j) && AtGuestBefore(j, c0, g0, host, n) && GuestRun(j, g0, host, k).Next?
    requires Clean(j, RunOf(j, c0, host, n), host, m, GuestRun(j, g0, host, k).state)
    requires m == 0 || AtEntry(j, g0, host, RunOf(j, c0, host, n))
    ensures AtGuestBefore(j, c0, g0, host, n + m) && RunOf(j, c0, host, n + m) == Steps(Output(j), RunOf(j, c0, host, n), host, m)
  {
    hide Caches, Output, Steps, OnTheWay, GuestRun, AtGuest, AtEntry;
    StepsCompose(Output(j), At(0, c0), host, n, m);
    forall i: nat | i < n + m
      ensures AtGuest(j, c0, g0, host, i)
    {
      if i >= n {
        StepsCompose(Output(j), At(0, c0), host, n, i - n);
        assert i - n < m;
        OneOnTheWay(j, c0, g0, host, RunOf(j, c0, host, n), i, k);
      }
    }
  }

  /** After n statements the generated program is where the guest is after k instructions, and
      it has been there at every dispatch and every entry of an instruction before. */
  ghost predicate Together(j: Job, c0: Frame, g0: State, host: Host, n: nat, k: nat)
    requires Ready(j)
  {
    Keeps(j, RunOf(j, c0, host, n), GuestRun(j, g0, host, k), Mode(j, g0, host, k)) && AtGuestBefore(j, c0, g0, host, n)
  }

  lemma FirstTogether(j: Job, c0: Frame, g0: State, host: Host) returns (n: nat)
    requires Setting(j, c0, g0, host)
    ensures Together(j, c0, g0, host, n, 0)
  {
    hide Linked, Output, WellBehaved, Compiles, Caches, CachedStep, Clean, OnTarget, Step, Opens, Entered, Leads, NextMode;
    assert GuestRun(j, g0, host, 0) == Next(g0);
    assert RunOf(j, c0, host, 0) == At(0, c0);
    FineLands(j, g0, host, Mode(j, g0, host, 0));
    n := Arrives(j, c0, g0, host);
    ExtendsClean(j, c0, g0, host, 0, n, 0);
  }

  lemma FineLands(j: Job, g: State, host: Host, code: bool)
    requires Ready(j) && Fine(j, g, host, code)
    ensures Lands(j, g.pc)
  {
    hide Caches, InstrAt, Exec, FaithfulRem, FaithfulJalr, FaithfulCall, ImageAt;
  }

  /** One more guest instruction, while the guest is in the text. */
  lemma NextTogether(j: Job, c0: Frame, g0: State, host: Host, n: nat, k: nat) returns (n': nat)
    requires Setting(j, c0, g0, host) && Together(j, c0, g0, host, n, k)
    requires GuestRun(j, g0, host, k).Next? && GuestRun(j, g0, host, k).state.pc != j.text.End()
    ensures n <= n' && Together(j, c0, g0, host, n', k + 1)
    ensures n < n' || RunsOn(InstrAt(j, GuestRun(j, g0, host, k).state).op)
  {
    hide Linked, Output, Exec, InstrAt, Compiles, Caches, CachedStep, FaithfulRem, FaithfulJalr, FaithfulCall, ImageAt, Fresh,
      Lands, RunsOn, Steps, Clean, AtGuestBefore, AtEntry, NextMode, Leads;
    var g, code := GuestRun(j, g0, host, k).state, Mode(j, g0, host, k);
    assert Fine(j, g, host, code);
    CachedIsExec(j, g, host);
    var m := LinkedSteps(j, RunOf(j, c0, host, n), g, host, code);
    if m > 0 {
      EntryIsGuests(j, g0, host, RunOf(j, c0, host, n), k);
    }
    ExtendsClean(j, c0, g0, host, n, m, if Exec(InstrAt(j, g), g, host).Next? then k + 1 else k);
    n' := n + m;
  }

  /** Every guest run is followed: for every k there is a number of statements after which the
      generated program is where the guest is (or has ended as the guest did). */
  lemma {:induction false} GuestIsFollowed(j: Job, c0: Frame, g0: State, host: Host, k: nat) returns (n: nat)
    requires Setting(j, c0, g0, host)
    ensures GuestRun(j, g0, host, k).Fault? || Together(j, c0, g0, host, n, k)
    decreases k
  {
    hide Behaves, Compiles, Caches, Keeps, Output, CachedStep, Steps, Mode, AtGuestBefore;
    if k == 0 {
      n := FirstTogether(j, c0, g0, host);
    } else {
      n := GuestIsFollowed(j, c0, g0, host, k - 1);
      if GuestRun(j, g0, host, k - 1).Next? && !GuestRun(j, g0, host, k).Fault? {
        NotYetAtEnd(j, g0, host, k - 1);
        n := NextTogether(j, c0, g0, host, n, k - 1);
      } else if GuestRun(j, g0, host, k - 1).Exited? {
        StillEnded(j, c0, g0, host, n, k - 1);
      }
    }
  }

  lemma StillEnded(j: Job, c0: Frame, g0: State, host: Host, n: nat, k: nat)
    requires Ready(j) && Together(j, c0, g0, host, n, k) && GuestRun(j, g0, host, k).Exited?
    ensures Together(j, c0, g0, host, n, k + 1)
  {
    hide Caches, Output, Steps, Linked, AtGuestBefore, CachedStep, NextMode, Leads;
  }

  lemma NotYetAtEnd(j: Job, g0: State, host: Host, k: nat)
    requires GuestRun(j, g0, host, k).Next? && !GuestRun(j, g0, host, k + 1).Fault? && |j.instrs| == |j.text.words|
    requires j.text.Placed()
    ensures GuestRun(j, g0, host, k).state.pc != j.text.End()
  {
    hide Exec;
  }

  // ---- every run of the generated program is a run of the guest ----

  /** Together, or the program has returned where the guest reached the end of the text. */
  ghost predicate Matches(j: Job, c0: Frame, g0: State, host: Host, n: nat, k: nat)
    requires Ready(j)
  {
    || Together(j, c0, g0, host, n, k)
    || (&& GuestRun(j, g0, host, k).Next? && GuestRun(j, g0, host, k).state.pc == j.text.End()
        && Leaves(RunOf(j, c0, host, n), GuestRun(j, g0, host, k).state) && AtGuestBefore(j, c0, g0, host, n))
  }

  lemma StraightAdvances(j: Job, g: State, host: Host)
    requires Ready(j) && j.text.At(g.pc) && RunsOn(InstrAt(j, g).op) && Exec(InstrAt(j, g), g, host).Next?
    ensures IndexOf(j, g.pc) < IndexOf(j, Exec(InstrAt(j, g), g, host).state.pc)
  {
    hide Caches, Effect, InstrAt, RunsOn, Decodable;
    var i := InstrAt(j, g);
    InstrFacts(j, g);
    ExecIsRetired(i, g, host);
    EffectKeepsPc(i, g, host);
    RetiredPc(Effect(i, g, host).state, g.pc);
  }

  lemma LinkedIsAt(j: Job, r: Run, g: State, code: bool)
    requires Ready(j) && Linked(j, r, g, code)
    ensures r.At?
  {
    hide Caches, Agrees, Sound, Start, Entry, TrackAt;
  }

  lemma IndexAtMost(j: Job, g: State, host: Host, code: bool)
    requires Ready(j) && Fine(j, g, host, code)
    ensures IndexOf(j, g.pc) <= |j.instrs|
  {
    hide Caches, WellBehaved;
    FineLands(j, g, host, code);
    LandsIndex(j, g.pc);
  }

  /** From a common point the program takes at least one more statement to the next one:
      instructions without code run on, and the text is finite. */
  lemma {:induction false} MovesOn(j: Job, c0: Frame, g0: State, host: Host, n: nat, k: nat) returns (n': nat, k': nat)
    requires Setting(j, c0, g0, host) && Together(j, c0, g0, host, n, k) && GuestRun(j, g0, host, k).Next?
    ensures n < n' && Matches(j, c0, g0, host, n', k')
    decreases |j.instrs| - IndexOf(j, GuestRun(j, g0, host, k).state.pc)
  {
    hide Output, Steps, Linked, Caches, Compiles, WellBehaved, Leaves, AtGuestBefore, IndexOf, RunsOn, InstrAt, CachedStep, Exec, Mode;
    var g := GuestRun(j, g0, host, k).state;
    assert Fine(j, g, host, Mode(j, g0, host, k));
    if g.pc == j.text.End() {
      var m := ReturnsTogether(j, c0, g0, host, n, k);
      n', k' := n + m, k;
    } else {
      k' := k + 1;
      n' := NextTogether(j, c0, g0, host, n, k);
      if n' == n {
        LinkedIsAt(j, RunOf(j, c0, host, n), g, Mode(j, g0, host, k));
        StepsForward(j, g0, host, k);
        IndexAtMost(j, GuestRun(j, g0, host, k + 1).state, host, Mode(j, g0, host, k + 1));
        n', k' := MovesOn(j, c0, g0, host, n, k + 1);
      }
    }
  }

  lemma StepsForward(j: Job, g0: State, host: Host, k: nat)
    requires Ready(j) && GuestRun(j, g0, host, k).Next? && GuestRun(j, g0, host, k + 1).Next?
    requires Fine(j, GuestRun(j, g0, host, k).state, host, Mode(j, g0, host, k))
    requires GuestRun(j, g0, host, k).state.pc != j.text.End()
    requires j.text.At(GuestRun(j, g0, host, k).state.pc) ==> RunsOn(InstrAt(j, GuestRun(j, g0, host, k).state).op)
    ensures IndexOf(j, GuestRun(j, g0, host, k).state.pc) < IndexOf(j, GuestRun(j, g0, host, k + 1).state.pc)
  {
    hide Caches, Exec, RunsOn, InstrAt, FaithfulRem, FaithfulJalr, FaithfulCall, ImageAt, Lands, IndexOf, CachedStep, Mode;
    var g := GuestRun(j, g0, host, k).state;
    CachedIsExec(j, g, host);
    StraightAdvances(j, g, host);
  }

  lemma ReturnsTogether(j: Job, c0: Frame, g0: State, host: Host, n: nat, k: nat) returns (m: nat)
    requires Ready(j) && Together(j, c0, g0, host, n, k)
    requires GuestRun(j, g0, host, k).Next? && GuestRun(j, g0, host, k).state.pc == j.text.End()
    ensures 0 < m && Leaves(RunOf(j, c0, host, n + m), GuestRun(j, g0, host, k).state) && AtGuestBefore(j, c0, g0, host, n + m)
  {
    hide Caches, Linked, Output, Steps, Leaves, CachedStep, AtGuestBefore, Clean, Mode, Fresh, AtEntry;
    m := EndReturns(j, RunOf(j, c0, host, n), GuestRun(j, g0, host, k).state, host, Mode(j, g0, host, k));
    EntryIsGuests(j, g0, host, RunOf(j, c0, host, n), k);
    ExtendsClean(j, c0, g0, host, n, m, k);
  }

  /** Every run of the generated program is matched: at or after any number of statements it
      is where the guest is after some number of instructions. */
  lemma {:induction false} RunIsMatched(j: Job, c0: Frame, g0: State, host: Host, least: nat) returns (n: nat, k: nat)
    requires Setting(j, c0, g0, host)
    ensures least <= n && Matches(j, c0, g0, host, n, k)
    decreases least
  {
    hide Behaves, Compiles, Caches, Output, CachedStep, Steps, Linked, Leaves, AtGuestBefore, Mode;
    if least == 0 {
      n := FirstTogether(j, c0, g0, host);
      k := 0;
    } else {
      n, k := RunIsMatched(j, c0, g0, host, least - 1);
      if n == least - 1 {
        if RunOf(j, c0, host, n).At? {
          MatchedAt(j, c0, g0, host, n, k);
          n, k := MovesOn(j, c0, g0, host, n, k);
        } else {
          StaysFinished(j, c0, host, n, least);
          MatchedOn(j, c0, g0, host, n, k);
          n := least;
        }
      }
    }
  }

  lemma MatchedOn(j: Job, c0: Frame, g0: State, host: Host, n: nat, k: nat)
    requires Ready(j) && Matches(j, c0, g0, host, n, k) && !RunOf(j, c0, host, n).At?
    requires RunOf(j, c0, host, n + 1) == RunOf(j, c0, host, n)
    ensures Matches(j, c0, g0, host, n + 1, k)
  {
    hide Caches, Output, Steps, Linked, CachedRun, AtGuest, Mode;
    assert AtGuest(j, c0, g0, host, n) by {
      NoTarget(j, c0, g0, host, n);
    }
  }

  lemma NoTarget(j: Job, c0: Frame, g0: State, host: Host, n: nat)
    requires Ready(j) && !RunOf(j, c0, host, n).At?
    ensures AtGuest(j, c0, g0, host, n)
  {
    hide Caches, Output, Steps, CachedStep, Agrees, Code, StartsAt;
    assert GuestRun(j, g0, host, 0).Next?;
  }

  lemma MatchedAt(j: Job, c0: Frame, g0: State, host: Host, n: nat, k: nat)
    requires Ready(j) && Matches(j, c0, g0, host, n, k) && RunOf(j, c0, host, n).At?
    ensures Together(j, c0, g0, host, n, k) && GuestRun(j, g0, host, k).Next?
  {
    hide Caches, Output, Steps, Linked, CachedStep, AtGuestBefore, Mode;
  }

  lemma StaysFinished(j: Job, c0: Frame, host: Host, n: nat, m: nat)
    requires Ready(j) && n <= m && !RunOf(j, c0, host, n).At?
    ensures RunOf(j, c0, host, m) == RunOf(j, c0, host, n)
  {
    hide Caches, Output, Steps;
    StepsCompose(Output(j), At(0, c0), host, n, m - n);
    FinishedStays(Output(j), RunOf(j, c0, host, n), host, m - n);
  }

  lemma AlwaysAtGuest(j: Job, c0: Frame, g0: State, host: Host, n: nat)
    requires Setting(j, c0, g0, host)
    ensures Ready(j) && AtGuest(j, c0, g0, host, n)
  {
    hide Setting, Caches, AtGuest, Keeps, CachedRun, RunOf, Leaves, Mode;
    SettingReady(j, c0, g0, host);
    var m, k := RunIsMatched(j, c0, g0, host, n + 1);
  }

  /** Straight-line code leaves `ctx.pc` stale, but at every dispatch and at every entry to the
      fallback, in every run, it is the guest's pc and the dispatch index is its table index. */
  lemma DispatchesAtGuest(j: Job, c0: Frame, g0: State, host: Host, n: nat)
    requires Setting(j, c0, g0, host)
    ensures Ready(j) && AtDispatch(j, g0, host, RunOf(j, c0, host, n))
  {
    hide Setting, Caches, CachedRun, RunOf, AtDispatch, AtEntry;
    AlwaysAtGuest(j, c0, g0, host, n);
  }

  /** Constant tracking is sound on every path: whenever, in any run, control is at the first
      statement of an instruction, however it got there, the guest has been at that instruction
      with the same registers, and each register tracked there holds its tracked value. */
  lemma TrackingSoundOnEveryPath(j: Job, c0: Frame, g0: State, host: Host, n: nat, k: nat) returns (at: nat)
    requires Setting(j, c0, g0, host) && k < |j.instrs| && Ready(j)
    requires RunOf(j, c0, host, n).At? && Opening(j.cfg, j.instrs, k, RunOf(j, c0, host, n).pos)
    ensures GuestRun(j, g0, host, at).Next?
    ensures var g := GuestRun(j, g0, host, at).state;
      && g.pc == j.text.start + 4 * k && Agrees(j.cfg, RunOf(j, c0, host, n).c, g)
      && Sound(Entry(j.cfg, TrackAt(j.cfg, j.instrs, k), j.instrs[k]), g.regs)
  {
    hide Setting, Caches, CachedRun, RunOf, AtDispatch, Agrees, Sound, Entry, TrackAt, Start;
    AlwaysAtGuest(j, c0, g0, host, n);
    var r := RunOf(j, c0, host, n);
    assert StartsAt(j.cfg, j.instrs, r.pos);
    at :| GuestRun(j, g0, host, at).Next? && Entered(j, r, GuestRun(j, g0, host, at).state);
    var g := GuestRun(j, g0, host, at).state;
    LandsIndex(j, g.pc);
    OneOpening(j.cfg, j.instrs, k, IndexOf(j, g.pc), r.pos);
  }

  // ---- results ----

  /** What a finished program leaves behind. */
  datatype Result = Finished(regs: Regs, mem: Mem, world: World) | Halted(mem: Mem, world: World)

  function ResultOf(r: Run): Option<Result> {
    match r
    case Returned(c) => Some(Finished(c.ctx, c.mem, c.world))
    case Ended(mem, world) => Some(Halted(mem, world))
    case _ => None
  }

  function GuestResult(t: Text, o: Outcome<State>): Option<Result> {
    match o
    case Next(g) => if g.pc == t.End() then Some(Finished(g.regs, g.mem, g.world)) else None
    case Exited(mem, world) => Some(Halted(mem, world))
    case Fault => None
  }

  ghost predicate Produces(j: Job, c0: Frame, host: Host, x: Result)
    requires Ready(j)
  {
    exists n: nat :: ResultOf(RunOf(j, c0, host, n)) == Some(x)
  }

  ghost predicate GuestProduces(j: Job, g0: State, host: Host, x: Result) {
    exists k: nat :: GuestResult(j.text, GuestRun(j, g0, host, k)) == Some(x)
  }

  lemma ResultIsGuests(j: Job, c0: Frame, g0: State, host: Host, n: nat) returns (k: nat)
    requires Setting(j, c0, g0, host) && !RunOf(j, c0, host, n).At?
    ensures ResultOf(RunOf(j, c0, host, n)).Some?
    ensures ResultOf(RunOf(j, c0, host, n)) == GuestResult(j.text, GuestRun(j, g0, host, k))
  {
    hide Behaves, Compiles, Caches, Output, CachedStep, Steps, Linked, GuestRun, AtGuestBefore, Mode;
    var m;
    m, k := RunIsMatched(j, c0, g0, host, n);
    StaysFinished(j, c0, host, n, m);
    if GuestRun(j, g0, host, k).Next? && Together(j, c0, g0, host, m, k) {
      LinkedIsAt(j, RunOf(j, c0, host, m), GuestRun(j, g0, host, k).state, Mode(j, g0, host, k));
    }
  }

  lemma GuestResultReached(j: Job, c0: Frame, g0: State, host: Host, k: nat) returns (n: nat)
    requires Setting(j, c0, g0, host) && GuestResult(j.text, GuestRun(j, g0, host, k)).Some?
    ensures ResultOf(RunOf(j, c0, host, n)) == GuestResult(j.text, GuestRun(j, g0, host, k))
  {
    hide Behaves, Compiles, Caches, Output, CachedStep, Steps, Linked, AtGuestBefore, Mode;
    n := GuestIsFollowed(j, c0, g0, host, k);
    if GuestRun(j, g0, host, k).Next? {
      var m := ReturnsTogether(j, c0, g0, host, n, k);
      n := n + m;
    }
  }

  /** Translation preserves meaning: the generated program runs into no undefined behaviour, and
      it produces a result exactly when the guest does, the same one. */
  lemma TranslationPreservesMeaning(j: Job, c0: Frame, g0: State, host: Host, x: Result)
    requires Setting(j, c0, g0, host)
    ensures Produces(j, c0, host, x) <==> GuestProduces(j, g0, host, x)
    ensures forall n: nat :: !RunOf(j, c0, host, n).Undefined?
  {
    hide Setting, Output, CachedStep, Steps, ResultOf, GuestResult, RunOf, GuestRun;
    SettingReady(j, c0, g0, host);
    forall n: nat
      ensures !RunOf(j, c0, host, n).Undefined?
    {
      NoUndefined(j, c0, g0, host, n);
    }
    if Produces(j, c0, host, x) {
      var n: nat :| ResultOf(RunOf(j, c0, host, n)) == Some(x);
      OnlyFinishedHaveResults(RunOf(j, c0, host, n));
      var k := ResultIsGuests(j, c0, g0, host, n);
      assert GuestResult(j.text, GuestRun(j, g0, host, k)) == Some(x);
    }
    if GuestProduces(j, g0, host, x) {
      var k: nat :| GuestResult(j.text, GuestRun(j, g0, host, k)) == Some(x);
      var n := GuestResultReached(j, c0, g0, host, k);
      assert ResultOf(RunOf(j, c0, host, n)) == Some(x);
    }
  }

  lemma OnlyFinishedHaveResults(r: Run)
    ensures ResultOf(r).Some? ==> !r.At?
  {
  }

  lemma NoUndefined(j: Job, c0: Frame, g0: State, host: Host, n: nat)
    requires Setting(j, c0, g0, host)
    ensures !RunOf(j, c0, host, n).Undefined?
  {
    hide Setting, RunOf, GuestRun, GuestResult;
    SettingReady(j, c0, g0, host);
    if !RunOf(j, c0, host, n).At? {
      var k := ResultIsGuests(j, c0, g0, host, n);
    }
  }

  lemma SettingReady(j: Job, c0: Frame, g0: State, host: Host)
    requires Setting(j, c0, g0, host)
    ensures Ready(j)
  {
    hide Behaves, Compiles, Caches;
  }

  // ---- independence of how the text is translated ----

  /** Two translations of the same text, whatever their pinned registers, chaining, leader sets
      and predictions. */
  ghost predicate SameText(j: Job, j': Job) { j.text == j'.text && j.instrs == j'.instrs }

  /** A guest that is well behaved whatever its modes, and so under every translation. */
  ghost predicate BehavesAnyway(j: Job, g0: State, host: Host)
    requires Ready(j)
  {
    forall k: nat :: GuestRun(j, g0, host, k).Next? ==>
      Fine(j, GuestRun(j, g0, host, k).state, host, true) && Fine(j, GuestRun(j, g0, host, k).state, host, false)
  }

  lemma FineForBoth(j: Job, j': Job, g: State, host: Host, code: bool)
    requires Ready(j) && Ready(j') && SameText(j, j') && Fine(j, g, host, code)
    ensures Fine(j', g, host, code)
  {
    hide Caches, Exec, FaithfulRem, FaithfulJalr, SkipsCall, KeptWord, Load;
    if g.pc != j.text.End() {
      assert InstrAt(j, g) == InstrAt(j', g);
      assert FaithfulCall(j, g) == FaithfulCall(j', g);
      assert ImageAt(j, g) == ImageAt(j', g);
    }
  }

  lemma SettingForAny(j: Job, j': Job, c0: Frame, g0: State, host: Host)
    requires Ready(j) && BehavesAnyway(j, g0, host) && Translatable(j') && SameText(j, j') && Starts(c0, g0)
    ensures Setting(j', c0, g0, host)
  {
    hide Caches, Compiles, Fine, CachedStep, Mode;
    forall k: nat | GuestRun(j', g0, host, k).Next?
      ensures Fine(j', GuestRun(j', g0, host, k).state, host, Mode(j', g0, host, k))
    {
      assert GuestRun(j', g0, host, k) == GuestRun(j, g0, host, k);
      FineForBoth(j, j', GuestRun(j, g0, host, k).state, host, Mode(j', g0, host, k));
    }
  }

  /** Options, leaders and profile change how fast the program runs, never its results. */
  lemma TranslationsAgree(j: Job, j': Job, c0: Frame, c0': Frame, g0: State, host: Host, x: Result)
    requires Translatable(j) && Translatable(j') && SameText(j, j') && Starts(c0, g0) && Starts(c0', g0)
    requires BehavesAnyway(j, g0, host)
    ensures Produces(j, c0, host, x) <==> Produces(j', c0', host, x)
  {
    hide Setting, Caches, Compiles, Produces, GuestProduces, BehavesAnyway;
    SettingForAny(j, j, c0, g0, host);
    SettingForAny(j, j', c0', g0, host);
    SameGuest(j, j', g0, host, x);
    TranslationPreservesMeaning(j, c0, g0, host, x);
    TranslationPreservesMeaning(j', c0', g0, host, x);
  }

  lemma SameGuest(j: Job, j': Job, g0: State, host: Host, x: Result)
    requires SameText(j, j')
    ensures GuestProduces(j, g0, host, x) <==> GuestProduces(j', g0, host, x)
  {
    hide CachedRun, GuestResult;
    assert forall k: nat :: GuestRun(j, g0, host, k) == GuestRun(j', g0, host, k);
  }

  // ---- a guest that leaves its text alone ----

  lemma KeptPlaced(j: Job)
    requires Ready(j)
    ensures Kept(j).Placed() && Kept(j).start == j.text.start && Kept(j).End() == j.text.End()
  {
  }

  /** Neither the stores the guest makes nor its calls, with the arguments they are made with, write
      into the text. */
  ghost predicate LeavesTextAlone(j: Job, g0: State, host: Host, n: nat)
    requires Ready(j)
  {
    forall k: nat :: k < n && GuestRun(j, g0, host, k).Next? ==> SparesNext(j, GuestRun(j, g0, host, k).state, host)
  }

  ghost predicate SparesNext(j: Job, g: State, host: Host)
    requires Ready(j)
  {
    g.pc == j.text.End() || (j.text.At(g.pc) && Spares(j.text, InstrAt(j, g), g, host))
  }

  lemma SparesKept(j: Job, i: Instruction, g: State, host: Host)
    requires Ready(j) && Kept(j).Placed() && Spares(j.text, i, g, host)
    ensures Spares(Kept(j), i, g, host)
  {
    hide Caches, Wrap, IsStore, AccessSize;
    KeptPlaced(j);
  }

  /** Then memory holds the image throughout, as the fallback needs it. */
  lemma {:induction false} ImageStays(j: Job, g0: State, host: Host, k: nat)
    requires Ready(j) && Kept(j).Placed() && Kept(j).In(g0.mem) && LeavesTextAlone(j, g0, host, k)
    ensures GuestRun(j, g0, host, k).Next? ==> Kept(j).In(GuestRun(j, g0, host, k).state.mem)
    ensures GuestRun(j, g0, host, k).Next? && j.text.At(GuestRun(j, g0, host, k).state.pc) ==>
      ImageAt(j, GuestRun(j, g0, host, k).state)
  {
    hide Caches, Kept, Spares, ImageAt, Exec, InstrAt, Text.In, CachedStep;
    if k == 0 {
    } else {
      ImageStays(j, g0, host, k - 1);
      if GuestRun(j, g0, host, k).Next? {
        NotYetAtEnd(j, g0, host, k - 1);
        var g := GuestRun(j, g0, host, k - 1).state;
        CachedIsExec(j, g, host);
        SparesKept(j, InstrAt(j, g), g, host);
        StepKeepsText(Kept(j), InstrAt(j, g), g, host);
      }
    }
    if GuestRun(j, g0, host, k).Next? && j.text.At(GuestRun(j, g0, host, k).state.pc) {
      KeptWordAt(j, GuestRun(j, g0, host, k).state);
    }
  }

  // ---- the interpreters ----

  /** The kept word decodes to what the original one did. */
  lemma KeptDecodes(w: Word, a: Word)
    ensures Decode(KeptWord(w), a) == Decode(w, a)
  {
    hide Kind, Row;
    ZeroIsInvalid();
    KindHasNoFence(w);
  }

  lemma RawIsCached(j: Job, g: State, host: Host)
    requires Ready(j) && j.text.At(g.pc) && ImageAt(j, g)
    ensures RawStep(g, host) == CachedStep(j.instrs, j.text.start, g, host)
  {
    hide Caches, Exec, Decode, Load, KeptWord, Decodable;
    LandsIndex(j, g.pc);
    InstrFacts(j, g);
    CachedIsExec(j, g, host);
    KeptDecodes(j.text.words[IndexOf(j, g.pc)], g.pc);
  }

  /** While the words it runs are in memory, the guest run is the run of the fetch-decode
      interpreter from the same memory, undecodable words included. */
  lemma {:induction false} GuestIsInterpreted(j: Job, g0: State, host: Host, k: nat)
    requires Ready(j) && !GuestRun(j, g0, host, k).Fault?
    requires forall m: nat :: m < k && GuestRun(j, g0, host, m).Next? ==> HoldsNext(j, GuestRun(j, g0, host, m).state)
    ensures RawRun(g0, host, k) == GuestRun(j, g0, host, k)
  {
    hide Caches, RawStep, CachedStep, ImageAt;
    if k == 0 {
    } else {
      GuestIsInterpreted(j, g0, host, k - 1);
      if GuestRun(j, g0, host, k - 1).Next? {
        NotYetAtEnd(j, g0, host, k - 1);
        RawIsCached(j, GuestRun(j, g0, host, k - 1).state, host);
      }
    }
  }

  predicate HoldsNext(j: Job, g: State)
    requires Ready(j)
  {
    g.pc == j.text.End() || (j.text.At(g.pc) && ImageAt(j, g))
  }
}
