/** Where things are in the generated code: every label exactly once, blocks one after the
    other, and the exit and fallback blocks at the end. */
module Layout {
  import opened Words
  import opened Isa
  import opened Machine
  import opened Predecode
  import opened Cpp
  import opened Translate
  import opened Generated

  predicate IsMark(s: Stmt) { s.Label? || s.ExitLabel? || s.InvalidLabel? }

  ghost predicate Unmarked(ss: seq<Stmt>) { forall k :: 0 <= k < |ss| ==> !IsMark(ss[k]) }

  // ---- blocks contain no labels ----

  lemma {:induction false} PredictionsUnmarked(cfg: Config, targets: seq<Word>)
    ensures Unmarked(Predictions(cfg, targets))
  {
    if targets == [] {
    } else {
      PredictionsUnmarked(cfg, targets[1..]);
    }
  }

  lemma PartsUnmarked(cfg: Config, i: Instruction)
    ensures Unmarked(LinkStmts(cfg, i)) && Unmarked(IndirectExit(cfg))
    ensures Unmarked(SaveRegisters(cfg)) && Unmarked(RestoreRegisters(cfg))
  {
  }

  lemma OtherBlockUnmarked(cfg: Config, t: Tracking, i: Instruction)
    ensures Unmarked(OtherBlock(cfg, t, i))
  {
    hide Operand, Decimal, DirectTarget, LinkStmts, IndirectExit, SaveRegisters, RestoreRegisters, Predictions, PredictedAt,
      HexSigned, Shift12;
    PartsUnmarked(cfg, i);
    PredictionsUnmarked(cfg, PredictedAt(cfg, i.address));
    match i.op
    case JALR =>
    case ECALL =>
    case INVALID =>
    case _ =>
  }

  lemma ComputeUnmarked(cfg: Config, t: Tracking, i: Instruction)
    ensures IsRegisterOp(i.op) ==> !IsMark(ComputeStmt(cfg, t, i))
    ensures IsImmediateOp(i.op) ==> !IsMark(ComputeImmediateStmt(cfg, t, i))
  {
    hide Operand, Decimal;
  }

  lemma BlockUnmarked(cfg: Config, t: Tracking, i: Instruction)
    ensures Unmarked(Block(cfg, t, i))
  {
    hide ClassOf, Operand, ComputeStmt, ComputeImmediateStmt, OtherBlock, AddressStmt, BranchTest, LoadExpr;
    ComputeUnmarked(cfg, t, i);
    OtherBlockUnmarked(cfg, t, i);
    AddressIsSet(cfg, t, i);
  }

  lemma AddressIsSet(cfg: Config, t: Tracking, i: Instruction)
    ensures AddressStmt(cfg, t, i).Set?
  {
  }

  // ---- positions ----

  /** Position of instruction k; of the exit block for k one past the last. */
  function Start(cfg: Config, instrs: seq<Instruction>, k: nat): nat
    requires k <= |instrs|
  {
    |Prologue(cfg)| + |BodyUpTo(cfg, instrs, k)|
  }

  function InvalidAt(cfg: Config, instrs: seq<Instruction>): nat {
    Start(cfg, instrs, |instrs|) + |ExitBlock(cfg)|
  }

  function FallbackAt(cfg: Config, instrs: seq<Instruction>): nat {
    InvalidAt(cfg, instrs) + 1 + |SaveRegisters(cfg)|
  }

  lemma {:induction false} BodyPrefix(cfg: Config, instrs: seq<Instruction>, k: nat, n: nat)
    requires k <= n <= |instrs|
    ensures |BodyUpTo(cfg, instrs, k)| <= |BodyUpTo(cfg, instrs, n)|
    ensures BodyUpTo(cfg, instrs, n)[..|BodyUpTo(cfg, instrs, k)|] == BodyUpTo(cfg, instrs, k)
    decreases n
  {
    hide Labelled, TrackAt;
    if k == n {
    } else {
      BodyPrefix(cfg, instrs, k, n - 1);
    }
  }

  lemma StartMonotone(cfg: Config, instrs: seq<Instruction>, k: nat, n: nat)
    requires k <= n <= |instrs|
    ensures |Prologue(cfg)| <= Start(cfg, instrs, k) <= Start(cfg, instrs, n)
  {
    hide BodyUpTo, Prologue;
    BodyPrefix(cfg, instrs, k, n);
  }

  /** The first statement of an instruction that has any. */
  ghost predicate StartsAt(cfg: Config, instrs: seq<Instruction>, pos: int) {
    exists k :: 0 <= k < |instrs| && Opening(cfg, instrs, k, pos)
  }

  predicate Opening(cfg: Config, instrs: seq<Instruction>, k: nat, pos: int)
    requires k < |instrs|
  {
    Start(cfg, instrs, k) == pos < Start(cfg, instrs, k + 1)
  }

  /** No instruction starts strictly between two positions. */
  ghost predicate Inside(cfg: Config, instrs: seq<Instruction>, lo: int, hi: int) {
    forall pos :: lo < pos < hi ==> !StartsAt(cfg, instrs, pos)
  }

  lemma InsideNarrower(cfg: Config, instrs: seq<Instruction>, lo: int, hi: int, lo': int, hi': int)
    requires Inside(cfg, instrs, lo, hi) && lo <= lo' && hi' <= hi
    ensures Inside(cfg, instrs, lo', hi')
  {
    hide StartsAt;
  }

  lemma OneOpening(cfg: Config, instrs: seq<Instruction>, k: nat, n: nat, pos: int)
    requires k < |instrs| && n < |instrs| && Opening(cfg, instrs, k, pos) && Opening(cfg, instrs, n, pos)
    ensures k == n
  {
    hide Start;
    if k < n {
      StartMonotone(cfg, instrs, k + 1, n);
    } else if n < k {
      StartMonotone(cfg, instrs, n + 1, k);
    }
  }

  lemma BlockInside(cfg: Config, instrs: seq<Instruction>, k: nat)
    requires k < |instrs|
    ensures Inside(cfg, instrs, Start(cfg, instrs, k), Start(cfg, instrs, k + 1))
  {
    hide Start;
    forall pos | Start(cfg, instrs, k) < pos < Start(cfg, instrs, k + 1)
      ensures !StartsAt(cfg, instrs, pos)
    {
      if StartsAt(cfg, instrs, pos) {
        var n :| 0 <= n < |instrs| && Opening(cfg, instrs, n, pos);
        if n <= k {
          StartMonotone(cfg, instrs, n, k);
        } else {
          StartMonotone(cfg, instrs, k + 1, n);
        }
      }
    }
  }

  /** Nor does one start in front of the first, or behind the last. */
  lemma EndsInside(cfg: Config, instrs: seq<Instruction>, hi: int)
    ensures Inside(cfg, instrs, -1, |Prologue(cfg)|)
    ensures Inside(cfg, instrs, Start(cfg, instrs, |instrs|) - 1, hi)
  {
    hide Start, Prologue;
    forall pos | StartsAt(cfg, instrs, pos)
      ensures |Prologue(cfg)| <= pos < Start(cfg, instrs, |instrs|)
    {
      var n :| 0 <= n < |instrs| && Opening(cfg, instrs, n, pos);
      StartMonotone(cfg, instrs, 0, n);
      StartMonotone(cfg, instrs, n, |instrs|);
      StartMonotone(cfg, instrs, n + 1, |instrs|);
    }
  }

  /** The code of instruction k stands at its position. */
  lemma CodeAt(cfg: Config, instrs: seq<Instruction>, k: nat)
    requires k < |instrs|
    ensures Follows(Code(cfg, instrs), Start(cfg, instrs, k), Labelled(cfg, TrackAt(cfg, instrs, k), instrs[k]))
    ensures Start(cfg, instrs, k) + |Labelled(cfg, TrackAt(cfg, instrs, k), instrs[k])| == Start(cfg, instrs, k + 1)
  {
    hide Labelled, TrackAt, Prologue, ExitBlock, FallbackBlock;
    BodyPrefix(cfg, instrs, k + 1, |instrs|);
    var body, block := BodyUpTo(cfg, instrs, |instrs|), Labelled(cfg, TrackAt(cfg, instrs, k), instrs[k]);
    var m := |BodyUpTo(cfg, instrs, k)|;
    assert body[m..m + |block|] == body[..m + |block|][m..] == block;
    SliceInside(Prologue(cfg), body, ExitBlock(cfg) + FallbackBlock(cfg), m, m + |block|);
    assert Code(cfg, instrs) == Prologue(cfg) + body + (ExitBlock(cfg) + FallbackBlock(cfg));
  }

  lemma SliceInside(a: seq<Stmt>, b: seq<Stmt>, c: seq<Stmt>, lo: nat, hi: nat)
    requires lo <= hi <= |b|
    ensures (a + b + c)[|a| + lo..|a| + hi] == b[lo..hi]
  {
  }

  /** The prologue is at the front, the exit block after the last instruction, then the fallback. */
  lemma EndsAt(cfg: Config, instrs: seq<Instruction>)
    ensures Follows(Code(cfg, instrs), 0, Prologue(cfg))
    ensures Follows(Code(cfg, instrs), Start(cfg, instrs, |instrs|), ExitBlock(cfg))
    ensures Follows(Code(cfg, instrs), InvalidAt(cfg, instrs), FallbackBlock(cfg))
  {
    hide BodyUpTo, Prologue, ExitBlock, FallbackBlock;
    var p, b, e, f := Prologue(cfg), BodyUpTo(cfg, instrs, |instrs|), ExitBlock(cfg), FallbackBlock(cfg);
    SliceInside([], p, b + e + f, 0, |p|);
    assert [] + p + (b + e + f) == Code(cfg, instrs);
    SliceInside(p + b, e, f, 0, |e|);
    assert (p + b) + e + f == Code(cfg, instrs);
    SliceInside(p + b + e, f, [], 0, |f|);
    assert (p + b + e) + f + [] == Code(cfg, instrs);
  }

  // ---- labels ----

  lemma FindAt(code: seq<Stmt>, s: Stmt, k: nat, pos: nat)
    requires k <= pos < |code| && code[pos] == s
    requires forall j :: k <= j < pos ==> code[j] != s
    ensures Find(code, s, k) == Some(pos)
    decreases pos - k
  {
    if k == pos {
    } else {
      FindAt(code, s, k + 1, pos);
    }
  }

  /** Labels of the first k instructions are their addresses, and there are no others. */
  lemma {:induction false} BodyMarks(t: Text, cfg: Config, instrs: seq<Instruction>, k: nat)
    requires t.Placed() && Caches(t, instrs) && k <= |instrs|
    ensures forall j :: 0 <= j < |BodyUpTo(cfg, instrs, k)| && IsMark(BodyUpTo(cfg, instrs, k)[j]) ==>
      BodyUpTo(cfg, instrs, k)[j].Label? && t.start <= BodyUpTo(cfg, instrs, k)[j].at < t.start + 4 * k
  {
    hide Decode, Block, TrackAt, Entry;
    if k == 0 {
    } else {
      BodyMarks(t, cfg, instrs, k - 1);
      var i, track := instrs[k - 1], TrackAt(cfg, instrs, k - 1);
      DecodeKeepsAddress(t.words[k - 1], t.start + 4 * (k - 1));
      BlockUnmarked(cfg, Entry(cfg, track, i), i);
      assert BodyUpTo(cfg, instrs, k) == BodyUpTo(cfg, instrs, k - 1) + Labelled(cfg, track, i);
    }
  }

  lemma EndsUnmarked(cfg: Config)
    ensures Unmarked(Prologue(cfg))
    ensures ExitBlock(cfg)[0] == ExitLabel && forall k :: 0 < k < |ExitBlock(cfg)| ==> !IsMark(ExitBlock(cfg)[k])
    ensures FallbackBlock(cfg)[0] == InvalidLabel && forall k :: 0 < k < |FallbackBlock(cfg)| ==> !IsMark(FallbackBlock(cfg)[k])
  {
    hide SaveRegisters, RestoreRegisters;
    PartsUnmarked(cfg, Undecoded(0));
  }

  /** Which statement stands where, by part of the code. */
  lemma CodeParts(cfg: Config, instrs: seq<Instruction>, j: nat)
    requires j < |Code(cfg, instrs)|
    ensures |Code(cfg, instrs)| == InvalidAt(cfg, instrs) + |FallbackBlock(cfg)|
    ensures var n := Start(cfg, instrs, |instrs|);
      && (j < |Prologue(cfg)| ==> Code(cfg, instrs)[j] == Prologue(cfg)[j])
      && (|Prologue(cfg)| <= j < n ==> Code(cfg, instrs)[j] == BodyUpTo(cfg, instrs, |instrs|)[j - |Prologue(cfg)|])
      && (n <= j < n + |ExitBlock(cfg)| ==> Code(cfg, instrs)[j] == ExitBlock(cfg)[j - n])
      && (n + |ExitBlock(cfg)| <= j ==> Code(cfg, instrs)[j] == FallbackBlock(cfg)[j - n - |ExitBlock(cfg)|])
  {
    hide BodyUpTo, Prologue, ExitBlock, FallbackBlock;
  }

  /** The statement is a label, and which one, exactly by position. */
  lemma MarkAt(t: Text, cfg: Config, instrs: seq<Instruction>, j: nat)
    requires t.Placed() && Caches(t, instrs) && j < |Code(cfg, instrs)| && IsMark(Code(cfg, instrs)[j])
    ensures var m := Code(cfg, instrs)[j];
      && (m == ExitLabel ==> j == Start(cfg, instrs, |instrs|))
      && (m == InvalidLabel ==> j == InvalidAt(cfg, instrs))
      && (m.Label? ==> |Prologue(cfg)| <= j < Start(cfg, instrs, |instrs|))
  {
    hide Code, BodyUpTo, Prologue, ExitBlock, FallbackBlock, Caches;
    CodeParts(cfg, instrs, j);
    EndsUnmarked(cfg);
    BodyMarks(t, cfg, instrs, |instrs|);
  }

  ghost predicate OnlyAt(code: seq<Stmt>, s: Stmt, pos: nat) {
    pos < |code| && code[pos] == s && forall j :: 0 <= j < |code| && code[j] == s ==> j == pos
  }

  lemma OnlyAtFinds(code: seq<Stmt>, s: Stmt, pos: nat)
    requires OnlyAt(code, s, pos)
    ensures Find(code, s, 0) == Some(pos)
  {
    FindAt(code, s, 0, pos);
  }

  lemma EndMarks(t: Text, cfg: Config, instrs: seq<Instruction>)
    requires t.Placed() && Caches(t, instrs)
    ensures OnlyAt(Code(cfg, instrs), ExitLabel, Start(cfg, instrs, |instrs|))
    ensures OnlyAt(Code(cfg, instrs), InvalidLabel, InvalidAt(cfg, instrs))
  {
    hide Code, BodyUpTo, Prologue, Caches;
    EndsAt(cfg, instrs);
    EndsUnmarked(cfg);
    forall j | 0 <= j < |Code(cfg, instrs)| && IsMark(Code(cfg, instrs)[j])
      ensures Code(cfg, instrs)[j] == ExitLabel ==> j == Start(cfg, instrs, |instrs|)
      ensures Code(cfg, instrs)[j] == InvalidLabel ==> j == InvalidAt(cfg, instrs)
    {
      MarkAt(t, cfg, instrs, j);
    }
  }

  /** The label of a leader is emitted once, in front of its instruction. */
  lemma LeaderMark(t: Text, cfg: Config, instrs: seq<Instruction>, k: nat)
    requires t.Placed() && Caches(t, instrs) && k < |instrs| && t.start + 4 * k in cfg.leaders
    ensures OnlyAt(Code(cfg, instrs), Label(t.start + 4 * k), Start(cfg, instrs, k))
  {
    hide Code, Caches, Prologue, Start;
    MarkStands(t, cfg, instrs, k);
    forall j | 0 <= j < |Code(cfg, instrs)| && Code(cfg, instrs)[j] == Label(t.start + 4 * k)
      ensures j == Start(cfg, instrs, k)
    {
      MarkAt(t, cfg, instrs, j);
      LabelPlace(t, cfg, instrs, j, |instrs|);
    }
  }

  lemma MarkStands(t: Text, cfg: Config, instrs: seq<Instruction>, k: nat)
    requires t.Placed() && Caches(t, instrs) && k < |instrs| && t.start + 4 * k in cfg.leaders
    ensures Start(cfg, instrs, k) < |Code(cfg, instrs)| && Code(cfg, instrs)[Start(cfg, instrs, k)] == Label(t.start + 4 * k)
    ensures Start(cfg, instrs, |instrs|) <= |Code(cfg, instrs)|
  {
    hide Code, Decode, Block, TrackAt, Prologue, Entry, Start;
    CodeAt(cfg, instrs, k);
    EndsAt(cfg, instrs);
    DecodeKeepsAddress(t.words[k], t.start + 4 * k);
  }

  /** A label in the body stands at the start of the instruction it names, a leader. */
  lemma {:induction false} LabelPlace(t: Text, cfg: Config, instrs: seq<Instruction>, j: nat, n: nat)
    requires t.Placed() && Caches(t, instrs) && 0 < n <= |instrs|
    requires |Prologue(cfg)| <= j < Start(cfg, instrs, n) <= |Code(cfg, instrs)| && Code(cfg, instrs)[j].Label?
    ensures var at := Code(cfg, instrs)[j].at;
      at in cfg.leaders && t.At(at) && j == Start(cfg, instrs, (at - t.start) / 4)
    decreases n
  {
    hide Code, Decode, Block, TrackAt, Prologue, Entry;
    if j < Start(cfg, instrs, n - 1) {
      LabelPlace(t, cfg, instrs, j, n - 1);
    } else {
      CodeAt(cfg, instrs, n - 1);
      DecodeKeepsAddress(t.words[n - 1], t.start + 4 * (n - 1));
      var i, track := instrs[n - 1], TrackAt(cfg, instrs, n - 1);
      var pos, block := Start(cfg, instrs, n - 1), Labelled(cfg, track, i);
      BlockUnmarked(cfg, Entry(cfg, track, i), i);
      assert Code(cfg, instrs)[j] == Code(cfg, instrs)[pos..pos + |block|][j - pos] == block[j - pos];
    }
  }
}
