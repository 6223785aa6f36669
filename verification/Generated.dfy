/** Running a generated program: a machine over positions in its code. */
module Generated {
  import opened Words
  import opened Isa
  import opened Machine
  import opened Interpreter
  import opened Cpp
  import opened Translate

  /** The code, the dispatch table and the position of the dispatch loop head. */
  datatype Program = Program(code: seq<Stmt>, slots: seq<Stmt>, head: nat, start: Word)

  /** At a position, or finished: returned from runTranslated, ended by a system call, or
      run into undefined behaviour (which includes a jump to a label that does not exist). */
  datatype Run = At(pos: nat, c: Frame) | Returned(c: Frame) | Ended(mem: Mem, world: World) | Undefined

  // ---- statements that run on to the next one ----

  predicate Simple(s: Stmt) {
    s.Label? || s.ExitLabel? || s.InvalidLabel? || s.Set? || s.Update? || s.WriteMem? || s.IfElse? || s.Call? || s.Print?
  }

  function AssignValue(x: Var, r: Option<Value>, c: Frame): Outcome<Frame> {
    match r
    case None => Fault
    case Some(v) => Next(Assign(x, Wrap(v.v), c))
  }

  function WriteFrame(size: int, a: Option<Value>, v: Option<Value>, c: Frame): Outcome<Frame> {
    if a.None? || v.None? || size !in {1, 2, 4} || !InBounds(Wrap(a.value.v), size) then Fault
    else Next(c.(mem := Store(c.mem, Wrap(a.value.v), size, Wrap(v.value.v))))
  }

  function CallFrame(num: Word, c: Frame, host: Host): Outcome<Frame> {
    match host(num, c.ctx, c.mem, c.world)
    case Return(a0, mem, world) => Next(c.(ctx := c.ctx[A0 := a0], mem := mem, world := world))
    case Exit(world) => Exited(c.mem, world)
  }

  function Do(s: Stmt, c: Frame, host: Host): Outcome<Frame> {
    match s
    case Set(x, e) => AssignValue(x, Eval(e, c), c)
    case Update(x, op, e) => AssignValue(x, Eval(Bin(op, Get(x), e), c), c)
    case WriteMem(size, a, v) => WriteFrame(size, Eval(a, c), Eval(v, c), c)
    case IfElse(cond, yes, no) =>
      (match Eval(cond, c) case None => Fault case Some(v) => if v.v != 0 then Do(yes, c, host) else Do(no, c, host))
    case Call(num) => CallFrame(if num.Some? then num.value else c.ctx[A7], c, host)
    case _ => Next(c)
  }

  function DoAll(ss: seq<Stmt>, c: Frame, host: Host): Outcome<Frame> {
    if ss == [] then Next(c)
    else match Do(ss[0], c, host) { case Next(c') => DoAll(ss[1..], c', host) case stopped => stopped }
  }

  function ThenAll(o: Outcome<Frame>, rest: seq<Stmt>, host: Host): Outcome<Frame> {
    match o
    case Next(c) => DoAll(rest, c, host)
    case stopped => stopped
  }

  // ---- control ----

  /** First position of a statement at or after k. */
  function Find(code: seq<Stmt>, s: Stmt, k: nat): Option<nat>
    requires k <= |code|
    decreases |code| - k
  {
    if k == |code| then None else if code[k] == s then Some(k) else Find(code, s, k + 1)
  }

  function JumpTo(p: Program, mark: Stmt, c: Frame): Run {
    match Find(p.code, mark, 0)
    case None => Undefined
    case Some(k) => At(k, c)
  }

  /** The guest context as the interpreter fallback sees it. */
  function Context(c: Frame): State { State(c.ctx, c.pc, c.mem, c.world) }

  function DispatchIndex(start: Word, pc: Word): Word { Wrap(pc - start) / 4 }

  /** The loop after one emulated instruction: back at its test with a new index. */
  function Emulated(start: Word, pos: nat, c: Frame, o: Outcome<State>): Run {
    match o
    case Next(s) => At(pos, c.(ctx := s.regs, pc := s.pc, mem := s.mem, world := s.world, index := DispatchIndex(start, s.pc)))
    case Exited(mem, world) => Ended(mem, world)
    case Fault => Undefined
  }

  /** One round of the fallback loop: emulate while the slot is INVALID. */
  function FallbackRound(p: Program, pos: nat, c: Frame, host: Host): Run {
    if c.index >= |p.slots| then Undefined
    else if !p.slots[c.index].InvalidLabel? then At(pos + 1, c)
    else if !InBounds(c.pc, 4) then Undefined
    else Emulated(p.start, pos, c, SwitchExec(Load(c.mem, c.pc, 4), Context(c), host))
  }

  function StepAt(p: Program, pos: nat, c: Frame, host: Host): Run {
    if pos >= |p.code| then Undefined
    else
      var s := p.code[pos];
      if Simple(s) then
        match Do(s, c, host) { case Next(c') => At(pos + 1, c') case Exited(m, w) => Ended(m, w) case Fault => Undefined }
      else match s
        case IfGoto(cond, target) => (match Eval(cond, c)
          case None => Undefined
          case Some(v) => if v.v != 0 then JumpTo(p, Label(target), c) else At(pos + 1, c))
        case Goto(target) => JumpTo(p, Label(target), c)
        case Dispatch => if c.index < |p.slots| then JumpTo(p, p.slots[c.index], c) else Undefined
        case Continue => At(p.head, c)
        case Fallback => FallbackRound(p, pos, c, host)
        case _ => Returned(c)
  }

  function Step(p: Program, r: Run, host: Host): Run {
    if r.At? then StepAt(p, r.pos, r.c, host) else r
  }

  function Steps(p: Program, r: Run, host: Host, n: nat): Run
    decreases n
  {
    if n == 0 then r else Steps(p, Step(p, r, host), host, n - 1)
  }

  lemma {:induction false} StepsCompose(p: Program, r: Run, host: Host, m: nat, n: nat)
    ensures Steps(p, Steps(p, r, host, m), host, n) == Steps(p, r, host, m + n)
    decreases m
  {
    hide Step;
    if m == 0 {
    } else {
      StepsCompose(p, Step(p, r, host), host, m - 1, n);
    }
  }

  lemma {:induction false} FinishedStays(p: Program, r: Run, host: Host, n: nat)
    requires !r.At?
    ensures Steps(p, r, host, n) == r
    decreases n
  {
    if n == 0 {
    } else {
      FinishedStays(p, r, host, n - 1);
    }
  }

  ghost predicate AllSimple(ss: seq<Stmt>) { forall k :: 0 <= k < |ss| ==> Simple(ss[k]) }

  /** The code from pos on begins with these statements. */
  predicate Follows(code: seq<Stmt>, pos: nat, ss: seq<Stmt>) {
    pos + |ss| <= |code| && code[pos..pos + |ss|] == ss
  }

  function Landed(o: Outcome<Frame>, pos: nat): Run {
    match o
    case Next(c) => At(pos, c)
    case Exited(m, w) => Ended(m, w)
    case Fault => Undefined
  }

  /** A straight-line stretch runs as its statements do. */
  lemma {:induction false} RunsStraight(p: Program, pos: nat, ss: seq<Stmt>, c: Frame, host: Host)
    requires Follows(p.code, pos, ss) && AllSimple(ss)
    ensures Steps(p, At(pos, c), host, |ss|) == Landed(DoAll(ss, c, host), pos + |ss|)
    decreases |ss|
  {
    hide Do, Simple, FallbackRound, JumpTo;
    if ss == [] {
    } else {
      assert p.code[pos] == ss[0];
      var o := Do(ss[0], c, host);
      if o.Next? {
        FollowsTail(p.code, pos, ss);
        RunsStraight(p, pos + 1, ss[1..], o.state, host);
      } else {
        FinishedStays(p, Landed(o, pos), host, |ss| - 1);
      }
    }
  }

  lemma FollowsTail(code: seq<Stmt>, pos: nat, ss: seq<Stmt>)
    requires Follows(code, pos, ss) && ss != []
    ensures Follows(code, pos + 1, ss[1..])
  {
    assert code[pos..pos + |ss|][1..] == code[pos + 1..pos + |ss|];
  }

  lemma FollowsHead(code: seq<Stmt>, pos: nat, s: Stmt)
    requires Follows(code, pos, [s])
    ensures pos < |code| && code[pos] == s
  {
    assert code[pos..pos + 1][0] == code[pos];
  }

  lemma FollowsSplit(code: seq<Stmt>, pos: nat, a: seq<Stmt>, b: seq<Stmt>)
    requires Follows(code, pos, a + b)
    ensures Follows(code, pos, a) && Follows(code, pos + |a|, b)
  {
    var all := code[pos..pos + |a + b|];
    assert a == all[..|a|] && b == all[|a|..];
  }

  lemma {:induction false} DoAllAppend(a: seq<Stmt>, b: seq<Stmt>, c: Frame, host: Host)
    ensures DoAll(a + b, c, host) == ThenAll(DoAll(a, c, host), b, host)
    decreases |a|
  {
    hide Do;
    if a == [] {
      assert a + b == b;
    } else {
      assert (a + b)[1..] == a[1..] + b;
      var o := Do(a[0], c, host);
      if o.Next? {
        DoAllAppend(a[1..], b, o.state, host);
      }
    }
  }
}
