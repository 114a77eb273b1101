/** What every pattern built by the constructors satisfies: its jumps are well placed, it computes its
    expression, and its union alternatives, if any, can be taken apart. */
module LpegInvariant {
  import opened LpegCode
  import opened LpegSemantics
  import opened LpegMachine
  import opened LpegBehaviour
  import opened LpegRewrite
  import opened LpegCompile

  // ----- well-formed code -----

  /** The opcode of a set tells whether the set holds NUL. */
  predicate KindOk(k: CheckKind) {
    match k
    case KAny(n) => 1 <= n <= UCHAR_MAX
    case KChar(_) => true
    case KSet(cs, nul) => nul == (0 in cs)
  }

  predicate OpOk(op: Op) {
    match op
    case Check(k) => KindOk(k)
    case Test(k) => KindOk(k)
    case Span(cs, nul) => nul == (0 in cs)
    case Cap(_, _, _, n) => n <= MAXOFF
    case Call => false
    case Ret => false
    case _ => true
  }

  /** Only loops jump back: to their test, or behind their choice. */
  predicate BackTarget(c: Code, t: int) {
    0 <= t < |c| && (c[t].op.Test? || (t >= 1 && c[t - 1].op.Choice? && !c[t].op.Jmp?))
  }

  predicate JumpOk(c: Code, i: int)
    requires 0 <= i < |c|
  {
    var t := i + c[i].off;
    0 <= t <= |c| && (t <= i ==> BackTarget(c, t) && (c[i].op.Jmp? ==> c[t].op.Test?))
  }

  /** A partial commit goes on inside the code, and not at an unconditional jump. */
  predicate UpdateOk(c: Code, i: int)
    requires 0 <= i < |c|
  {
    var t := i + c[i].off;
    0 <= t < |c| && !c[t].op.Jmp?
  }

  predicate InstrOk(c: Code, i: int)
    requires 0 <= i < |c|
  {
    OpOk(c[i].op) && (IsJmp(c[i].op) ==> JumpOk(c, i)) && (c[i].op.PartialCommit? ==> UpdateOk(c, i))
  }

  predicate FirstOk(c: Code) {
    |c| > 0 ==>
      !c[0].op.Jmp? && c[0].op != Fail(true) &&
      (NoZero(c) || (c[0].op.Test? && FirstPart(c) == 0))
  }

  predicate AllOk(c: Code) {
    forall i {:trigger InstrOk(c, i)} :: 0 <= i < |c| ==> InstrOk(c, i)
  }

  predicate WF(c: Code) {
    AllOk(c) && FirstOk(c)
  }

  lemma WFProgress(c: Code)
    requires AllOk(c)
    ensures Progress(c) && InRange(c)
  {
    forall i | 0 <= i < |c| && IsJmp(c[i].op)
      ensures JumpOk(c, i)
    {
      assert InstrOk(c, i);
    }
  }

  /** On well-formed checks the machine's unchecked reads agree with the meaning of the check. */
  lemma PassesIsMatches(m: Mode, k: CheckKind, s: int)
    requires KindOk(k) && ValidPos(m, s)
    ensures Passes(m, k, s) == Matches(m, k, s)
    ensures Passes(m, k, s) ==> StepOf(k) >= 1 && ValidPos(m, s + StepOf(k))
    ensures Passes(m, k, s) ==> s < |m.subj| && m.subj[s] in FillCharset(k)
  {
  }

  lemma InstrOkAt(P: Code, at: int, c: Code, i: int)
    requires 0 <= at && at + |c| <= |P| && P[at..at + |c|] == c
    requires 0 <= i < |c| && InstrOk(c, i)
    ensures InstrOk(P, at + i)
  {
    assert forall j {:trigger c[j]} :: 0 <= j < |c| ==> c[j] == P[at + j];
  }

  // ----- the alternatives of a union -----

  /** How the first alternative ends: at its final jump or commit, at the next alternative, or failing. */
  datatype PartEnd = Thru(s: int, d: seq<Capture>) | Other(s: int, d: seq<Capture>) | Lost

  ghost predicate EndsAt(m: Mode, x: Code, commit: bool, s: int, caps: seq<Capture>, pe: PartEnd) {
    var st := Run(0, s, [], caps);
    match pe
    case Thru(s1, d) =>
      if commit then exists f: Frame :: f.Back? && Reach(m, x, |caps|, st, Run(|x|, s1, [f], caps + d))
      else Reach(m, x, |caps|, st, Run(|x|, s1, [], caps + d))
    case Other(s1, d) => Reach(m, x, |caps|, st, Run(|x| + 1, s1, [], caps + d))
    case Lost => Reach(m, x, |caps|, st, Failing([]))
  }

  ghost predicate Ends(m: Mode, x: Code, commit: bool, s: int, pe: PartEnd) {
    forall caps: seq<Capture> :: EndsAt(m, x, commit, s, caps, pe)
  }

  ghost predicate PartReach(m: Mode, c: Code, sp: nat, s: int, pe: PartEnd)
    requires 0 < sp <= |c|
  {
    Ends(m, c[..sp - 1], c[sp - 1].op.Commit?, s, pe)
  }

  /** What the end of the first alternative says about the whole (`e`) and the other alternatives (`et`). */
  ghost predicate PartCond(m: Mode, c: Code, sp: nat, e: Expr, et: Expr, s: int, pe: PartEnd)
    requires 0 < sp <= |c| && ValidPos(m, s)
  {
    var commit := c[sp - 1].op.Commit?;
    (!commit ==> c[0].op.Test?) &&
    match pe
    case Thru(s1, d) => Eval(e, m, s) == Succ(s1, d)
    case Other(s1, d) =>
      ValidPos(m, s1) && Eval(e, m, s) == Prepend(d, Eval(et, m, s1)) &&
      ((s1 == s && d == []) || !Eval(et, m, s1).Failure?) &&
      (!commit ==> !Passes(m, c[0].op.k, s) || NoFail(c[..sp]))
    case Lost =>
      !commit && Passes(m, c[0].op.k, s) && Eval(e, m, s).Failure? && Eval(et, m, s).Failure?
  }

  ghost predicate PartRuns(m: Mode, c: Code, sp: nat, e: Expr, et: Expr, s: int)
    requires 0 < sp <= |c| && ValidPos(m, s)
  {
    !Eval(e, m, s).Diverge? ==> forall caps: seq<Capture> :: PartRun(m, c, sp, e, et, s, caps)
  }

  ghost predicate PartRun(m: Mode, c: Code, sp: nat, e: Expr, et: Expr, s: int, caps: seq<Capture>)
    requires 0 < sp <= |c| && ValidPos(m, s)
  {
    exists pe: PartEnd ::
      PartCond(m, c, sp, e, et, s, pe) && EndsAt(m, c[..sp - 1], c[sp - 1].op.Commit?, s, caps, pe)
  }

  /** The alternative ends in the same way whatever was captured before. */
  lemma PartReachRuns(m: Mode, c: Code, sp: nat, e: Expr, et: Expr, s: int, pe: PartEnd)
    requires 0 < sp <= |c| && ValidPos(m, s)
    requires PartCond(m, c, sp, e, et, s, pe) && PartReach(m, c, sp, s, pe)
    ensures PartRuns(m, c, sp, e, et, s)
  {
    forall caps: seq<Capture>
      ensures PartRun(m, c, sp, e, et, s, caps)
    {
      assert EndsAt(m, c[..sp - 1], c[sp - 1].op.Commit?, s, caps, pe);
    }
  }

  predicate IsEmptySet(op: Op) {
    (op.Check? || op.Test?) && op.k.KSet? && op.k.cs == {}
  }

  predicate EmptyAt(c: Code, i: int) {
    0 <= i < |c| && IsEmptySet(c[i].op)
  }

  predicate HasEmptySet(c: Code) {
    exists i :: 0 <= i < |c| && EmptyAt(c, i)
  }

  /** A jump-ended alternative that may fail starts with a one-byte test, unless an empty set is around. */
  predicate OneByte(c: Code, sp: nat)
    requires 0 < sp <= |c|
  {
    c[sp - 1].op.Jmp? && !NoFail(c[..sp]) && c[0].op.Test? ==> StepOf(c[0].op.k) == 1 || HasEmptySet(c)
  }

  /** The first alternative jumps only inside itself and to the next one. */
  predicate PartJumps(c: Code, sp: nat)
    requires sp <= |c|
  {
    forall i :: 0 <= i < sp - 1 && IsJmp(c[i].op) ==>
      i + c[i].off <= sp && (c[i].op.PartialCommit? ==> i + c[i].off < sp) &&
      (i > 0 && c[sp - 1].op.Jmp? && !NoFail(c[..sp]) ==> i + c[i].off < sp)
  }

  ghost predicate Part(c: Code, sp: nat, e: Expr, et: Expr)
    requires 0 < sp <= |c|
  {
    OneByte(c, sp) && PartJumps(c, sp) &&
    forall m: Mode, s: int {:trigger PartRuns(m, c, sp, e, et, s)} :: ValidPos(m, s) ==> PartRuns(m, c, sp, e, et, s)
  }

  /** `c` computes `es[0]`; the code behind its first alternative computes `es[1]`, and so on. */
  ghost predicate Inv(c: Code, es: seq<Expr>)
    decreases |c|
  {
    |es| > 0 && WF(c) && Correct(c, es[0]) &&
    var sp := FirstPart(c);
    sp > 0 ==> |es| > 1 && Part(c, sp, es[0], es[1]) && Inv(c[sp..], es[1..])
  }

  lemma ShiftZero(st: State)
    ensures Shift(st, 0, []) == st
  {
    if !st.Stuck? {
      assert ShiftStk(st.stk, 0) + [] == st.stk;
    }
  }

  /** The first alternative run inside the whole union. */
  lemma PartAt(m: Mode, c: Code, sp: nat, caps: seq<Capture>, st: State, fin: State)
    requires 0 < sp <= |c|
    requires Reach(m, c[..sp - 1], |caps|, st, fin) && !fin.Stuck?
    ensures Reach(m, c, |caps|, st, fin)
  {
    var x := c[..sp - 1];
    assert c[0..0 + |x|] == x;
    ReachAt(m, c, |caps|, 0, x, st, [], |caps|, fin);
    ShiftZero(st);
    ShiftZero(fin);
  }

  /** The final jump or commit of the first alternative leaves the union. */
  lemma LeaveUnion(m: Mode, c: Code, sp: nat, caps: seq<Capture>, mid: State)
    requires sp == FirstPart(c) > 0
    requires mid.Run? && mid.p == sp - 1
    requires if c[sp - 1].op.Commit? then |mid.stk| == 1 && mid.stk[0].Back? else mid.stk == []
    ensures Reach(m, c, |caps|, mid, Run(|c|, mid.s, [], mid.caps))
  {
    if c[sp - 1].op.Commit? {
      assert mid.stk[1..] == [];
    }
    assert Step(m, c, |caps|, mid) == Run(|c|, mid.s, [], mid.caps);
    Tick(m, c, |caps|, mid);
  }

  lemma PartsThru(m: Mode, c: Code, sp: nat, s: int, s1: int, d: seq<Capture>, caps: seq<Capture>)
    requires sp == FirstPart(c) > 0
    requires EndsAt(m, c[..sp - 1], c[sp - 1].op.Commit?, s, caps, Thru(s1, d))
    ensures Reach(m, c, |caps|, Run(0, s, [], caps), Run(|c|, s1, [], caps + d))
  {
    var x := c[..sp - 1];
    var st := Run(0, s, [], caps);
    var stk: seq<Frame> := [];
    if c[sp - 1].op.Commit? {
      var f: Frame :| f.Back? && Reach(m, x, |caps|, st, Run(|x|, s1, [f], caps + d));
      stk := [f];
    }
    var mid := Run(|x|, s1, stk, caps + d);
    PartAt(m, c, sp, caps, st, mid);
    LeaveUnion(m, c, sp, caps, mid);
    Chain(m, c, |caps|, st, mid, Run(|c|, s1, [], caps + d));
  }

  lemma PartsOther(m: Mode, c: Code, sp: nat, et: Expr, s: int, s1: int, d: seq<Capture>, caps: seq<Capture>)
    requires 0 < sp <= |c| && ValidPos(m, s1)
    requires EndsAt(m, c[..sp - 1], c[sp - 1].op.Commit?, s, caps, Other(s1, d))
    requires Correct(c[sp..], et) && !Eval(et, m, s1).Diverge?
    ensures Reach(m, c, |caps|, Run(0, s, [], caps), Final(|c|, [], caps, Prepend(d, Eval(et, m, s1))))
  {
    var st := Run(0, s, [], caps);
    var o := Eval(et, m, s1);
    var fin := Final(|c|, [], caps, Prepend(d, o));
    var mid := Run(sp, s1, [], caps + d);
    PartAt(m, c, sp, caps, st, mid);
    assert Beh(m, c[sp..], s1, o);
    assert c[sp..sp + |c[sp..]|] == c[sp..];
    RunAt(m, c, |caps|, sp, c[sp..], s1, [], caps + d, o);
    assert o.Succ? ==> (caps + d) + o.caps == caps + (d + o.caps);
    Chain(m, c, |caps|, st, mid, fin);
  }

  lemma PartsBeh(m: Mode, c: Code, sp: nat, e: Expr, et: Expr, s: int, pe: PartEnd, caps: seq<Capture>)
    requires sp == FirstPart(c) > 0 && ValidPos(m, s) && !Eval(e, m, s).Diverge?
    requires PartCond(m, c, sp, e, et, s, pe) && EndsAt(m, c[..sp - 1], c[sp - 1].op.Commit?, s, caps, pe)
    requires Correct(c[sp..], et)
    ensures Reach(m, c, |caps|, Run(0, s, [], caps), Final(|c|, [], caps, Eval(e, m, s)))
  {
    match pe
    case Thru(s1, d) => PartsThru(m, c, sp, s, s1, d, caps);
    case Other(s1, d) => PartsOther(m, c, sp, et, s, s1, d, caps);
    case Lost => PartAt(m, c, sp, caps, Run(0, s, [], caps), Failing([]));
  }

  /** A union computes what its first alternative and the rest say. */
  lemma PartsCorrect(c: Code, sp: nat, e: Expr, et: Expr)
    requires sp == FirstPart(c) > 0 && Part(c, sp, e, et) && Correct(c[sp..], et)
    ensures Correct(c, e)
  {
    forall m: Mode, s: int | ValidPos(m, s)
      ensures Beh(m, c, s, Eval(e, m, s))
    {
      assert PartRuns(m, c, sp, e, et, s);
      if !Eval(e, m, s).Diverge? {
        forall caps: seq<Capture>
          ensures Reach(m, c, |caps|, Run(0, s, [], caps), Final(|c|, [], caps, Eval(e, m, s)))
        {
          assert PartRun(m, c, sp, e, et, s, caps);
          var pe: PartEnd :|
            PartCond(m, c, sp, e, et, s, pe) && EndsAt(m, c[..sp - 1], c[sp - 1].op.Commit?, s, caps, pe);
          PartsBeh(m, c, sp, e, et, s, pe, caps);
        }
      }
    }
  }
}
