/** What it means for a fragment of code to compute an expression, and how such fragments compose. */
module LpegBehaviour {
  import opened LpegCode
  import opened LpegSemantics
  import opened LpegMachine

  /** The state in which a fragment ends: past its end with the stack it started with, or failing. */
  function Final(exit: int, base: seq<Frame>, caps: seq<Capture>, o: Out): State
    requires !o.Diverge?
  {
    if o.Succ? then Run(exit, o.pos, base, caps + o.caps) else Failing(base)
  }

  /** Started at its first instruction at position `s`, the fragment ends with outcome `o`. */
  ghost predicate Beh(m: Mode, c: Code, s: int, o: Out) {
    !o.Diverge? ==>
      forall caps: seq<Capture> {:trigger Final(|c|, [], caps, o)} ::
        Reach(m, c, |caps|, Run(0, s, [], caps), Final(|c|, [], caps, o))
  }

  /** The fragment computes `e`, in every mode, wherever `e` has a result. */
  ghost predicate Correct(c: Code, e: Expr) {
    forall m: Mode, s: int {:trigger Beh(m, c, s, Eval(e, m, s))} :: ValidPos(m, s) ==> Beh(m, c, s, Eval(e, m, s))
  }

  /** A fragment with known behaviour inside other code. */
  lemma RunAt(m: Mode, P: Code, bP: nat, at: int, c: Code, s: int, base: seq<Frame>, caps: seq<Capture>, o: Out)
    requires !o.Diverge? && Beh(m, c, s, o)
    requires 0 <= at && at + |c| <= |P| && P[at..at + |c|] == c
    requires Prot(bP, base) <= |caps|
    ensures Reach(m, P, bP, Run(at, s, base, caps), Final(at + |c|, base, caps, o))
  {
    ReachAt(m, P, bP, at, c, Run(0, s, [], caps), base, |caps|, Final(|c|, [], caps, o));
    assert ShiftStk([], at) + base == base;
  }

  lemma ReachAt(m: Mode, P: Code, bP: nat, at: int, c: Code, st: State, base: seq<Frame>, b: nat, fin: State)
    requires Reach(m, c, b, st, fin) && !fin.Stuck?
    requires 0 <= at && at + |c| <= |P| && P[at..at + |c|] == c
    requires Prot(bP, base) <= b
    ensures Reach(m, P, bP, Shift(st, at, base), Shift(fin, at, base))
  {
    var k: nat :| Iter(m, c, b, st, k) == fin;
    Embed(m, c, P, at, b, bP, st, k, base);
  }

  // ----- the fragment without its first instruction -----

  /** No jump goes back to the first instruction (or before it). */
  predicate NoZero(c: Code) {
    forall i :: 0 <= i < |c| && IsJmp(c[i].op) ==> i + c[i].off >= 1
  }

  predicate FramesFrom(stk: seq<Frame>, lo: int) {
    forall i :: 0 <= i < |stk| ==> stk[i].p >= lo
  }

  predicate From(st: State, lo: int) {
    match st
    case Run(p, _, stk, _) => p >= lo && FramesFrom(stk, lo)
    case Failing(stk) => FramesFrom(stk, lo)
    case Stuck => true
  }

  lemma OnStackFrom(m: Mode, op: Op, next: int, dest: int, s: int, stk: seq<Frame>, caps: seq<Capture>, lo: int)
    requires IsStackOp(op) && next >= lo && (IsJmp(op) ==> dest >= lo) && FramesFrom(stk, lo)
    ensures From(OnStack(m, op, next, dest, s, stk, caps), lo)
  {
  }

  /** Addresses stay at `lo` or above when all jumps lead there. */
  lemma StepFrom(m: Mode, c: Code, b: nat, st: State, lo: int)
    requires From(st, lo) && forall i :: 0 <= i < |c| && IsJmp(c[i].op) ==> i + c[i].off >= lo
    ensures From(Step(m, c, b, st), lo)
  {
    if st.Run? && 0 <= st.p < |c| {
      var op := c[st.p].op;
      assert IsJmp(op) ==> st.p + c[st.p].off >= lo;
      if IsStackOp(op) { OnStackFrom(m, op, st.p + 1, st.p + c[st.p].off, st.s, st.stk, st.caps, lo); }
    }
  }

  lemma RestRun(m: Mode, x: Code, b: nat, st: State, k: nat)
    requires |x| > 0 && NoZero(x) && From(Shift(st, 1, []), 1)
    ensures Iter(m, x, b, Shift(st, 1, []), k) == Shift(Iter(m, x[1..], b, st, k), 1, [])
    decreases k
  {
    if k > 0 {
      var r := x[1..];
      assert x[1..1 + |r|] == r;
      if Halted(r, st) {
        IterHalted(m, r, b, st, k);
        IterHalted(m, x, b, Shift(st, 1, []), k);
      } else {
        StepShift(m, r, x, 1, b, b, st, []);
        StepFrom(m, x, b, Shift(st, 1, []), 1);
        RestRun(m, x, b, Step(m, r, b, st), k - 1);
      }
    }
  }

  /** A run that ends well has not read behind the subject's end. */
  lemma PassedReadable(m: Mode, x: Code, b: nat, s: int, caps: seq<Capture>, fin: State)
    requires |x| > 0 && (x[0].op.Check? || x[0].op.Test?) && CanRead(m, s) && Passes(m, x[0].op.k, s)
    requires Reach(m, x, b, Step(m, x, b, Run(0, s, [], caps)), fin) && !fin.Stuck?
    ensures CanRead(m, s + StepOf(x[0].op.k))
  {
    var st := Step(m, x, b, Run(0, s, [], caps));
    if st.Stuck? {
      var k: nat :| Iter(m, x, b, st, k) == fin;
      IterHalted(m, x, b, st, k);
    }
  }

  /** After a first check (or test) that passes, the rest of the fragment finishes its run. */
  lemma RestReach(m: Mode, x: Code, b: nat, s: int, caps: seq<Capture>, fin: State)
    requires |x| > 0 && NoZero(x) && (x[0].op.Check? || x[0].op.Test?)
    requires CanRead(m, s) && Passes(m, x[0].op.k, s)
    requires Reach(m, x, b, Run(0, s, [], caps), fin) && Halted(x, fin) && !fin.Stuck?
    ensures CanRead(m, s + StepOf(x[0].op.k))
    ensures Reach(m, x[1..], b, Run(0, s + StepOf(x[0].op.k), [], caps), Shift(fin, -1, []))
  {
    var st := Run(0, s + StepOf(x[0].op.k), [], caps);
    AfterStep(m, x, b, Run(0, s, [], caps), fin);
    PassedReadable(m, x, b, s, caps, fin);
    assert ShiftStk([], 1) + [] == [];
    assert Step(m, x, b, Run(0, s, [], caps)) == Shift(st, 1, []);
    var k: nat :| Iter(m, x, b, Shift(st, 1, []), k) == fin;
    RestRun(m, x, b, st, k);
    ShiftBack(Iter(m, x[1..], b, st, k));
  }

  lemma ShiftBack(st: State)
    ensures Shift(Shift(st, 1, []), -1, []) == st
  {
    if !st.Stuck? {
      assert ShiftStk(ShiftStk(st.stk, 1) + [], -1) + [] == st.stk;
    }
  }

  lemma FirstReadable(m: Mode, c: Code, s: int, o: Out)
    requires |c| > 0 && c[0].op.Check? && !o.Diverge?
    requires ValidPos(m, s) && Passes(m, c[0].op.k, s) && Beh(m, c, s, o)
    ensures CanRead(m, s + StepOf(c[0].op.k))
  {
    var none: seq<Capture> := [];
    var st := Run(0, s, [], none);
    assert |none| == 0 && Reach(m, c, |none|, st, Final(|c|, [], none, o));
    AfterStep(m, c, 0, st, Final(|c|, [], none, o));
    PassedReadable(m, c, 0, s, none, Final(|c|, [], none, o));
  }

  /** A check-first fragment with known behaviour, once its check has passed. */
  lemma RestBeh(m: Mode, c: Code, s: int, o: Out)
    requires |c| > 0 && NoZero(c) && c[0].op.Check?
    requires ValidPos(m, s) && Passes(m, c[0].op.k, s)
    requires Beh(m, c, s, o)
    ensures Beh(m, c[1..], s + StepOf(c[0].op.k), o)
    ensures !o.Diverge? ==> CanRead(m, s + StepOf(c[0].op.k))
  {
    if !o.Diverge? {
      FirstReadable(m, c, s, o);
      forall caps: seq<Capture>
        ensures Reach(m, c[1..], |caps|, Run(0, s + StepOf(c[0].op.k), [], caps), Final(|c[1..]|, [], caps, o))
      {
        RestReach(m, c, |caps|, s, caps, Final(|c|, [], caps, o));
        assert ShiftStk([], -1) + [] == [];
      }
    }
  }

  /** A fragment whose first check does not pass fails. */
  lemma FirstCheckFails(m: Mode, c: Code, s: int, o: Out)
    requires |c| > 0 && c[0].op.Check? && !o.Diverge?
    requires ValidPos(m, s) && !Passes(m, c[0].op.k, s)
    requires Beh(m, c, s, o)
    ensures o.Failure?
  {
    var st := Run(0, s, [], []);
    var none: seq<Capture> := [];
    assert |none| == 0;
    assert Step(m, c, 0, st) == Failing([]);
    Tick(m, c, 0, st);
    assert Reach(m, c, 0, st, Final(|c|, [], [], o));
    Deterministic(m, c, 0, st, Failing([]), Final(|c|, [], [], o));
  }

  // ----- code that cannot fail -----

  /** From an instruction onwards, code without a failing instruction never fails. */
  lemma NoFailRun(m: Mode, c: Code, b: nat, st: State, k: nat, lo: nat)
    requires forall i :: lo <= i < |c| ==> IsNoFail(c[i].op)
    requires forall i :: lo <= i < |c| && IsJmp(c[i].op) ==> i + c[i].off >= lo
    requires st.Run? && st.p >= lo && st.stk == []
    ensures !Iter(m, c, b, st, k).Failing?
    decreases k
  {
    if k > 0 {
      if 0 <= st.p < |c| {
        var st1 := Step(m, c, b, st);
        if st1.Stuck? {
          IterHalted(m, c, b, st1, k - 1);
        } else {
          NoFailRun(m, c, b, st1, k - 1, lo);
        }
      } else {
        IterHalted(m, c, b, st, k);
      }
    }
  }

  /** A head-fail fragment fails only when its first check fails. */
  lemma HeadFailSucceeds(m: Mode, c: Code, s: int, o: Out)
    requires IsHeadFail(c) && NoZero(c) && !o.Diverge?
    requires ValidPos(m, s) && Passes(m, c[0].op.k, s)
    requires Beh(m, c, s, o)
    ensures o.Succ?
  {
    var st := Run(0, s, [], []);
    var none: seq<Capture> := [];
    assert |none| == 0;
    assert Reach(m, c, 0, st, Final(|c|, [], [], o));
    AfterStep(m, c, 0, st, Final(|c|, [], [], o));
    FirstReadable(m, c, s, o);
    var k: nat :| Iter(m, c, 0, Step(m, c, 0, st), k) == Final(|c|, [], [], o);
    forall i | 1 <= i < |c| ensures IsNoFail(c[i].op) { assert c[i] == c[1..][i - 1]; }
    NoFailRun(m, c, 0, Step(m, c, 0, st), k, 1);
  }
}
