/** Repetition: at least `n` times, by a span, by a test that closes the loop, or by a pending choice
    that every round updates. */
module LpegLoops {
  import opened LpegCode
  import opened LpegSemantics
  import opened LpegMachine
  import opened LpegBehaviour
  import opened LpegRewrite
  import opened LpegCompile
  import opened LpegInvariant
  import opened LpegBasic
  import opened LpegOptCaps
  import opened LpegOptJumps
  import opened LpegUnion

  // ----- copies of the body -----

  function TimesExpr(e: Expr, n: nat): Expr {
    if n == 0 then Lit([]) else Seq(e, TimesExpr(e, n - 1))
  }

  lemma {:induction false} TimesEval(e: Expr, n: nat, m: Mode, s: int)
    requires ValidPos(m, s)
    ensures Eval(TimesExpr(e, n), m, s) == EvalTimes(e, m, n, s)
    decreases n
  {
    if n > 0 {
      var o, t := Eval(e, m, s), TimesExpr(e, n - 1);
      assert TimesExpr(e, n) == Seq(e, t);
      if o.Succ? { TimesEval(e, n - 1, m, o.pos); }
    }
  }

  lemma {:induction false} TimesGood(c: Code, e: Expr, n: nat)
    requires Good(c, e)
    ensures Good(Times(c, n), TimesExpr(e, n))
    decreases n
  {
    if n == 0 {
      EmptyCorrect(Lit([]));
    } else {
      TimesGood(c, e, n - 1);
      ConcatGood(c, e, Times(c, n - 1), TimesExpr(e, n - 1));
    }
  }

  /** `n` copies and then a loop are at least `n` repetitions. */
  lemma CopiesAndLoop(e: Expr, n: nat)
    ensures Covers(Seq(TimesExpr(e, n), Rep(e, 0)), Rep(e, n))
  {
    forall m: Mode, s: int | ValidPos(m, s)
      ensures Eval(Seq(TimesExpr(e, n), Rep(e, 0)), m, s) == Eval(Rep(e, n), m, s)
    {
      TimesEval(e, n, m, s);
      var o := EvalTimes(e, m, n, s);
      if o.Succ? {
        assert Eval(Rep(e, 0), m, o.pos) == EvalLoop(e, m, o.pos) by { RepZero(e, m, o.pos); }
      }
    }
  }

  lemma RepZero(e: Expr, m: Mode, s: int)
    requires ValidPos(m, s)
    ensures Eval(Rep(e, 0), m, s) == EvalLoop(e, m, s)
  {
    var o := EvalLoop(e, m, s);
    assert o.Succ? ==> [] + o.caps == o.caps;
  }

  // ----- a loop over one byte -----

  lemma {:induction false} SpanEval(k: CheckKind, e: Expr, m: Mode, s: int)
    requires KindOk(k) && StepOf(k) == 1 && IsCheckExpr(e, k) && ValidPos(m, s)
    ensures
      var o := EvalLoop(e, m, s);
      o.Diverge? || o == Succ(if m.Real? then SpanEnd(m.subj, FillCharset(k), s) else s, [])
    decreases if m.Real? then |m.subj| - s else 0
  {
    OneByteMatch(m, k, s);
    var o := Eval(e, m, s);
    if o.Succ? {
      assert o == CheckOut(m, k, s) && o.pos == s + 1;
      SpanEval(k, e, m, o.pos);
    }
  }

  lemma SpanGood(c1: Code, e: Expr)
    requires WF(c1) && Correct(c1, e) && ToCharset(c1).IsCharset?
    ensures Good(RepeatCharset(ToCharset(c1).cs, c1, 0), Rep(e, 0))
  {
    var cs := ToCharset(c1).cs;
    var c := RepeatCharset(cs, c1, 0);
    assert c == [Instr(Span(cs, 0 in cs), 0)];
    assert InstrOk(c1, 0);
    CheckEval(c1, c1[0].op.k, e);
    forall m: Mode, s: int | ValidPos(m, s)
      ensures Beh(m, c, s, Eval(Rep(e, 0), m, s))
    {
      var o := Eval(Rep(e, 0), m, s);
      RepZero(e, m, s);
      SpanEval(c1[0].op.k, e, m, s);
      if !o.Diverge? {
        forall caps: seq<Capture>
          ensures Reach(m, c, |caps|, Run(0, s, [], caps), Final(|c|, [], caps, o))
        {
          assert caps + [] == caps;
          assert Step(m, c, |caps|, Run(0, s, [], caps)) == Final(|c|, [], caps, o);
          Tick(m, c, |caps|, Run(0, s, [], caps));
        }
      }
    }
    GoodSimple(c, Rep(e, 0));
  }

  lemma RepeatCharsetGood(c1: Code, e: Expr, n: nat)
    requires Good(c1, e) && ToCharset(c1).IsCharset?
    ensures Good(RepeatCharset(ToCharset(c1).cs, c1, n), Rep(e, n))
  {
    var cs := ToCharset(c1).cs;
    var loop := RepeatCharset(cs, c1, 0);
    TimesGood(c1, e, n);
    SpanGood(c1, e);
    ConcatGood(Times(c1, n), TimesExpr(e, n), loop, Rep(e, 0));
    CopiesAndLoop(e, n);
    assert RepeatCharset(cs, c1, n) == Times(c1, n) + loop;
    GoodEq(RepeatCharset(cs, c1, n), Seq(TimesExpr(e, n), Rep(e, 0)), Rep(e, n));
  }

  // ----- a head-fail body: its test leaves the loop -----

  function HeadLoop(c1: Code): (c: Code)
    requires IsHeadFail(c1)
    ensures |c| == |c1| + 1
  {
    Check2Test(c1, |c1| + 1) + [Instr(Jmp, -|c1|)]
  }

  /** One round of the loop, or its end. */
  lemma HeadRound(m: Mode, c1: Code, s: int, o: Out, caps: seq<Capture>)
    requires IsHeadFail(c1) && NoZero(c1) && ValidPos(m, s)
    requires Beh(m, c1, s, o) && !o.Diverge?
    ensures
      Reach(m, HeadLoop(c1), |caps|, Run(0, s, [], caps),
            if o.Succ? then Run(0, o.pos, [], caps + o.caps) else Run(|c1| + 1, s, [], caps))
  {
    var c := HeadLoop(c1);
    var x := Check2Test(c1, |c1| + 1);
    var st := Run(0, s, [], caps);
    var k := c1[0].op.k;
    assert c[..|c1|] == x && c[|c1|] == Instr(Jmp, -|c1|);
    TestPartEnds(m, x, c1, s, o);
    if Passes(m, k, s) {
      HeadFailSucceeds(m, c1, s, o);
      var mid := Run(|c1|, o.pos, [], caps + o.caps);
      assert EndsAt(m, x, false, s, caps, Thru(o.pos, o.caps));
      PartAt(m, c, |c1| + 1, caps, st, mid);
      assert Step(m, c, |caps|, mid) == Run(0, o.pos, [], caps + o.caps);
      Tick(m, c, |caps|, mid);
      Chain(m, c, |caps|, st, mid, Run(0, o.pos, [], caps + o.caps));
    } else {
      FirstCheckFails(m, c1, s, o);
      assert EndsAt(m, x, false, s, caps, Other(s, [])) && caps + [] == caps;
      PartAt(m, c, |c1| + 1, caps, st, Run(|c1| + 1, s, [], caps));
    }
  }

  /** A loop that is entered again behaves as the loop. */
  lemma LoopAgain(m: Mode, c: Code, s: int, o1: Out, o2: Out, caps: seq<Capture>)
    requires o1.Succ? && !o2.Diverge? && Beh(m, c, o1.pos, o2)
    requires Reach(m, c, |caps|, Run(0, s, [], caps), Run(0, o1.pos, [], caps + o1.caps))
    ensures Reach(m, c, |caps|, Run(0, s, [], caps), Final(|c|, [], caps, Prepend(o1.caps, o2)))
  {
    assert c[0..0 + |c|] == c;
    RunAt(m, c, |caps|, 0, c, o1.pos, [], caps + o1.caps, o2);
    ThenFinal(|c|, [], caps, o1, o2);
    Chain(m, c, |caps|, Run(0, s, [], caps), Run(0, o1.pos, [], caps + o1.caps),
          Final(|c|, [], caps, Prepend(o1.caps, o2)));
  }

  lemma {:induction false} HeadLoopBeh(m: Mode, c1: Code, e: Expr, s: int)
    requires IsHeadFail(c1) && NoZero(c1) && Correct(c1, e) && ValidPos(m, s)
    ensures Beh(m, HeadLoop(c1), s, EvalLoop(e, m, s))
    decreases if m.Real? then |m.subj| - s else 0
  {
    var c := HeadLoop(c1);
    var o, ol := Eval(e, m, s), EvalLoop(e, m, s);
    assert Beh(m, c1, s, o);
    if !ol.Diverge? {
      if !m.Real? { FirstCheckFails(m, c1, s, o); }
      if o.Succ? { HeadLoopBeh(m, c1, e, o.pos); }
      forall caps: seq<Capture>
        ensures Reach(m, c, |caps|, Run(0, s, [], caps), Final(|c|, [], caps, ol))
      {
        HeadRound(m, c1, s, o, caps);
        if o.Succ? {
          LoopAgain(m, c, s, o, EvalLoop(e, m, o.pos), caps);
        } else {
          assert caps + [] == caps;
        }
      }
    }
  }

  lemma HeadLoopWF(c1: Code)
    requires WF(c1) && IsHeadFail(c1)
    ensures WF(HeadLoop(c1)) && RoundLoop(HeadLoop(c1))
  {
    var c := HeadLoop(c1);
    var r := c1[1..];
    AllOkRest(c1);
    assert InstrOk(c1, 0);
    assert c[1..1 + |r|] == r && c[|c1|] == Instr(Jmp, -|c1|);
    forall i | 0 <= i < |c|
      ensures InstrOk(c, i)
    {
      if 1 <= i < |c1| {
        assert InstrOk(r, i - 1);
        InstrOkAt(c, 1, r, i - 1);
      }
    }
    LoopShapeNoPart(c);
  }

  lemma HeadLoopGood(c1: Code, e: Expr)
    requires WF(c1) && Correct(c1, e) && IsHeadFail(c1)
    ensures Good(HeadLoop(c1), Rep(e, 0))
  {
    HeadLoopWF(c1);
    LoopShapeNoPart(HeadLoop(c1));
    CheckFirstNoZero(c1);
    forall m: Mode, s: int | ValidPos(m, s)
      ensures Beh(m, HeadLoop(c1), s, Eval(Rep(e, 0), m, s))
    {
      RepZero(e, m, s);
      HeadLoopBeh(m, c1, e, s);
    }
    GoodSimple(HeadLoop(c1), Rep(e, 0));
  }

  // ----- any body: a pending choice that every round updates -----

  function ChoiceLoop(c1: Code): (c: Code)
    ensures |c| == |c1| + 2
  {
    [Instr(Choice(0), |c1| + 2)] + c1 + [Instr(PartialCommit, -|c1|)]
  }

  /** Where a round of the loop leads: to the next one, or out of it. */
  function AfterRound(m: Mode, q: int, s: int, o: Out, caps: seq<Capture>): State {
    if o.Succ? && m.Real? then Run(1, o.pos, [Back(q, o.pos, caps + o.caps)], caps + o.caps)
    else if o.Succ? then Run(q, o.pos, [], caps + o.caps)
    else Run(q, s, [], caps)
  }

  /** One round: the body succeeds and updates the pending choice, or fails and leaves the loop. */
  lemma ChoiceRound(m: Mode, c1: Code, b: nat, s: int, o: Out, caps: seq<Capture>)
    requires Beh(m, c1, s, o) && !o.Diverge? && (o.Succ? ==> !m.Verify?)
    ensures
      var q := |c1| + 2;
      Reach(m, ChoiceLoop(c1), b, Run(1, s, [Back(q, s, caps)], caps), AfterRound(m, q, s, o, caps))
  {
    var c := ChoiceLoop(c1);
    var q := |c1| + 2;
    var f := Back(q, s, caps);
    var st := Run(1, s, [f], caps);
    assert c[1..1 + |c1|] == c1 && c[q - 1] == Instr(PartialCommit, -|c1|);
    RunAt(m, c, b, 1, c1, s, [f], caps, o);
    var mid := Final(q - 1, [f], caps, o);
    assert [f][1..] == [] && [Back(q, s, caps)] + [] == [f];
    assert o.Succ? ==> [Back(q, o.pos, caps + o.caps)] + [] == [Back(q, o.pos, caps + o.caps)];
    Tick(m, c, b, mid);
    Chain(m, c, b, st, mid, Step(m, c, b, mid));
  }

  lemma {:induction false} ChoiceLoopRun(m: Mode, c1: Code, e: Expr, b: nat, s: int, caps: seq<Capture>)
    requires Correct(c1, e) && ValidPos(m, s) && !EvalLoop(e, m, s).Diverge?
    ensures
      var q := |c1| + 2;
      Reach(m, ChoiceLoop(c1), b, Run(1, s, [Back(q, s, caps)], caps), Final(q, [], caps, EvalLoop(e, m, s)))
    decreases if m.Real? then |m.subj| - s else 0
  {
    var c := ChoiceLoop(c1);
    var q := |c1| + 2;
    var o := Eval(e, m, s);
    var st := Run(1, s, [Back(q, s, caps)], caps);
    assert Beh(m, c1, s, o);
    ChoiceRound(m, c1, b, s, o, caps);
    if o.Succ? && m.Real? {
      ChoiceLoopRun(m, c1, e, b, o.pos, caps + o.caps);
      ThenFinal(q, [], caps, o, EvalLoop(e, m, o.pos));
      Chain(m, c, b, st, Run(1, o.pos, [Back(q, o.pos, caps + o.caps)], caps + o.caps),
            Final(q, [], caps, EvalLoop(e, m, s)));
    } else {
      assert caps + [] == caps;
    }
  }

  lemma ChoiceLoopGood(c1: Code, e: Expr)
    requires WF(c1) && Correct(c1, e) && |c1| > 0
    ensures Good(ChoiceLoop(c1), Rep(e, 0)) && RoundLoop(ChoiceLoop(c1))
  {
    var c := ChoiceLoop(c1);
    forall m: Mode, s: int | ValidPos(m, s)
      ensures Beh(m, c, s, Eval(Rep(e, 0), m, s))
    {
      var o := EvalLoop(e, m, s);
      RepZero(e, m, s);
      if !o.Diverge? {
        forall caps: seq<Capture>
          ensures Reach(m, c, |caps|, Run(0, s, [], caps), Final(|c|, [], caps, o))
        {
          var f := Back(|c|, s, caps);
          assert [f] + [] == [f];
          assert Step(m, c, |caps|, Run(0, s, [], caps)) == Run(1, s, [f], caps);
          ChoiceLoopRun(m, c1, e, |caps|, s, caps);
          TickChain(m, c, |caps|, Run(0, s, [], caps), Final(|c|, [], caps, o));
        }
      }
    }
    ChoiceLoopWF(c1);
    LoopShapeNoPart(c);
    GoodSimple(c, Rep(e, 0));
  }

  lemma ChoiceLoopWF(c1: Code)
    requires WF(c1) && |c1| > 0
    ensures WF(ChoiceLoop(c1)) && RoundLoop(ChoiceLoop(c1))
  {
    var c := ChoiceLoop(c1);
    assert c[1..1 + |c1|] == c1 && c[|c1| + 1] == Instr(PartialCommit, -|c1|) && c[1] == c1[0];
    forall i | 0 <= i < |c|
      ensures InstrOk(c, i) && (IsJmp(c[i].op) ==> i + c[i].off >= 1)
    {
      if 1 <= i <= |c1| {
        assert InstrOk(c1, i - 1);
        InstrOkAt(c, 1, c1, i - 1);
        assert c[i] == c1[i - 1];
      }
    }
  }

  // ----- copies, loop and optimizers together -----

  /** Jumps stay where they are, and nothing else becomes a jump. */
  predicate SameJumps(c: Code, c': Code) {
    |c| == |c'| && forall i :: 0 <= i < |c| && (IsJmp(c[i].op) || IsJmp(c'[i].op)) ==> c'[i] == c[i]
  }

  lemma MoveRoundSameJumps(c: Code, i: nat, limit: nat)
    requires limit <= i < |c| && IsMovableCap(c[i].op)
    ensures SameJumps(c, MoveRound(c, i, limit).0)
  {
    var start := GroupStart(c, i, limit);
    var r := SkipChecks(c, i + 1, MAXOFF - MaxOff(c, start, i));
    var (cnt, n) := r;
    if n != 0 {
      var c' := MoveGroup(c, start, i, cnt, n);
      forall j | 0 <= j < |c|
        ensures IsJmp(c[j].op) || IsJmp(c'[j].op) ==> c'[j] == c[j]
      {
        if start <= j < start + cnt {
          assert c'[j] == c[i + 1 + (j - start)];
        } else if start + cnt <= j <= i + cnt {
          assert c'[j].op.Cap?;
        }
      }
    }
  }

  lemma OptCapsSameJumps(c: Code, i: nat, limit: nat)
    ensures SameJumps(c, OptCaps(c, i, limit))
    decreases |c| - i
  {
    if i < |c| {
      var r := OptCapsRound(c, i, limit);
      assert SameJumps(c, r.0) by {
        if IsJmp(c[i].op) && i + c[i].off >= limit {
        } else if i >= limit && IsMovableCap(c[i].op) && i + 1 < |c| && c[i + 1].op.Check? {
          MoveRoundSameJumps(c, i, limit);
        }
      }
      OptCapsSameJumps(r.0, r.1, r.2);
    }
  }

  lemma SameJumpsShape(c: Code, c': Code)
    requires SameJumps(c, c') && LoopShape(c)
    ensures LoopShape(c')
  {
    if RoundLoop(c) {
      assert IsJmp(c[0].op) ==> c'[0] == c[0];
      assert IsJmp(c[|c| - 1].op) ==> c'[|c| - 1] == c[|c| - 1];
    }
    if exists b :: Contained(c, b) && !c[b].op.Jmp? {
      var b :| Contained(c, b) && !c[b].op.Jmp?;
      assert Contained(c', b) && !c'[b].op.Jmp?;
    }
  }

  lemma CopiesShape(c1: Code, n: nat, loop: Code)
    requires WF(c1) && |c1| > 0 && |loop| > 0 && !loop[0].op.Jmp?
    requires n == 0 ==> RoundLoop(loop)
    ensures LoopShape(Times(c1, n) + loop)
  {
    var c := Times(c1, n) + loop;
    if n > 0 {
      var rest := Times(c1, n - 1) + loop;
      assert c == c1 + rest;
      ContainedPrefix(c1, rest);
      assert c[|c1|] == rest[0];
      assert n > 1 ==> rest == c1 + (Times(c1, n - 2) + loop);
      assert Contained(c, |c1|) && !c[|c1|].op.Jmp?;
    } else {
      assert c == loop;
    }
  }

  /** A loop behind `n` copies of its body, with captures and jumps optimized. */
  lemma OptimizedLoopGood(c1: Code, e: Expr, n: nat, loop: Code)
    requires Good(c1, e) && Good(loop, Rep(e, 0)) && |c1| > 0 && RoundLoop(loop)
    ensures
      var c := OptCaps(Times(c1, n) + loop, 0, 0);
      Progress(c) && Good(OptJumps(c, Ranks(c), 0), Rep(e, n))
  {
    var c0 := Times(c1, n) + loop;
    var c := OptCaps(c0, 0, 0);
    TimesGood(c1, e, n);
    ConcatGood(Times(c1, n), TimesExpr(e, n), loop, Rep(e, 0));
    CopiesAndLoop(e, n);
    GoodEq(c0, Seq(TimesExpr(e, n), Rep(e, 0)), Rep(e, n));
    GoodBasics(c1, e);
    CopiesShape(c1, n, loop);
    OptCapsGood(c0, Rep(e, n));
    OptCapsSameJumps(c0, 0, 0);
    SameJumpsShape(c0, c);
    GoodBasics(c, Rep(e, n));
    LoopJumpsGood(c, Rep(e, n));
  }

  lemma RepeatHeadFailGood(c1: Code, e: Expr, n: nat)
    requires Good(c1, e) && IsHeadFail(c1)
    ensures
      var c := OptCaps(RepeatHeadFail(c1, n), 0, 0);
      Progress(c) && Good(OptJumps(c, Ranks(c), 0), Rep(e, n))
  {
    GoodBasics(c1, e);
    HeadLoopGood(c1, e);
    HeadLoopWF(c1);
    assert RepeatHeadFail(c1, n) == Times(c1, n) + HeadLoop(c1);
    OptimizedLoopGood(c1, e, n, HeadLoop(c1));
  }

  lemma RepeatsGood(c1: Code, e: Expr, n: nat)
    requires Good(c1, e) && |c1| > 0
    ensures
      var c := OptCaps(Repeats(c1, n), 0, 0);
      Progress(c) && Good(OptJumps(c, Ranks(c), 0), Rep(e, n))
  {
    GoodBasics(c1, e);
    ChoiceLoopGood(c1, e);
    assert Repeats(c1, n) == Times(c1, n) + ChoiceLoop(c1);
    OptimizedLoopGood(c1, e, n, ChoiceLoop(c1));
  }
}
