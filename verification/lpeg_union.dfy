/** Ordered choice: building a union, and rebuilding an existing one in front of a new alternative. */
module LpegUnion {
  import opened LpegCode
  import opened LpegSemantics
  import opened LpegMachine
  import opened LpegBehaviour
  import opened LpegRewrite
  import opened LpegCompile
  import opened LpegInvariant
  import opened LpegBasic

  // ----- helpers about check-first code -----

  lemma CheckFirstNoZero(c: Code)
    requires WF(c) && |c| > 0 && !c[0].op.Test?
    ensures NoZero(c)
  {
  }

  lemma AllOkRest(c: Code)
    requires WF(c) && |c| > 0 && c[0].op.Check?
    ensures AllOk(c[1..])
  {
    var r := c[1..];
    forall i | 0 <= i < |r|
      ensures InstrOk(r, i)
    {
      assert r[i] == c[i + 1] && InstrOk(c, i + 1);
      var t := i + 1 + c[i + 1].off;
      if IsJmp(c[i + 1].op) && t <= i + 1 {
        assert r[t - 1] == c[t];
        assert t >= 2 ==> r[t - 2] == c[t - 1];
      }
    }
  }

  /** A check-first pattern fails where its first byte cannot start it. */
  lemma CannotStart(m: Mode, c: Code, e: Expr, s: int)
    requires WF(c) && Correct(c, e) && !ToCharset(c).NoInfo?
    requires ValidPos(m, s) && !Eval(e, m, s).Diverge?
    requires m.Real? && s < |m.subj| ==> m.subj[s] !in ToCharset(c).cs
    ensures Eval(e, m, s).Failure?
  {
    assert InstrOk(c, 0);
    PassesIsMatches(m, c[0].op.k, s);
    assert Beh(m, c, s, Eval(e, m, s));
    FirstCheckFails(m, c, s, Eval(e, m, s));
  }

  // ----- two character sets -----

  lemma CharsetUnion(c1: Code, e1: Expr, c2: Code, e2: Expr)
    requires WF(c1) && Correct(c1, e1) && WF(c2) && Correct(c2, e2)
    requires ToCharset(c1).IsCharset? && ToCharset(c2).IsCharset?
    ensures Good(SetCode(ToCharset(c1).cs + ToCharset(c2).cs), Alt(e1, e2))
  {
    assert InstrOk(c1, 0) && InstrOk(c2, 0);
    var k1, k2 := c1[0].op.k, c2[0].op.k;
    var cs := FillCharset(k1) + FillCharset(k2);
    CheckEval(c1, k1, e1);
    CheckEval(c2, k2, e2);
    forall m: Mode, s: int | ValidPos(m, s)
      ensures Eval(Alt(e1, e2), m, s).Diverge? || Eval(Alt(e1, e2), m, s) == CheckOut(m, SetCheck(cs), s)
    {
      OneByteMatch(m, k1, s);
      OneByteMatch(m, k2, s);
    }
    CheckCorrect(SetCheck(cs), Alt(e1, e2));
  }

  /** Some byte passes every check but one of an empty set. */
  lemma SomeByte(k: CheckKind)
    requires k.KSet? ==> k.cs != {}
    ensures exists b: Byte :: b in FillCharset(k)
  {
    var zero: Byte := 0;
    if k.KAny? { assert zero in FillCharset(k); }
    if k.KChar? { assert k.c in FillCharset(k); }
    if k.KSet? {
      var b :| b in k.cs;
      assert b in FillCharset(k);
    }
  }

  lemma OneByteMatch(m: Mode, k: CheckKind, s: int)
    requires KindOk(k) && StepOf(k) == 1 && ValidPos(m, s)
    ensures Matches(m, k, s) <==> m.Real? && s < |m.subj| && m.subj[s] in FillCharset(k)
  {
  }

  // ----- a union without a choice -----

  /** The first alternative `x` of a union that starts with a test. */
  lemma TestPartEnds(m: Mode, x: Code, c1: Code, s: int, o: Out)
    requires |c1| > 0 && c1[0].op.Check? && NoZero(c1) && |x| == |c1|
    requires x[0] == Instr(Test(c1[0].op.k), |c1| + 1) && x[1..] == c1[1..]
    requires ValidPos(m, s) && Beh(m, c1, s, o) && !o.Diverge?
    ensures Ends(m, x, false, s,
                 if !Passes(m, c1[0].op.k, s) then Other(s, []) else if o.Succ? then Thru(o.pos, o.caps) else Lost)
  {
    var k := c1[0].op.k;
    var pe := if !Passes(m, k, s) then Other(s, []) else if o.Succ? then Thru(o.pos, o.caps) else Lost;
    forall caps: seq<Capture>
      ensures EndsAt(m, x, false, s, caps, pe)
    {
      var st := Run(0, s, [], caps);
      Tick(m, x, |caps|, st);
      if Passes(m, k, s) {
        RestBeh(m, c1, s, o);
        assert x[1..1 + |c1[1..]|] == c1[1..];
        RunAt(m, x, |caps|, 1, c1[1..], s + StepOf(k), [], caps, o);
        Chain(m, x, |caps|, st, Run(1, s + StepOf(k), [], caps), Final(|x|, [], caps, o));
      } else {
        assert caps + [] == caps;
      }
    }
  }

  function TestUnion(c1: Code, c2: Code): Code
    requires |c1| > 0 && c1[0].op.Check?
  {
    Check2Test(c1, |c1| + 1) + [Instr(Jmp, |c2| + 1)] + c2
  }

  /** A body inside other code keeps its jumps to itself. */
  lemma BodyOkAt(P: Code, at: nat, c: Code)
    requires AllOk(c) && 1 <= at && at + |c| <= |P| && P[at..at + |c|] == c
    ensures forall i :: at <= i < at + |c| ==> InstrOk(P, i)
    ensures forall i :: at <= i < at + |c| && IsJmp(P[i].op) ==>
      1 <= i + P[i].off <= at + |c| && (P[i].op.PartialCommit? ==> i + P[i].off < at + |c|)
  {
    forall i | at <= i < at + |c|
      ensures InstrOk(P, i)
      ensures IsJmp(P[i].op) ==> 1 <= i + P[i].off <= at + |c| && (P[i].op.PartialCommit? ==> i + P[i].off < at + |c|)
    {
      assert InstrOk(c, i - at) && P[i] == P[at..at + |c|][i - at];
      InstrOkAt(P, at, c, i - at);
    }
  }

  lemma TestUnionWF(c1: Code, c2: Code)
    requires WF(c1) && |c1| > 0 && c1[0].op.Check? && WF(c2)
    ensures WF(TestUnion(c1, c2)) && FirstPart(TestUnion(c1, c2)) == |c1| + 1
    ensures PartJumps(TestUnion(c1, c2), |c1| + 1)
  {
    var (c, r, l1) := (TestUnion(c1, c2), c1[1..], |c1|);
    AllOkRest(c1);
    assert InstrOk(c1, 0);
    assert c[1..1 + |r|] == r && c[l1 + 1..l1 + 1 + |c2|] == c2 && c[l1] == Instr(Jmp, |c2| + 1);
    BodyOkAt(c, 1, r);
    BodyOkAt(c, l1 + 1, c2);
    forall i | 0 <= i < |c|
      ensures InstrOk(c, i) && (IsJmp(c[i].op) ==> i + c[i].off >= 1)
    {
    }
  }

  lemma TestUnionRuns(c1: Code, e1: Expr, c2: Code, e2: Expr, m: Mode, s: int)
    requires WF(c1) && Correct(c1, e1) && WF(c2) && Correct(c2, e2)
    requires |c1| > 0 && c1[0].op.Check? && (Exclusive(ToCharset(c1), ToCharset(c2)) || IsHeadFail(c1))
    requires ValidPos(m, s)
    ensures PartRuns(m, TestUnion(c1, c2), |c1| + 1, Alt(e1, e2), e2, s)
  {
    var c := TestUnion(c1, c2);
    var k := c1[0].op.k;
    var o := Eval(e1, m, s);
    if !Eval(Alt(e1, e2), m, s).Diverge? {
      var x := c[..|c1|];
      assert x == Check2Test(c1, |c1| + 1);
      CheckFirstNoZero(c1);
      assert Beh(m, c1, s, o);
      TestPartEnds(m, x, c1, s, o);
      var pe := if !Passes(m, k, s) then Other(s, []) else if o.Succ? then Thru(o.pos, o.caps) else Lost;
      assert InstrOk(c1, 0);
      PassesIsMatches(m, k, s);
      if !Passes(m, k, s) {
        FirstCheckFails(m, c1, s, o);
      } else if o.Failure? {
        if IsHeadFail(c1) { HeadFailSucceeds(m, c1, s, o); } else { CannotStart(m, c2, e2, s); }
      }
      assert Prepend([], Eval(e2, m, s)) == Eval(e2, m, s);
      assert PartCond(m, c, |c1| + 1, Alt(e1, e2), e2, s, pe);
      PartReachRuns(m, c, |c1| + 1, Alt(e1, e2), e2, s, pe);
    }
  }

  lemma TestUnionOneByte(c1: Code, c2: Code)
    requires WF(c1) && WF(c2) && |c1| > 0 && c1[0].op.Check?
    requires Exclusive(ToCharset(c1), ToCharset(c2)) || IsHeadFail(c1)
    ensures OneByte(TestUnion(c1, c2), |c1| + 1)
  {
    var c := TestUnion(c1, c2);
    var part := c[..|c1| + 1];
    assert InstrOk(c1, 0);
    if IsHeadFail(c1) {
      forall i | 0 <= i < |part|
        ensures IsNoFail(part[i].op)
      {
        assert 1 <= i < |c1| ==> part[i] == c1[1..][i - 1];
      }
    } else if c1[0].op.k.KAny? {
      assert IsEmptySet(c2[0].op) by {
        if !IsEmptySet(c2[0].op) {
          SomeByte(c2[0].op.k);
          assert false;
        }
      }
      assert EmptyAt(c, |c1| + 1);
    }
  }

  /** Gluing a first alternative to the rest. */
  lemma PartGood(c: Code, sp: nat, e: Expr, et: Expr)
    requires WF(c) && sp == FirstPart(c) > 0 && Part(c, sp, e, et) && Good(c[sp..], et)
    ensures Good(c, e)
  {
    var es: seq<Expr> :| |es| > 0 && es[0] == et && Inv(c[sp..], es);
    PartsCorrect(c, sp, e, et);
    var es' := [e] + es;
    assert es'[1..] == es;
    assert Inv(c, es') && es'[0] == e;
  }

  lemma TestUnionGood(c1: Code, e1: Expr, c2: Code, e2: Expr)
    requires WF(c1) && Correct(c1, e1) && Good(c2, e2)
    requires |c1| > 0 && c1[0].op.Check? && (Exclusive(ToCharset(c1), ToCharset(c2)) || IsHeadFail(c1))
    ensures Good(TestUnion(c1, c2), Alt(e1, e2))
  {
    var c := TestUnion(c1, c2);
    TestUnionWF(c1, c2);
    TestUnionOneByte(c1, c2);
    forall m: Mode, s: int | ValidPos(m, s)
      ensures PartRuns(m, c, |c1| + 1, Alt(e1, e2), e2, s)
    {
      TestUnionRuns(c1, e1, c2, e2, m, s);
    }
    assert c[|c1| + 1..] == c2;
    PartGood(c, |c1| + 1, Alt(e1, e2), e2);
  }

  // ----- a union with a choice -----

  /** The outcome of an alternative guarded by a choice. */
  function ChoiceEnd(o: Out, s: int): PartEnd {
    if o.Succ? then Thru(o.pos, o.caps) else Other(s, [])
  }

  /** The body behind a choice, up to its commit or to the pending alternative. */
  lemma GuardedRun(m: Mode, x: Code, q: int, at: int, body: Code, s: int, s1: int, o: Out, caps: seq<Capture>)
    requires 0 <= at && at + |body| == |x| && x[at..at + |body|] == body
    requires Beh(m, body, s1, o) && !o.Diverge?
    ensures Reach(m, x, |caps|, Run(at, s1, [Back(q, s, caps)], caps), Final(|x|, [Back(q, s, caps)], caps, o))
  {
    RunAt(m, x, |caps|, at, body, s1, [Back(q, s, caps)], caps, o);
  }

  /** Where a guarded body ends: at its own end `p` with the choice pending, or at the pending alternative `q`. */
  function GuardedEnd(p: int, q: int, s: int, caps: seq<Capture>, o: Out): State
    requires !o.Diverge?
  {
    if o.Succ? then Run(p, o.pos, [Back(q, s, caps)], caps + o.caps) else Run(q, s, [], caps)
  }

  lemma GuardedEnds(m: Mode, x: Code, q: int, s: int, o: Out, caps: seq<Capture>, st: State, mid: State)
    requires !o.Diverge? && Reach(m, x, |caps|, st, mid)
    requires Reach(m, x, |caps|, mid, Final(|x|, [Back(q, s, caps)], caps, o))
    ensures Reach(m, x, |caps|, st, GuardedEnd(|x|, q, s, caps, o))
  {
    var f := Back(q, s, caps);
    Chain(m, x, |caps|, st, mid, Final(|x|, [f], caps, o));
    if o.Failure? {
      assert [f][1..] == [];
      assert Step(m, x, |caps|, Failing([f])) == Run(q, s, [], caps);
      Tick(m, x, |caps|, Failing([f]));
      Chain(m, x, |caps|, st, Failing([f]), Run(q, s, [], caps));
    }
  }

  lemma GuardedEndsAt(m: Mode, x: Code, s: int, o: Out, caps: seq<Capture>)
    requires !o.Diverge? && Reach(m, x, |caps|, Run(0, s, [], caps), GuardedEnd(|x|, |x| + 1, s, caps, o))
    ensures EndsAt(m, x, true, s, caps, ChoiceEnd(o, s))
  {
    assert caps + [] == caps;
  }

  /** A choice in front of `c1`, optimized, with its alternative at `q`. */
  function GuardPart(c1: Code, q: int): (x: Code)
    ensures |x| == |c1| + 1
  {
    OptimizeChoice([Instr(Choice(0), q)] + c1)
  }

  function ChoicePart(c1: Code): (x: Code)
    ensures |x| == |c1| + 1
  {
    GuardPart(c1, |c1| + 2)
  }

  /** Optimizing a choice does not touch what follows its body, if that is not a check. */
  lemma GuardPartSplit(c1: Code, q: int, rest: Code)
    requires |rest| > 0 ==> !rest[0].op.Check?
    ensures OptimizeChoice([Instr(Choice(0), q)] + c1 + rest) == GuardPart(c1, q) + rest
  {
    var a := [Instr(Choice(0), q)] + c1;
    var c := a + rest;
    if |c1| > 0 {
      assert c[1] == a[1] && c[2..] == a[2..] + rest;
    } else if |rest| > 0 {
      assert c[1] == rest[0];
    }
  }

  lemma ChoicePartSplit(c1: Code, ins: Instr, c2: Code)
    requires !ins.op.Check?
    ensures OptimizeChoice([Instr(Choice(0), |c1| + 2)] + c1 + [ins] + c2) == ChoicePart(c1) + [ins] + c2
  {
    GuardPartSplit(c1, |c1| + 2, [ins] + c2);
    assert [Instr(Choice(0), |c1| + 2)] + c1 + [ins] + c2 == [Instr(Choice(0), |c1| + 2)] + c1 + ([ins] + c2);
    assert ChoicePart(c1) + [ins] + c2 == ChoicePart(c1) + ([ins] + c2);
  }

  lemma PlainChoiceRun(m: Mode, x: Code, c1: Code, q: int, s: int, o: Out, caps: seq<Capture>)
    requires x == [Instr(Choice(0), q)] + c1 && ValidPos(m, s)
    requires Beh(m, c1, s, o) && !o.Diverge?
    ensures Reach(m, x, |caps|, Run(0, s, [], caps), GuardedEnd(|x|, q, s, caps, o))
  {
    var f := Back(q, s, caps);
    GuardedRun(m, x, q, 1, c1, s, s, o, caps);
    var st, mid := Run(0, s, [], caps), Run(1, s, [f], caps);
    assert [f] + [] == [f];
    assert Step(m, x, |caps|, st) == mid;
    Tick(m, x, |caps|, st);
    GuardedEnds(m, x, q, s, o, caps, st, mid);
  }

  lemma TestChoiceRun(m: Mode, c1: Code, q: int, s: int, o: Out, caps: seq<Capture>)
    requires |c1| > 0 && c1[0].op.Check? && NoZero(c1) && ValidPos(m, s)
    requires Beh(m, c1, s, o) && !o.Diverge?
    ensures Reach(m, GuardPart(c1, q), |caps|, Run(0, s, [], caps), GuardedEnd(|c1| + 1, q, s, caps, o))
  {
    var x := GuardPart(c1, q);
    var k := c1[0].op.k;
    var f := Back(q, s, caps);
    assert x == [Instr(Test(k), q), Instr(Choice(StepOf(k)), q - 1)] + c1[1..] by {
      assert ([Instr(Choice(0), q)] + c1)[2..] == c1[1..];
    }
    var st := Run(0, s, [], caps);
    Tick(m, x, |caps|, st);
    if Passes(m, k, s) {
      var s1 := s + StepOf(k);
      RestBeh(m, c1, s, o);
      GuardedRun(m, x, q, 2, c1[1..], s, s1, o, caps);
      assert [f] + [] == [f];
      assert Step(m, x, |caps|, Run(1, s1, [], caps)) == Run(2, s1, [f], caps);
      Tick(m, x, |caps|, Run(1, s1, [], caps));
      Chain(m, x, |caps|, st, Run(1, s1, [], caps), Run(2, s1, [f], caps));
      GuardedEnds(m, x, q, s, o, caps, st, Run(2, s1, [f], caps));
    } else {
      FirstCheckFails(m, c1, s, o);
    }
  }

  /** The run of a guarded alternative, optimized or not. */
  lemma GuardRun(m: Mode, c1: Code, q: int, s: int, o: Out, caps: seq<Capture>)
    requires WF(c1) && ValidPos(m, s)
    requires Beh(m, c1, s, o) && !o.Diverge?
    ensures Reach(m, GuardPart(c1, q), |caps|, Run(0, s, [], caps), GuardedEnd(|c1| + 1, q, s, caps, o))
  {
    if |c1| > 0 && c1[0].op.Check? {
      CheckFirstNoZero(c1);
      TestChoiceRun(m, c1, q, s, o, caps);
    } else {
      PlainChoiceRun(m, GuardPart(c1, q), c1, q, s, o, caps);
    }
  }

  /** A guarded alternative ends at its commit, or with the next alternative at the same position. */
  lemma ChoicePartEnds(m: Mode, c1: Code, s: int, o: Out)
    requires WF(c1) && ValidPos(m, s)
    requires Beh(m, c1, s, o) && !o.Diverge?
    ensures Ends(m, ChoicePart(c1), true, s, ChoiceEnd(o, s))
  {
    forall caps: seq<Capture>
      ensures EndsAt(m, ChoicePart(c1), true, s, caps, ChoiceEnd(o, s))
    {
      GuardRun(m, c1, |c1| + 2, s, o, caps);
      GuardedEndsAt(m, ChoicePart(c1), s, o, caps);
    }
  }

  /** The jumps of a guarded alternative. */
  lemma GuardPartOk(c1: Code, q: int, P: Code)
    requires WF(c1) && |c1| + 1 <= q <= |P| && P[..|c1| + 1] == GuardPart(c1, q)
    ensures forall i :: 0 <= i < |c1| + 1 ==> InstrOk(P, i)
    ensures forall i :: 0 <= i < |c1| + 1 && IsJmp(P[i].op) ==>
      1 <= i + P[i].off <= q && (P[i].op.PartialCommit? ==> i + P[i].off < |c1| + 1)
    ensures P[0].off == q && (P[0].op.Choice? || P[0].op.Test?)
  {
    var x := GuardPart(c1, q);
    assert P[0] == P[..|c1| + 1][0] == x[0];
    if |c1| > 0 && c1[0].op.Check? {
      var r := c1[1..];
      AllOkRest(c1);
      assert InstrOk(c1, 0);
      assert ([Instr(Choice(0), q)] + c1)[2..] == r;
      assert P[1] == P[..|c1| + 1][1] == x[1];
      assert P[2..2 + |r|] == P[..|c1| + 1][2..] == r;
      BodyOkAt(P, 2, r);
    } else {
      assert P[1..1 + |c1|] == P[..|c1| + 1][1..] == c1;
      BodyOkAt(P, 1, c1);
    }
  }

  function ChoiceUnion(c1: Code, c2: Code): Code {
    ChoicePart(c1) + [Instr(Commit, |c2| + 1)] + c2
  }

  lemma ChoiceUnionWF(c1: Code, c2: Code)
    requires WF(c1) && WF(c2)
    ensures WF(ChoiceUnion(c1, c2)) && FirstPart(ChoiceUnion(c1, c2)) == |c1| + 2
    ensures PartJumps(ChoiceUnion(c1, c2), |c1| + 2)
  {
    var c := ChoiceUnion(c1, c2);
    var l1 := |c1|;
    assert c[..l1 + 1] == ChoicePart(c1);
    GuardPartOk(c1, l1 + 2, c);
    assert c[l1 + 2..l1 + 2 + |c2|] == c2 && c[l1 + 1] == Instr(Commit, |c2| + 1);
    forall i | 0 <= i < |c|
      ensures InstrOk(c, i) && (IsJmp(c[i].op) ==> i + c[i].off >= 1)
    {
      if i >= l1 + 2 {
        assert InstrOk(c2, i - l1 - 2);
        InstrOkAt(c, l1 + 2, c2, i - l1 - 2);
        assert c[i] == c2[i - l1 - 2];
      }
    }
  }

  lemma ChoiceUnionGood(c1: Code, e1: Expr, c2: Code, e2: Expr)
    requires WF(c1) && Correct(c1, e1) && Good(c2, e2)
    ensures Good(ChoiceUnion(c1, c2), Alt(e1, e2))
  {
    var c := ChoiceUnion(c1, c2);
    var sp := |c1| + 2;
    ChoiceUnionWF(c1, c2);
    assert c[..sp - 1] == ChoicePart(c1) && c[sp - 1] == Instr(Commit, |c2| + 1);
    forall m: Mode, s: int | ValidPos(m, s)
      ensures PartRuns(m, c, sp, Alt(e1, e2), e2, s)
    {
      ChoiceUnionRuns(c, c1, e1, e2, m, s);
    }
    assert c[sp..] == c2;
    PartGood(c, sp, Alt(e1, e2), e2);
  }

  lemma ChoiceUnionRuns(c: Code, c1: Code, e1: Expr, e2: Expr, m: Mode, s: int)
    requires WF(c1) && Correct(c1, e1) && ValidPos(m, s) && |c1| + 2 <= |c|
    requires c[..|c1| + 1] == ChoicePart(c1) && c[|c1| + 1].op.Commit?
    ensures PartRuns(m, c, |c1| + 2, Alt(e1, e2), e2, s)
  {
    var sp := |c1| + 2;
    var o := Eval(e1, m, s);
    if !Eval(Alt(e1, e2), m, s).Diverge? {
      assert Beh(m, c1, s, o);
      ChoicePartEnds(m, c1, s, o);
      assert Prepend([], Eval(e2, m, s)) == Eval(e2, m, s);
      assert PartCond(m, c, sp, Alt(e1, e2), e2, s, ChoiceEnd(o, s));
      PartReachRuns(m, c, sp, Alt(e1, e2), e2, s, ChoiceEnd(o, s));
    }
  }

  /** A union whose first operand cannot be split. */
  lemma BasicUnionGood(c1: Code, e1: Expr, c2: Code, e2: Expr)
    requires WF(c1) && Correct(c1, e1) && Good(c2, e2)
    ensures Good(BasicUnion(c1, c2), Alt(e1, e2))
  {
    var t1, t2 := ToCharset(c1), ToCharset(c2);
    if t1.IsCharset? && t2.IsCharset? {
      CharsetUnion(c1, e1, c2, e2);
    } else if Exclusive(t1, t2) || IsHeadFail(c1) {
      TestUnionGood(c1, e1, c2, e2);
    } else {
      ChoicePartSplit(c1, Instr(Commit, |c2| + 1), c2);
      ChoiceUnionGood(c1, e1, c2, e2);
    }
  }

  // ----- an existing union in front of a new alternative -----

  lemma KeepPartWF(c1: Code, sp: nat, t: Code)
    requires WF(c1) && sp == FirstPart(c1) > 0 && PartJumps(c1, sp) && WF(t)
    ensures WF(KeepPart(c1, sp, t)) && FirstPart(KeepPart(c1, sp, t)) == sp
    ensures PartJumps(KeepPart(c1, sp, t), sp)
  {
    var c := KeepPart(c1, sp, t);
    assert sp >= 2;
    assert c[sp..sp + |t|] == t && c[sp - 1] == Instr(c1[sp - 1].op, |t| + 1);
    assert forall i :: 0 <= i < sp - 1 ==> c[i] == c1[i];
    forall i | 0 <= i < |c|
      ensures InstrOk(c, i) && (IsJmp(c[i].op) ==> i + c[i].off >= 1)
    {
      if i < sp - 1 {
        assert InstrOk(c1, i);
      } else if i >= sp {
        assert InstrOk(t, i - sp);
        InstrOkAt(c, sp, t, i - sp);
        assert c[i] == t[i - sp];
      }
    }
  }

  /** A new alternative cannot match where a kept, jump-ended one fails. */
  lemma NoInterference(m: Mode, part: Code, c2: Code, e2: Expr, s: int)
    requires |part| > 0 && part[0].op.Test? && KindOk(part[0].op.k) && !NoFail(part)
    requires !Interfere(part, ToCharset(c2)) && WF(c2) && Correct(c2, e2)
    requires ValidPos(m, s) && Passes(m, part[0].op.k, s) && !Eval(e2, m, s).Diverge?
    ensures Eval(e2, m, s).Failure?
  {
    PassesIsMatches(m, part[0].op.k, s);
    CannotStart(m, c2, e2, s);
  }

  /** An alternative without a failing instruction does not fail. */
  lemma NoFailPart(m: Mode, x: Code, s: int, caps: seq<Capture>)
    requires NoFail(x)
    requires forall i :: 0 <= i < |x| && IsJmp(x[i].op) ==> i + x[i].off >= 0
    ensures !EndsAt(m, x, false, s, caps, Lost)
  {
    var st := Run(0, s, [], caps);
    forall k: nat
      ensures Iter(m, x, |caps|, st, k) != Failing([])
    {
      NoFailRun(m, x, |caps|, st, k, 0);
    }
  }

  /** A kept alternative that fails: neither the others nor the new one can match. */
  lemma KeepLost(c1: Code, sp: nat, e: Expr, et: Expr, c2: Code, e2: Expr, m: Mode, s: int, caps: seq<Capture>)
    requires WF(c1) && sp == FirstPart(c1) >= 2 && ValidPos(m, s) && PartCond(m, c1, sp, e, et, s, Lost)
    requires EndsAt(m, c1[..sp - 1], false, s, caps, Lost) && !Interfere(c1[..sp], ToCharset(c2))
    requires WF(c2) && Correct(c2, e2) && !Eval(e2, m, s).Diverge?
    ensures Eval(e2, m, s).Failure?
  {
    var x := c1[..sp - 1];
    assert InstrOk(c1, 0);
    assert forall i :: 0 <= i < |x| ==> x[i] == c1[i] == c1[..sp][i];
    if NoFail(c1[..sp]) {
      NoFailPart(m, x, s, caps);
    } else {
      NoInterference(m, c1[..sp], c2, e2, s);
    }
  }

  lemma KeepCond(c1: Code, c: Code, sp: nat, e: Expr, et: Expr, e2: Expr, m: Mode, s: int, pe: PartEnd)
    requires 2 <= sp <= |c1| && sp <= |c| && c[sp - 1].op == c1[sp - 1].op && c[0] == c1[0]
    requires NoFail(c1[..sp]) == NoFail(c[..sp]) && ValidPos(m, s) && !Eval(Alt(e, e2), m, s).Diverge?
    requires PartCond(m, c1, sp, e, et, s, pe) && (pe.Lost? ==> Eval(e2, m, s).Failure?)
    ensures PartCond(m, c, sp, Alt(e, e2), Alt(et, e2), s, pe)
  {
    assert forall o: Out :: Prepend([], o) == o;
  }

  lemma KeepPartRuns(c1: Code, sp: nat, e: Expr, et: Expr, t: Code, c2: Code, e2: Expr, m: Mode, s: int)
    requires WF(c1) && sp == FirstPart(c1) >= 2 && Part(c1, sp, e, et)
    requires !Rebuilds(c1, c2, sp)
    requires WF(c2) && Correct(c2, e2) && ValidPos(m, s)
    ensures PartRuns(m, KeepPart(c1, sp, t), sp, Alt(e, e2), Alt(et, e2), s)
  {
    var c := KeepPart(c1, sp, t);
    if !Eval(Alt(e, e2), m, s).Diverge? {
      assert PartRuns(m, c1, sp, e, et, s);
      var x, commit := c1[..sp - 1], c1[sp - 1].op.Commit?;
      assert c[..sp - 1] == x && c[sp - 1].op == c1[sp - 1].op && c[0] == c1[0];
      SameNoFail(c1[..sp], c[..sp]);
      forall caps: seq<Capture>
        ensures PartRun(m, c, sp, Alt(e, e2), Alt(et, e2), s, caps)
      {
        assert PartRun(m, c1, sp, e, et, s, caps);
        var pe: PartEnd :| PartCond(m, c1, sp, e, et, s, pe) && EndsAt(m, x, commit, s, caps, pe);
        if pe.Lost? { KeepLost(c1, sp, e, et, c2, e2, m, s, caps); }
        KeepCond(c1, c, sp, e, et, e2, m, s, pe);
        assert EndsAt(m, c[..sp - 1], c[sp - 1].op.Commit?, s, caps, pe);
      }
    }
  }

  lemma SameNoFail(a: Code, b: Code)
    requires |a| == |b| && forall i :: 0 <= i < |a| ==> a[i].op == b[i].op
    ensures NoFail(a) == NoFail(b)
  {
  }

  lemma KeepPartGood(c1: Code, sp: nat, e: Expr, et: Expr, t: Code, c2: Code, e2: Expr)
    requires WF(c1) && sp == FirstPart(c1) >= 2 && Part(c1, sp, e, et)
    requires !Rebuilds(c1, c2, sp)
    requires WF(c2) && Correct(c2, e2) && Good(t, Alt(et, e2))
    ensures Good(KeepPart(c1, sp, t), Alt(e, e2))
  {
    var c := KeepPart(c1, sp, t);
    KeepPartWF(c1, sp, t);
    assert OneByte(c, sp) by {
      assert sp >= 2 && c[0] == c1[0];
      SameNoFail(c1[..sp], c[..sp]);
    }
    forall m: Mode, s: int | ValidPos(m, s)
      ensures PartRuns(m, c, sp, Alt(e, e2), Alt(et, e2), s)
    {
      KeepPartRuns(c1, sp, e, et, t, c2, e2, m, s);
    }
    assert c[sp..] == t;
    PartGood(c, sp, Alt(e, e2), Alt(et, e2));
  }

  // ----- back to a non-optimized choice -----

  lemma RebuiltInstr(c1: Code, sp: nat, c: Code, i: nat)
    requires WF(c1) && sp == FirstPart(c1) >= 2 && c1[0].op.Test? && PartJumps(c1, sp)
    requires sp < |c| && c[0].op.Test? && forall j {:trigger c1[j]} :: 1 <= j < sp - 1 ==> c[j + 1] == c1[j]
    requires 2 <= i < sp && !c[sp].op.Jmp?
    ensures InstrOk(c, i)
    ensures IsJmp(c[i].op) ==> 1 <= i + c[i].off <= sp + 1 && (c[i].op.PartialCommit? ==> i + c[i].off < sp + 1)
  {
    assert c1[i - 1] == c[i] && InstrOk(c1, i - 1);
    var q := i - 1 + c1[i - 1].off;
    if IsJmp(c1[i - 1].op) && q <= i - 1 {
      assert c[q + 1] == c1[q];
      assert q >= 2 ==> c[q] == c1[q - 1];
    }
  }

  lemma RebuildPartWF(c1: Code, sp: nat, t: Code)
    requires WF(c1) && sp == FirstPart(c1) >= 2 && c1[0].op.Test? && PartJumps(c1, sp) && WF(t)
    ensures WF(RebuildPart(c1, sp, t)) && FirstPart(RebuildPart(c1, sp, t)) == sp + 1
    ensures PartJumps(RebuildPart(c1, sp, t), sp + 1)
  {
    var c := RebuildPart(c1, sp, t);
    assert InstrOk(c1, 0);
    assert c[sp + 1..sp + 1 + |t|] == t && c[sp] == Instr(Commit, |t| + 1);
    assert forall i {:trigger c1[i]} :: 1 <= i < sp - 1 ==> c[i + 1] == c1[i];
    forall i | 0 <= i < |c|
      ensures InstrOk(c, i) && (IsJmp(c[i].op) ==> i + c[i].off >= 1)
      ensures i < sp && IsJmp(c[i].op) ==>
        i + c[i].off <= sp + 1 && (c[i].op.PartialCommit? ==> i + c[i].off < sp + 1)
    {
      if 2 <= i < sp {
        RebuiltInstr(c1, sp, c, i);
      } else if i > sp {
        assert InstrOk(t, i - sp - 1);
        InstrOkAt(c, sp + 1, t, i - sp - 1);
        assert c[i] == t[i - sp - 1];
      }
    }
  }

  /** How the rebuilt alternative ends, from how the original did: where that failed, the next alternative
      is tried one byte back from the end of the test, at `back`. */
  function RebuiltEnd(pe: PartEnd, back: int): PartEnd {
    if pe.Lost? then Other(back, []) else pe
  }

  function BackTo(c1: Code, s: int): int
    requires |c1| > 0 && c1[0].op.Test?
  {
    s + StepOf(c1[0].op.k) - 1
  }

  lemma RebuiltPass(m: Mode, c1: Code, sp: nat, t: Code, s: int, pe: PartEnd, caps: seq<Capture>)
    requires WF(c1) && sp == FirstPart(c1) >= 2 && c1[0].op.Test? && NoZero(c1)
    requires ValidPos(m, s) && Passes(m, c1[0].op.k, s)
    requires EndsAt(m, c1[..sp - 1], false, s, caps, pe) && !pe.Other?
    ensures EndsAt(m, RebuildPart(c1, sp, t)[..sp], true, s, caps, RebuiltEnd(pe, BackTo(c1, s)))
  {
    var x := c1[..sp - 1];
    var body := c1[1..sp - 1];
    var y := RebuildPart(c1, sp, t)[..sp];
    assert y == [Instr(c1[0].op, sp + 1), Instr(Choice(1), sp)] + body;
    assert x[1..] == body;
    var fin := if pe.Thru? then Run(|x|, pe.s, [], caps + pe.d) else Failing([]);
    assert NoZero(x) by { assert forall i :: 0 <= i < |x| ==> x[i] == c1[i]; }
    RestReach(m, x, |caps|, s, caps, fin);
    var back := BackTo(c1, s);
    var f := Back(sp + 1, back, caps);
    assert ShiftStk([], -1) + [] == [];
    var bfin := if pe.Thru? then Run(|body|, pe.s, [], caps + pe.d) else Failing([]);
    assert Shift(fin, -1, []) == bfin;
    assert y[2..2 + |body|] == body;
    ReachAt(m, y, |caps|, 2, body, Run(0, back + 1, [], caps), [f], |caps|, bfin);
    assert ShiftStk([], 2) + [f] == [f];
    var st, mid := Run(0, s, [], caps), Run(2, back + 1, [f], caps);
    var o := if pe.Thru? then Succ(pe.s, pe.d) else Failure;
    assert Shift(bfin, 2, [f]) == Final(|y|, [f], caps, o);
    assert InstrOk(c1, 0);
    PassesIsMatches(m, c1[0].op.k, s);
    EnterRebuilt(m, y, sp, s, back, caps);
    GuardedEnds(m, y, sp + 1, back, o, caps, st, mid);
    assert caps + [] == caps;
  }

  lemma EnterRebuilt(m: Mode, y: Code, sp: nat, s: int, back: int, caps: seq<Capture>)
    requires |y| == sp >= 2 && y[0].op.Test? && y[1] == Instr(Choice(1), sp) && back == BackTo(y, s)
    requires CanRead(m, s) && CanRead(m, back) && CanRead(m, back + 1) && Passes(m, y[0].op.k, s)
    ensures Reach(m, y, |caps|, Run(0, s, [], caps), Run(2, back + 1, [Back(sp + 1, back, caps)], caps))
  {
    var st := Run(0, s, [], caps);
    var s1 := Run(1, back + 1, [], caps);
    assert Step(m, y, |caps|, st) == s1;
    assert [Back(sp + 1, back, caps)] + [] == [Back(sp + 1, back, caps)];
    assert Step(m, y, |caps|, s1) == Run(2, back + 1, [Back(sp + 1, back, caps)], caps);
    Tick(m, y, |caps|, st);
    Tick(m, y, |caps|, s1);
    Chain(m, y, |caps|, st, s1, Run(2, back + 1, [Back(sp + 1, back, caps)], caps));
  }

  /** When the test fails, the original alternative goes on with the next one. */
  lemma TestFailsPart(m: Mode, c1: Code, sp: nat, s: int, caps: seq<Capture>, pe: PartEnd)
    requires sp == FirstPart(c1) >= 2 && c1[0].op.Test?
    requires CanRead(m, s) && !Passes(m, c1[0].op.k, s)
    requires EndsAt(m, c1[..sp - 1], false, s, caps, pe)
    ensures pe == Other(s, [])
  {
    var x := c1[..sp - 1];
    var st := Run(0, s, [], caps);
    assert Step(m, x, |caps|, st) == Run(sp, s, [], caps);
    Tick(m, x, |caps|, st);
    match pe
    case Thru(s1, d) => Deterministic(m, x, |caps|, st, Run(sp, s, [], caps), Run(|x|, s1, [], caps + d));
    case Other(s1, d) =>
      Deterministic(m, x, |caps|, st, Run(sp, s, [], caps), Run(|x| + 1, s1, [], caps + d));
      assert |caps + d| == |caps| + |d|;
    case Lost => Deterministic(m, x, |caps|, st, Run(sp, s, [], caps), Failing([]));
  }

  lemma RebuiltEnds(m: Mode, c1: Code, sp: nat, t: Code, s: int, caps: seq<Capture>, pe: PartEnd)
    requires WF(c1) && sp == FirstPart(c1) >= 2 && c1[0].op.Test? && NoZero(c1)
    requires ValidPos(m, s)
    requires EndsAt(m, c1[..sp - 1], false, s, caps, pe) && (pe.Other? ==> !Passes(m, c1[0].op.k, s))
    ensures EndsAt(m, RebuildPart(c1, sp, t)[..sp], true, s, caps, RebuiltEnd(pe, BackTo(c1, s)))
  {
    if Passes(m, c1[0].op.k, s) {
      RebuiltPass(m, c1, sp, t, s, pe, caps);
    } else {
      var y := RebuildPart(c1, sp, t)[..sp];
      TestFailsPart(m, c1, sp, s, caps, pe);
      assert caps + [] == caps;
      assert Step(m, y, |caps|, Run(0, s, [], caps)) == Run(sp + 1, s, [], caps);
      Tick(m, y, |caps|, Run(0, s, [], caps));
    }
  }

  lemma RebuildPartRuns(c1: Code, sp: nat, e: Expr, et: Expr, t: Code, e2: Expr, m: Mode, s: int)
    requires WF(c1) && sp == FirstPart(c1) >= 2 && Part(c1, sp, e, et)
    requires c1[sp - 1].op.Jmp? && c1[0].op.Test? && StepOf(c1[0].op.k) == 1 && !NoFail(c1[..sp]) && ValidPos(m, s)
    ensures PartRuns(m, RebuildPart(c1, sp, t), sp + 1, Alt(e, e2), Alt(et, e2), s)
  {
    var c := RebuildPart(c1, sp, t);
    if !Eval(Alt(e, e2), m, s).Diverge? {
      assert PartRuns(m, c1, sp, e, et, s);
      assert c[sp].op.Commit?;
      var sp' := sp + 1;
      forall caps: seq<Capture>
        ensures PartRun(m, c, sp', Alt(e, e2), Alt(et, e2), s, caps)
      {
        assert PartRun(m, c1, sp, e, et, s, caps);
        var pe: PartEnd :| PartCond(m, c1, sp, e, et, s, pe) && EndsAt(m, c1[..sp - 1], false, s, caps, pe);
        RebuiltEnds(m, c1, sp, t, s, caps, pe);
        if !Passes(m, c1[0].op.k, s) { TestFailsPart(m, c1, sp, s, caps, pe); }
        RebuiltCond(c1, c, sp, e, et, e2, m, s, pe);
      }
    }
  }

  lemma RebuiltCond(c1: Code, c: Code, sp: nat, e: Expr, et: Expr, e2: Expr, m: Mode, s: int, pe: PartEnd)
    requires 2 <= sp <= |c1| && sp < |c| && c[sp].op.Commit? && ValidPos(m, s) && !Eval(Alt(e, e2), m, s).Diverge?
    requires PartCond(m, c1, sp, e, et, s, pe) && (pe.Other? ==> pe == Other(s, []))
    ensures PartCond(m, c, sp + 1, Alt(e, e2), Alt(et, e2), s, RebuiltEnd(pe, s))
  {
    assert forall o: Out :: Prepend([], o) == o;
  }

  lemma RebuildPartGood(c1: Code, sp: nat, e: Expr, et: Expr, t: Code, e2: Expr)
    requires WF(c1) && sp == FirstPart(c1) >= 2 && Part(c1, sp, e, et)
    requires c1[sp - 1].op.Jmp? && c1[0].op.Test? && StepOf(c1[0].op.k) == 1 && !NoFail(c1[..sp])
    requires Good(t, Alt(et, e2))
    ensures Good(RebuildPart(c1, sp, t), Alt(e, e2))
  {
    var c := RebuildPart(c1, sp, t);
    RebuildPartWF(c1, sp, t);
    assert c[sp].op.Commit?;
    forall m: Mode, s: int | ValidPos(m, s)
      ensures PartRuns(m, c, sp + 1, Alt(e, e2), Alt(et, e2), s)
    {
      RebuildPartRuns(c1, sp, e, et, t, e2, m, s);
    }
    assert c[sp + 1..] == t;
    PartGood(c, sp + 1, Alt(e, e2), Alt(et, e2));
  }

  // ----- union_l -----

  lemma SeparatePartsIs(c1: Code, c2: Code)
    requires FirstPart(c1) > 0
    ensures
      var sp := FirstPart(c1);
      var t := SeparateParts(c1[sp..], c2);
      SeparateParts(c1, c2) ==
        if Rebuilds(c1, c2, sp) then RebuildPart(c1, sp, t) else KeepPart(c1, sp, t)
  {
  }

  /** One alternative of `c1` in front of the union `t` of the others and `c2`. */
  lemma SeparateOne(c1: Code, sp: nat, e: Expr, et: Expr, t: Code, c2: Code, e2: Expr)
    requires WF(c1) && sp == FirstPart(c1) >= 2 && Part(c1, sp, e, et)
    requires WF(c2) && Correct(c2, e2) && Good(t, Alt(et, e2))
    ensures !Rebuilds(c1, c2, sp) ==> Good(KeepPart(c1, sp, t), Alt(e, e2))
    ensures Rebuilds(c1, c2, sp) && StepOf(c1[0].op.k) == 1 ==> Good(RebuildPart(c1, sp, t), Alt(e, e2))
  {
    if !Rebuilds(c1, c2, sp) {
      KeepPartGood(c1, sp, e, et, t, c2, e2);
    } else if StepOf(c1[0].op.k) == 1 {
      RebuildPartGood(c1, sp, e, et, t, e2);
    }
  }

  lemma GoodBasics(c: Code, e: Expr)
    requires Good(c, e)
    ensures WF(c) && Correct(c, e)
  {
  }

  /** `separateparts` builds the ordered choice of the old alternatives and the new one. */
  lemma SeparatePartsGood(c1: Code, es: seq<Expr>, c2: Code, e2: Expr)
    requires Inv(c1, es) && Good(c2, e2) && NarrowUnion(c1, c2)
    ensures Good(SeparateParts(c1, c2), Alt(es[0], e2))
    decreases |c1|
  {
    var sp := FirstPart(c1);
    if sp == 0 {
      BasicUnionGood(c1, es[0], c2, e2);
    } else {
      var et := es[1];
      SeparatePartsGood(c1[sp..], es[1..], c2, e2);
      GoodBasics(c2, e2);
      SeparatePartsIs(c1, c2);
      SeparateOne(c1, sp, es[0], et, SeparateParts(c1[sp..], c2), c2, e2);
    }
  }

  lemma FailFirst(c: Code, e: Expr, m: Mode, s: int)
    requires StartsWithFail(c) && FirstOk(c) && Correct(c, e) && ValidPos(m, s)
    ensures Eval(e, m, s).Diverge? || Eval(e, m, s).Failure?
  {
    var o := Eval(e, m, s);
    assert Beh(m, c, s, o);
    if !o.Diverge? {
      var none: seq<Capture> := [];
      assert |none| == 0;
      var st := Run(0, s, [], none);
      assert Reach(m, c, 0, st, Final(|c|, [], none, o));
      assert Step(m, c, 0, st) == Failing([]);
      Tick(m, c, 0, st);
      Deterministic(m, c, 0, st, Failing([]), Final(|c|, [], none, o));
    }
  }

  /** `p1 + p2` is ordered choice, whatever `p1` is made of, unless an alternative behind a test of several
      bytes is rebuilt. */
  lemma UnionGood(c1: Code, e1: Expr, c2: Code, e2: Expr)
    requires Good(c1, e1) && Good(c2, e2) && NarrowChoice(c1, c2)
    ensures Good(UnionCode(c1, c2), Alt(e1, e2))
  {
    if StartsWithFail(c1) {
      forall m: Mode, s: int | ValidPos(m, s)
        ensures Eval(Alt(e1, e2), m, s).Diverge? || Eval(e2, m, s) == Eval(Alt(e1, e2), m, s)
      {
        FailFirst(c1, e1, m, s);
      }
      GoodEq(c2, e2, Alt(e1, e2));
    } else if StartsWithFail(c2) {
      forall m: Mode, s: int | ValidPos(m, s)
        ensures Eval(Alt(e1, e2), m, s).Diverge? || Eval(e1, m, s) == Eval(Alt(e1, e2), m, s)
      {
        FailFirst(c2, e2, m, s);
      }
      GoodEq(c1, e1, Alt(e1, e2));
    } else {
      var es: seq<Expr> :| |es| > 0 && es[0] == e1 && Inv(c1, es);
      SeparatePartsGood(c1, es, c2, e2);
    }
  }
}
