/** Literals, numbers, difference and the and-predicate. */
module LpegPredicates {
  import opened LpegCode
  import opened LpegSemantics
  import opened LpegMachine
  import opened LpegBehaviour
  import opened LpegRewrite
  import opened LpegCompile
  import opened LpegInvariant
  import opened LpegBasic
  import opened LpegUnion

  lemma CharGood(b: Byte)
    ensures Good([Instr(Check(KChar(b)), 0)], Lit([b]))
  {
    forall m: Mode, s: int | ValidPos(m, s)
      ensures Eval(Lit([b]), m, s) == CheckOut(m, KChar(b), s)
    {
      if m.Real? && s < |m.subj| { assert m.subj[s..s + 1] == [m.subj[s]]; }
    }
    CheckCorrect(KChar(b), Lit([b]));
  }

  lemma LitLonger(b: Byte, rest: seq<Byte>, c: Code)
    requires Good(c, Lit(rest))
    ensures Good([Instr(Check(KChar(b)), 0)] + c, Lit([b] + rest))
  {
    var c' := [Instr(Check(KChar(b)), 0)] + c;
    var bytes := [b] + rest;
    CharGood(b);
    ConcatGood([Instr(Check(KChar(b)), 0)], Lit([b]), c, Lit(rest));
    assert bytes[0] == b && bytes[1..] == rest;
    forall m: Mode, s: int | ValidPos(m, s)
      ensures Eval(Seq(Lit([b]), Lit(rest)), m, s) == Eval(Lit(bytes), m, s)
    {
      LitSplit(bytes, m, s);
    }
    GoodEq(c', Seq(Lit([b]), Lit(rest)), Lit(bytes));
  }

  lemma {:induction false} LitGood(bytes: seq<Byte>)
    ensures Good(LitCode(bytes), Lit(bytes))
    decreases |bytes|
  {
    if bytes == [] {
      assert LitCode(bytes) == [];
      EmptyCorrect(Lit([]));
    } else {
      LitGood(bytes[1..]);
      LitLonger(bytes[0], bytes[1..], LitCode(bytes[1..]));
      LitCons(bytes);
    }
  }

  lemma LitCons(bytes: seq<Byte>)
    requires bytes != []
    ensures bytes == [bytes[0]] + bytes[1..]
    ensures LitCode(bytes) == [Instr(Check(KChar(bytes[0])), 0)] + LitCode(bytes[1..])
  {
  }

  lemma FirstAndRest(subj: seq<Byte>, s: nat, bytes: seq<Byte>)
    requires bytes != [] && s + |bytes| <= |subj|
    ensures subj[s..s + 1] == [subj[s]]
    ensures subj[s..s + |bytes|] == bytes <==> subj[s] == bytes[0] && subj[s + 1..s + |bytes|] == bytes[1..]
  {
    var t := subj[s..s + |bytes|];
    assert t == [t[0]] + t[1..] && bytes == [bytes[0]] + bytes[1..] && t[1..] == subj[s + 1..s + |bytes|];
  }

  lemma LitSplit(bytes: seq<Byte>, m: Mode, s: int)
    requires bytes != [] && ValidPos(m, s)
    ensures Eval(Seq(Lit([bytes[0]]), Lit(bytes[1..])), m, s) == Eval(Lit(bytes), m, s)
  {
    if m.Real? && |bytes| <= |m.subj| - s { FirstAndRest(m.subj, s, bytes); }
  }

  lemma NumCheck(n: nat)
    requires 1 <= n <= UCHAR_MAX
    ensures Good([Instr(Check(KAny(n)), 0)], Num(n))
  {
    CheckCorrect(KAny(n), Num(n));
  }

  lemma NumSplit(a: nat, b: nat, m: Mode, s: int)
    requires a >= 1 && b >= 1 && ValidPos(m, s)
    ensures Eval(Seq(Num(a), Num(b)), m, s) == Eval(Num(a + b), m, s)
  {
  }

  lemma NumSeq(c: Code, a: nat, b: nat)
    requires a >= 1 && b >= 1 && Good(c, Seq(Num(a), Num(b)))
    ensures Good(c, Num(a + b))
  {
    forall m: Mode, s: int | ValidPos(m, s)
      ensures Eval(Seq(Num(a), Num(b)), m, s) == Eval(Num(a + b), m, s)
    {
      NumSplit(a, b, m, s);
    }
    GoodEq(c, Seq(Num(a), Num(b)), Num(a + b));
  }

  lemma AnyLonger(u: nat, rest: Code, n: nat)
    requires 1 <= u <= UCHAR_MAX && n >= 1 && Good(rest, Num(n))
    ensures Good([Instr(Check(KAny(u)), 0)] + rest, Num(u + n))
  {
    var first := [Instr(Check(KAny(u)), 0)];
    NumCheck(u);
    ConcatGood(first, Num(u), rest, Num(n));
    NumSeq(first + rest, u, n);
  }

  lemma {:induction false} AnyGood(n: nat)
    requires n >= 1
    ensures Good(AnyCode(n), Num(n))
  {
    var u := UCHAR_MAX;
    if n > u {
      AnyGood(n - u);
      AnyLonger(u, AnyCode(n - u), n - u);
    } else {
      NumCheck(n);
    }
  }

  // ----- difference -----

  lemma CharsetDiff(c1: Code, e1: Expr, c2: Code, e2: Expr)
    requires WF(c1) && Correct(c1, e1) && WF(c2) && Correct(c2, e2)
    requires ToCharset(c1).IsCharset? && ToCharset(c2).IsCharset?
    ensures Good(SetCode(ToCharset(c1).cs - ToCharset(c2).cs), Diff(e1, e2))
  {
    assert InstrOk(c1, 0) && InstrOk(c2, 0);
    var k1, k2 := c1[0].op.k, c2[0].op.k;
    var cs := FillCharset(k1) - FillCharset(k2);
    CheckEval(c1, k1, e1);
    CheckEval(c2, k2, e2);
    forall m: Mode, s: int | ValidPos(m, s)
      ensures Eval(Diff(e1, e2), m, s).Diverge? || Eval(Diff(e1, e2), m, s) == CheckOut(m, SetCheck(cs), s)
    {
      OneByteMatch(m, k1, s);
      OneByteMatch(m, k2, s);
    }
    CheckCorrect(SetCheck(cs), Diff(e1, e2));
  }

  function TestDiff(c1: Code, c2: Code): Code
    requires |c2| > 0 && c2[0].op.Check?
  {
    Check2Test(c2, |c2| + 1) + [Instr(Fail(false), 0)] + c1
  }

  lemma TestDiffWF(c1: Code, c2: Code)
    requires WF(c1) && WF(c2) && |c2| > 0 && c2[0].op.Check?
    ensures WF(TestDiff(c1, c2)) && FirstPart(TestDiff(c1, c2)) == 0
  {
    var c := TestDiff(c1, c2);
    var r := c2[1..];
    var l := |c2|;
    AllOkRest(c2);
    assert InstrOk(c2, 0);
    assert c[1..1 + |r|] == r && c[l + 1..l + 1 + |c1|] == c1 && c[l] == Instr(Fail(false), 0);
    BodyOkAt(c, 1, r);
    BodyOkAt(c, l + 1, c1);
    forall i | 0 <= i < |c|
      ensures InstrOk(c, i) && (IsJmp(c[i].op) ==> i + c[i].off >= 1)
    {
    }
  }

  lemma TestDiffRun(m: Mode, c1: Code, c2: Code, s: int, o1: Out, o2: Out, caps: seq<Capture>)
    requires WF(c1) && WF(c2) && IsHeadFail(c2) && ValidPos(m, s)
    requires Beh(m, c2, s, o2) && !o2.Diverge?
    requires o2.Failure? ==> Beh(m, c1, s, o1) && !o1.Diverge?
    ensures
      var c := TestDiff(c1, c2);
      Reach(m, c, |caps|, Run(0, s, [], caps), Final(|c|, [], caps, if o2.Succ? then Failure else o1))
    ensures o2.Succ? ==> m.Real?
  {
    var c := TestDiff(c1, c2);
    var k := c2[0].op.k;
    var st := Run(0, s, [], caps);
    var x := Check2Test(c2, |c2| + 1);
    CheckFirstNoZero(c2);
    TestPartEnds(m, x, c2, s, o2);
    assert c[..|c2|] == x;
    if Passes(m, k, s) {
      HeadFailSucceeds(m, c2, s, o2);
      var mid := Run(|c2|, o2.pos, [], caps + o2.caps);
      assert EndsAt(m, x, false, s, caps, Thru(o2.pos, o2.caps));
      PartAt(m, c, |c2| + 1, caps, st, mid);
      assert Step(m, c, |caps|, mid) == Failing([]);
      Tick(m, c, |caps|, mid);
      Chain(m, c, |caps|, st, mid, Failing([]));
    } else {
      FirstCheckFails(m, c2, s, o2);
      var mid := Run(|c2| + 1, s, [], caps);
      assert EndsAt(m, x, false, s, caps, Other(s, [])) && caps + [] == caps;
      PartAt(m, c, |c2| + 1, caps, st, mid);
      assert c[|c2| + 1..|c2| + 1 + |c1|] == c1;
      RunAt(m, c, |caps|, |c2| + 1, c1, s, [], caps, o1);
      Chain(m, c, |caps|, st, mid, Final(|c|, [], caps, o1));
    }
  }

  function ChoiceDiff(c1: Code, c2: Code): Code {
    ChoicePart(c2) + [Instr(FailTwice, 0)] + c1
  }

  lemma ChoiceDiffWF(c1: Code, c2: Code)
    requires WF(c1) && WF(c2)
    ensures WF(ChoiceDiff(c1, c2)) && FirstPart(ChoiceDiff(c1, c2)) == 0
  {
    var c := ChoiceDiff(c1, c2);
    var l := |c2|;
    assert c[..l + 1] == ChoicePart(c2);
    GuardPartOk(c2, l + 2, c);
    assert c[l + 2..l + 2 + |c1|] == c1 && c[l + 1] == Instr(FailTwice, 0);
    forall i | 0 <= i < |c|
      ensures InstrOk(c, i) && (IsJmp(c[i].op) ==> i + c[i].off >= 1)
    {
      if i >= l + 2 {
        assert InstrOk(c1, i - l - 2);
        InstrOkAt(c, l + 2, c1, i - l - 2);
        assert c[i] == c1[i - l - 2];
      }
    }
  }

  lemma ChoiceDiffRun(m: Mode, c1: Code, c2: Code, s: int, o1: Out, o2: Out, caps: seq<Capture>)
    requires WF(c1) && WF(c2) && ValidPos(m, s)
    requires Beh(m, c2, s, o2) && !o2.Diverge?
    requires o2.Failure? || !m.Real? ==> Beh(m, c1, s, o1) && !o1.Diverge?
    ensures
      var c := ChoiceDiff(c1, c2);
      Reach(m, c, |caps|, Run(0, s, [], caps), Final(|c|, [], caps, if o2.Succ? && m.Real? then Failure else o1))
  {
    var c := ChoiceDiff(c1, c2);
    var q := |c2| + 2;
    var st, other := Run(0, s, [], caps), Run(q, s, [], caps);
    var x := ChoicePart(c2);
    assert c[..q - 1] == x;
    GuardRun(m, c2, q, s, o2, caps);
    PartAt(m, c, q, caps, st, GuardedEnd(q - 1, q, s, caps, o2));
    if o2.Succ? {
      var f := Back(q, s, caps);
      var mid := Run(q - 1, o2.pos, [f], caps + o2.caps);
      assert c[q - 1] == Instr(FailTwice, 0) && [f][1..] == [];
      Tick(m, c, |caps|, mid);
      Chain(m, c, |caps|, st, mid, Step(m, c, |caps|, mid));
      if !m.Real? {
        assert Step(m, c, |caps|, Failing([f])) == other;
        Tick(m, c, |caps|, Failing([f]));
        Chain(m, c, |caps|, st, Failing([f]), other);
      }
    }
    if o2.Failure? || !m.Real? {
      assert c[q..q + |c1|] == c1;
      RunAt(m, c, |caps|, q, c1, s, [], caps, o1);
      Chain(m, c, |caps|, st, other, Final(|c|, [], caps, o1));
    }
  }

  ghost predicate DiffBuilt(c: Code, c1: Code, c2: Code) {
    c == ChoiceDiff(c1, c2) || (IsHeadFail(c2) && c == TestDiff(c1, c2))
  }

  lemma DiffCorrect(c: Code, c1: Code, e1: Expr, c2: Code, e2: Expr)
    requires WF(c1) && Correct(c1, e1) && WF(c2) && Correct(c2, e2) && DiffBuilt(c, c1, c2)
    ensures Correct(c, Diff(e1, e2))
  {
    forall m: Mode, s: int | ValidPos(m, s)
      ensures Beh(m, c, s, Eval(Diff(e1, e2), m, s))
    {
      var o := Eval(Diff(e1, e2), m, s);
      var o2 := Eval(e2, m, s);
      if !o.Diverge? {
        assert Beh(m, c2, s, o2);
        assert Beh(m, c1, s, Eval(e1, m, s));
        forall caps: seq<Capture>
          ensures Reach(m, c, |caps|, Run(0, s, [], caps), Final(|c|, [], caps, o))
        {
          if c == ChoiceDiff(c1, c2) {
            ChoiceDiffRun(m, c1, c2, s, Eval(e1, m, s), o2, caps);
          } else {
            TestDiffRun(m, c1, c2, s, Eval(e1, m, s), o2, caps);
          }
        }
      }
    }
  }

  /** `p1 - p2` matches `p1` where `p2` fails. */
  lemma DiffGood(c1: Code, e1: Expr, c2: Code, e2: Expr)
    requires Good(c1, e1) && Good(c2, e2)
    ensures Good(DiffCode(c1, c2), Diff(e1, e2))
  {
    var c := DiffCode(c1, c2);
    if ToCharset(c1).IsCharset? && ToCharset(c2).IsCharset? {
      CharsetDiff(c1, e1, c2, e2);
    } else {
      if IsHeadFail(c2) {
        TestDiffWF(c1, c2);
      } else {
        ChoicePartSplit(c2, Instr(FailTwice, 0), c1);
        ChoiceDiffWF(c1, c2);
      }
      DiffCorrect(c, c1, e1, c2, e2);
      GoodSimple(c, Diff(e1, e2));
    }
  }

  // ----- numbers -----

  lemma LackEval(n: int, m: Mode, s: int)
    requires n >= 1 && ValidPos(m, s)
    ensures Eval(Diff(Lit([]), Num(n)), m, s) == Eval(Num(-n), m, s)
  {
  }

  /** A negative number is the predicate that `-n` bytes do not follow. */
  lemma LackGood(c: Code, c2: Code, n: int)
    requires n >= 1 && DiffBuilt(c, [], c2) && WF(c2) && Correct(c2, Num(n))
    requires WF(c) && FirstPart(c) == 0
    ensures Good(c, Num(-n))
  {
    EmptyCorrect(Lit([]));
    DiffCorrect(c, [], Lit([]), c2, Num(n));
    GoodSimple(c, Diff(Lit([]), Num(n)));
    forall m: Mode, s: int | ValidPos(m, s)
      ensures Eval(Diff(Lit([]), Num(n)), m, s) == Eval(Num(-n), m, s)
    {
      LackEval(n, m, s);
    }
    GoodEq(c, Diff(Lit([]), Num(n)), Num(-n));
  }

  lemma NumCodeSmall(n: int)
    requires 1 <= n <= UCHAR_MAX
    ensures DiffBuilt(NumCode(-n), [], AnyCode(n))
  {
    assert NumCode(-n) == TestDiff([], AnyCode(n));
  }

  lemma NumCodeBig(n: int)
    requires UCHAR_MAX < n
    ensures DiffBuilt(NumCode(-n), [], AnyCode(n))
  {
    var (c2, a) := (AnyCode(n), AnyCode(n - UCHAR_MAX));
    assert c2 == [Instr(Check(KAny(UCHAR_MAX)), 0)] + a;
    assert ([Instr(Choice(0), |c2| + 2)] + c2)[2..] == a;
    assert NumCode(-n) == ChoiceDiff([], AnyCode(n));
  }

  lemma LackOf(c: Code, c2: Code, n: int)
    requires n >= 1 && Good(c2, Num(n)) && DiffBuilt(c, [], c2)
    ensures Good(c, Num(-n))
  {
    GoodBasics(c2, Num(n));
    if c == ChoiceDiff([], c2) { ChoiceDiffWF([], c2); } else { TestDiffWF([], c2); }
    LackGood(c, c2, n);
  }

  lemma NumLackGood(n: int)
    requires n >= 1
    ensures Good(NumCode(-n), Num(-n))
  {
    AnyGood(n);
    if n <= UCHAR_MAX { NumCodeSmall(n); } else { NumCodeBig(n); }
    LackOf(NumCode(-n), AnyCode(n), n);
  }

  /** `P(n)`: exactly `n` bytes, or fewer than `-n` left. */
  lemma NumGood(n: int)
    ensures Good(NumCode(n), Num(n))
  {
    if n == 0 {
      EmptyCorrect(Num(0));
    } else if n > 0 {
      AnyGood(n);
    } else {
      NumLackGood(-n);
    }
  }

  // ----- and-predicate -----

  lemma AndRun(m: Mode, c1: Code, s: int, o: Out, caps: seq<Capture>)
    requires ValidPos(m, s) && Beh(m, c1, s, o) && !o.Diverge?
    ensures
      var c := AndCode(c1);
      var r := if o.Succ? then Succ(s, o.caps) else if !m.Real? then Succ(s, []) else Failure;
      Reach(m, c, |caps|, Run(0, s, [], caps), Final(|c|, [], caps, r))
  {
    var c := AndCode(c1);
    var q := |c1| + 2;
    var x := [Instr(Choice(0), q)] + c1;
    var st := Run(0, s, [], caps);
    var r := if o.Succ? then Succ(s, o.caps) else if !m.Real? then Succ(s, []) else Failure;
    assert c[..q - 1] == x && c[q - 1] == Instr(BackCommit, 2) && c[q] == Instr(Fail(true), 0);
    PlainChoiceRun(m, x, c1, q, s, o, caps);
    var mid := GuardedEnd(q - 1, q, s, caps, o);
    PartAt(m, c, q, caps, st, mid);
    assert [Back(q, s, caps)][1..] == [] && caps + [] == caps;
    assert Step(m, c, |caps|, mid) == Final(|c|, [], caps, r);
    Tick(m, c, |caps|, mid);
    Chain(m, c, |caps|, st, mid, Final(|c|, [], caps, r));
  }

  /** `#p` matches where `p` does, keeps its captures and consumes nothing. */
  lemma AndGood(c1: Code, e1: Expr)
    requires Good(c1, e1)
    ensures Good(AndCode(c1), And(e1))
  {
    var c := AndCode(c1);
    forall m: Mode, s: int | ValidPos(m, s)
      ensures Beh(m, c, s, Eval(And(e1), m, s))
    {
      var o := Eval(e1, m, s);
      if !o.Diverge? {
        assert Beh(m, c1, s, o);
        forall caps: seq<Capture>
          ensures Reach(m, c, |caps|, Run(0, s, [], caps), Final(|c|, [], caps, Eval(And(e1), m, s)))
        {
          AndRun(m, c1, s, o, caps);
        }
      }
    }
    AndWF(c1);
    GoodSimple(c, And(e1));
  }

  lemma AndWF(c1: Code)
    requires WF(c1)
    ensures WF(AndCode(c1)) && FirstPart(AndCode(c1)) == 0
  {
    var c := AndCode(c1);
    assert c[1..1 + |c1|] == c1 && c[|c1| + 1] == Instr(BackCommit, 2) && c[|c1| + 2] == Instr(Fail(true), 0);
    BodyOkAt(c, 1, c1);
    forall i | 0 <= i < |c|
      ensures InstrOk(c, i) && (IsJmp(c[i].op) ==> i + c[i].off >= 1)
    {
    }
  }
}
