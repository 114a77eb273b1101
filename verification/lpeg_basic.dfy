/** Single checks, sequences and literals. */
module LpegBasic {
  import opened LpegCode
  import opened LpegSemantics
  import opened LpegMachine
  import opened LpegBehaviour
  import opened LpegRewrite
  import opened LpegCompile
  import opened LpegInvariant

  /** `c` is code as the constructors build it for `e`. */
  ghost predicate Good(c: Code, e: Expr) {
    exists es: seq<Expr> :: |es| > 0 && es[0] == e && Inv(c, es)
  }

  /** Wherever `e'` has a result, `e` has the same. */
  ghost predicate Covers(e: Expr, e': Expr) {
    forall m: Mode, s: int {:trigger Eval(e', m, s)} :: ValidPos(m, s) ==>
      Eval(e', m, s).Diverge? || Eval(e, m, s) == Eval(e', m, s)
  }

  lemma CorrectEq(c: Code, e: Expr, e': Expr)
    requires Correct(c, e) && Covers(e, e')
    ensures Correct(c, e')
  {
    forall m: Mode, s: int | ValidPos(m, s)
      ensures Beh(m, c, s, Eval(e', m, s))
    {
      assert Beh(m, c, s, Eval(e, m, s));
    }
  }

  lemma GoodSimple(c: Code, e: Expr)
    requires WF(c) && Correct(c, e) && FirstPart(c) == 0
    ensures Good(c, e)
  {
    assert Inv(c, [e]) && [e][0] == e;
  }

  lemma PartEq(c: Code, sp: nat, e: Expr, e': Expr, et: Expr)
    requires 0 < sp <= |c| && Part(c, sp, e, et) && Covers(e, e')
    ensures Part(c, sp, e', et)
  {
    forall m: Mode, s: int | ValidPos(m, s)
      ensures PartRuns(m, c, sp, e', et, s)
    {
      assert PartRuns(m, c, sp, e, et, s);
      if !Eval(e', m, s).Diverge? {
        forall caps: seq<Capture>
          ensures PartRun(m, c, sp, e', et, s, caps)
        {
          assert PartRun(m, c, sp, e, et, s, caps);
          var pe: PartEnd :|
            PartCond(m, c, sp, e, et, s, pe) && EndsAt(m, c[..sp - 1], c[sp - 1].op.Commit?, s, caps, pe);
          assert PartCond(m, c, sp, e', et, s, pe);
        }
      }
    }
  }

  lemma GoodEq(c: Code, e: Expr, e': Expr)
    requires Good(c, e) && Covers(e, e')
    ensures Good(c, e')
  {
    var es: seq<Expr> :| |es| > 0 && es[0] == e && Inv(c, es);
    var es' := [e'] + es[1..];
    CorrectEq(c, e, e');
    if FirstPart(c) > 0 {
      PartEq(c, FirstPart(c), e, e', es[1]);
      assert es'[1..] == es[1..];
    }
    assert Inv(c, es') && es'[0] == e';
  }

  // ----- well-formedness of concatenations -----

  /** Jumps of the first `b` instructions stay among them or go to instruction `b`. */
  predicate Contained(c: Code, b: int) {
    0 < b < |c| && forall i :: 0 <= i < b && IsJmp(c[i].op) ==> i + c[i].off <= b
  }

  lemma ContainedNoPart(c: Code, b: int)
    requires Contained(c, b)
    ensures FirstPart(c) == 0
  {
  }

  lemma ContainedPrefix(c1: Code, c2: Code)
    requires AllOk(c1) && |c1| > 0 && |c2| > 0
    ensures Contained(c1 + c2, |c1|)
  {
    forall i | 0 <= i < |c1| && IsJmp((c1 + c2)[i].op)
      ensures i + (c1 + c2)[i].off <= |c1|
    {
      assert InstrOk(c1, i);
    }
  }

  lemma AllOkConcat(c1: Code, c2: Code)
    requires AllOk(c1) && AllOk(c2)
    ensures AllOk(c1 + c2)
  {
    var c := c1 + c2;
    forall i | 0 <= i < |c|
      ensures InstrOk(c, i)
    {
      if i < |c1| {
        assert c[0..0 + |c1|] == c1;
        InstrOkAt(c, 0, c1, i);
      } else {
        assert c[|c1|..|c1| + |c2|] == c2;
        InstrOkAt(c, |c1|, c2, i - |c1|);
      }
    }
  }

  /** The first instruction of a pattern stays a good first instruction in front of more code. */
  lemma FirstOkConcat(c1: Code, c2: Code)
    requires WF(c1) && |c1| > 0 && AllOk(c2)
    ensures FirstOk(c1 + c2)
  {
    var c := c1 + c2;
    if |c2| == 0 {
      assert c == c1;
    } else {
      ContainedPrefix(c1, c2);
      ContainedNoPart(c, |c1|);
      if NoZero(c1) {
        forall i | 0 <= i < |c| && IsJmp(c[i].op)
          ensures i + c[i].off >= 1
        {
          if i < |c1| { assert c[i] == c1[i]; } else { assert InstrOk(c2, i - |c1|); }
        }
      }
    }
  }

  lemma WFConcat(c1: Code, c2: Code)
    requires WF(c1) && WF(c2)
    ensures WF(c1 + c2)
  {
    AllOkConcat(c1, c2);
    if |c1| == 0 { assert c1 + c2 == c2; } else { FirstOkConcat(c1, c2); }
  }

  // ----- single checks -----

  function CheckOut(m: Mode, k: CheckKind, s: int): Out
    requires ValidPos(m, s)
  {
    if Matches(m, k, s) then Succ(s + StepOf(k), []) else Failure
  }

  ghost predicate IsCheckExpr(e: Expr, k: CheckKind) {
    forall m: Mode, s: int {:trigger Eval(e, m, s)} :: ValidPos(m, s) ==>
      Eval(e, m, s).Diverge? || Eval(e, m, s) == CheckOut(m, k, s)
  }

  /** What a single check computes is known from its code. */
  lemma CheckEval(c: Code, k: CheckKind, e: Expr)
    requires KindOk(k) && |c| == 1 && c[0].op == Check(k) && Correct(c, e)
    ensures IsCheckExpr(e, k)
  {
    forall m: Mode, s: int | ValidPos(m, s)
      ensures Eval(e, m, s).Diverge? || Eval(e, m, s) == CheckOut(m, k, s)
    {
      var o := Eval(e, m, s);
      if !o.Diverge? {
        PassesIsMatches(m, k, s);
        assert Beh(m, c, s, o);
        var none: seq<Capture> := [];
        assert |none| == 0;
        var st := Run(0, s, [], none);
        assert Reach(m, c, 0, st, Final(1, [], none, o));
        Tick(m, c, 0, st);
        Deterministic(m, c, 0, st, Step(m, c, 0, st), Final(1, [], none, o));
      }
    }
  }

  lemma CheckCorrect(k: CheckKind, e: Expr)
    requires KindOk(k) && IsCheckExpr(e, k)
    ensures Good([Instr(Check(k), 0)], e)
  {
    var c := [Instr(Check(k), 0)];
    forall m: Mode, s: int | ValidPos(m, s)
      ensures Beh(m, c, s, Eval(e, m, s))
    {
      PassesIsMatches(m, k, s);
      var o := Eval(e, m, s);
      if !o.Diverge? {
        forall caps: seq<Capture>
          ensures Reach(m, c, |caps|, Run(0, s, [], caps), Final(|c|, [], caps, o))
        {
          assert caps + [] == caps;
          assert Step(m, c, |caps|, Run(0, s, [], caps)) == Final(|c|, [], caps, o);
          Tick(m, c, |caps|, Run(0, s, [], caps));
        }
      }
    }
    GoodSimple(c, e);
  }

  lemma EmptyCorrect(e: Expr)
    requires Covers(Lit([]), e)
    ensures Good([], e)
  {
    forall m: Mode, s: int | ValidPos(m, s)
      ensures Beh(m, [], s, Eval(e, m, s))
    {
      if !Eval(e, m, s).Diverge? {
        assert Eval(Lit([]), m, s) == Eval(e, m, s);
        forall caps: seq<Capture>
          ensures Reach(m, [], |caps|, Run(0, s, [], caps), Final(0, [], caps, Eval(e, m, s)))
        {
          assert caps + [] == caps;
          Stay(m, [], |caps|, Run(0, s, [], caps));
        }
      }
    }
    GoodSimple([], e);
  }

  // ----- sequences -----

  function Then(o1: Out, o2: Out): Out {
    if o1.Succ? then Prepend(o1.caps, o2) else o1
  }

  lemma ThenFinal(exit: int, base: seq<Frame>, caps: seq<Capture>, o1: Out, o2: Out)
    requires o1.Succ? && !o2.Diverge?
    ensures Final(exit, base, caps + o1.caps, o2) == Final(exit, base, caps, Then(o1, o2))
  {
    if o2.Succ? {
      assert (caps + o1.caps) + o2.caps == caps + (o1.caps + o2.caps);
    }
  }

  lemma SeqBeh(m: Mode, c1: Code, c2: Code, s: int, o1: Out, o2: Out)
    requires Beh(m, c1, s, o1) && (o1.Succ? ==> Beh(m, c2, o1.pos, o2))
    ensures Beh(m, c1 + c2, s, Then(o1, o2))
  {
    var c := c1 + c2;
    var o := Then(o1, o2);
    if !o.Diverge? {
      forall caps: seq<Capture>
        ensures Reach(m, c, |caps|, Run(0, s, [], caps), Final(|c|, [], caps, o))
      {
        assert c[0..0 + |c1|] == c1 && c[|c1|..|c1| + |c2|] == c2;
        RunAt(m, c, |caps|, 0, c1, s, [], caps, o1);
        if o1.Succ? {
          RunAt(m, c, |caps|, |c1|, c2, o1.pos, [], caps + o1.caps, o2);
          ThenFinal(|c|, [], caps, o1, o2);
          Chain(m, c, |caps|, Run(0, s, [], caps), Run(|c1|, o1.pos, [], caps + o1.caps), Final(|c|, [], caps, o));
        }
      }
    }
  }

  lemma SeqCorrect(c1: Code, e1: Expr, c2: Code, e2: Expr)
    requires Correct(c1, e1) && Correct(c2, e2)
    ensures Correct(c1 + c2, Seq(e1, e2))
  {
    forall m: Mode, s: int | ValidPos(m, s)
      ensures Beh(m, c1 + c2, s, Eval(Seq(e1, e2), m, s))
    {
      var o1 := Eval(e1, m, s);
      assert Beh(m, c1, s, o1);
      if o1.Succ? {
        var o2 := Eval(e2, m, o1.pos);
        assert Beh(m, c2, o1.pos, o2);
        SeqBeh(m, c1, c2, s, o1, o2);
      } else {
        SeqBeh(m, c1, c2, s, o1, o1);
      }
    }
  }

  /** Two patterns in a row, before any optimization. */
  lemma ConcatGood(c1: Code, e1: Expr, c2: Code, e2: Expr)
    requires Good(c1, e1) && Good(c2, e2)
    ensures Good(c1 + c2, Seq(e1, e2))
  {
    if |c1| > 0 && |c2| > 0 {
      SeqCorrect(c1, e1, c2, e2);
      WFConcat(c1, c2);
      ContainedPrefix(c1, c2);
      ContainedNoPart(c1 + c2, |c1|);
      GoodSimple(c1 + c2, Seq(e1, e2));
    } else if |c1| == 0 {
      assert c1 + c2 == c2;
      EmptyEval(e1);
      assert forall d: seq<Capture> :: [] + d == d;
      GoodEq(c2, e2, Seq(e1, e2));
    } else {
      assert c1 + c2 == c1;
      EmptyEval(e2);
      assert forall d: seq<Capture> :: d + [] == d;
      GoodEq(c1, e1, Seq(e1, e2));
    }
  }

  /** Empty code computes only the empty expression, or none. */
  lemma EmptyEval(e: Expr)
    requires Correct([], e)
    ensures forall m: Mode, s: int {:trigger Eval(e, m, s)} :: ValidPos(m, s) ==>
      Eval(e, m, s) == Succ(s, []) || Eval(e, m, s).Diverge?
  {
    forall m: Mode, s: int | ValidPos(m, s)
      ensures Eval(e, m, s) == Succ(s, []) || Eval(e, m, s).Diverge?
    {
      var o := Eval(e, m, s);
      assert Beh(m, [], s, o);
      if !o.Diverge? {
        var none: seq<Capture> := [];
        assert |none| == 0;
        var st := Run(0, s, [], none);
        assert Reach(m, [], 0, st, Final(0, [], none, o));
        var k: nat :| Iter(m, [], 0, st, k) == Final(0, [], none, o);
        IterHalted(m, [], 0, st, k);
      }
    }
  }
}
