/** Whole patterns: captures, the compiler, and what it promises for every expression it accepts. */
module LpegPattern {
  import opened LpegCode
  import opened LpegCaptures
  import opened LpegSemantics
  import opened LpegMachine
  import opened LpegBehaviour
  import opened LpegRewrite
  import opened LpegCompile
  import opened LpegInvariant
  import opened LpegBasic
  import opened LpegOptCaps
  import opened LpegUnion
  import opened LpegPredicates
  import opened LpegLoops
  import opened LpegOptional

  // ----- captures -----

  lemma MarkGood(kind: PattKind, idx: int)
    ensures Good(MarkCode(kind, idx), Mark(kind, idx))
  {
    var c := MarkCode(kind, idx);
    forall m: Mode, s: int | ValidPos(m, s)
      ensures Beh(m, c, s, Eval(Mark(kind, idx), m, s))
    {
      forall caps: seq<Capture>
        ensures Reach(m, c, |caps|, Run(0, s, [], caps), Final(|c|, [], caps, Eval(Mark(kind, idx), m, s)))
      {
        Tick(m, c, |caps|, Run(0, s, [], caps));
      }
    }
    GoodSimple(c, Mark(kind, idx));
  }

  /** A sequence of checks fails or consumes its size, without captures. */
  lemma {:induction false} ChecksRun(m: Mode, c: Code, b: nat, i: nat, s: int, caps: seq<Capture>)
    requires i <= |c| && ValidPos(m, s) && AllOk(c)
    requires forall j {:trigger c[j]} :: i <= j < i + (|c| - i) ==> c[j].op.Check?
    ensures
      || Reach(m, c, b, Run(i, s, [], caps), Failing([]))
      || Reach(m, c, b, Run(i, s, [], caps), Run(|c|, s + Bytes(c, i, |c| - i), [], caps))
    decreases |c| - i
  {
    var st := Run(i, s, [], caps);
    if i == |c| {
      Stay(m, c, b, st);
    } else {
      assert InstrOk(c, i);
      var k := c[i].op.k;
      PassesIsMatches(m, k, s);
      if Passes(m, k, s) {
        ChecksRun(m, c, b, i + 1, s + StepOf(k), caps);
        if Reach(m, c, b, Step(m, c, b, st), Failing([])) {
          TickChain(m, c, b, st, Failing([]));
        } else {
          TickChain(m, c, b, st, Run(|c|, s + Bytes(c, i, |c| - i), [], caps));
        }
      } else {
        Tick(m, c, b, st);
      }
    }
  }

  /** The code is a sequence of checks for `n` bytes. */
  predicate OnlyChecks(c: Code, n: nat) {
    (forall j {:trigger c[j]} :: 0 <= j < 0 + |c| ==> c[j].op.Check?) && n == Bytes(c, 0, |c|)
  }

  lemma ChecksEval(c: Code, e: Expr, n: nat, m: Mode, s: int)
    requires WF(c) && Correct(c, e) && ValidPos(m, s) && OnlyChecks(c, n)
    ensures var o := Eval(e, m, s); o.Succ? ==> o == Succ(s + n, [])
  {
    var o := Eval(e, m, s);
    if o.Succ? {
      var none: seq<Capture> := [];
      assert |none| == 0 && none + o.caps == o.caps;
      var st := Run(0, s, [], none);
      assert Beh(m, c, s, o);
      assert Reach(m, c, 0, st, Final(|c|, [], none, o));
      ChecksRun(m, c, 0, 0, s, none);
      if Reach(m, c, 0, st, Failing([])) {
        Deterministic(m, c, 0, st, Failing([]), Final(|c|, [], none, o));
      } else {
        Deterministic(m, c, 0, st, Run(|c|, s + n, [], none), Final(|c|, [], none, o));
      }
    }
  }

  lemma FullCaptureGood(c: Code, e: Expr, kind: PattKind, idx: int, n: nat)
    requires Good(c, e) && OnlyChecks(c, n) && n <= MAXOFF
    ensures Good(c + [Instr(Cap(Full, kind, idx, n), 0)], Grab(e, kind, idx))
  {
    GoodBasics(c, e);
    var g := Grab(e, kind, idx);
    var cap := [Instr(Cap(Full, kind, idx, n), 0)];
    forall m: Mode, s: int | ValidPos(m, s)
      ensures Beh(m, c + cap, s, Eval(g, m, s))
    {
      assert Beh(m, c, s, Eval(e, m, s));
      ChecksEval(c, e, n, m, s);
      FullCaptureBeh(m, c, Eval(e, m, s), kind, idx, n, s);
      GrabFull(e, kind, idx, n, m, s);
    }
    assert WF(cap);
    WFConcat(c, cap);
    FullCapNoPart(c, cap);
    GoodSimple(c + cap, g);
  }

  lemma FullCaptureBeh(m: Mode, c: Code, o: Out, kind: PattKind, idx: int, n: nat, s: int)
    requires Beh(m, c, s, o) && (o.Succ? ==> o == Succ(s + n, []))
    ensures
      Beh(m, c + [Instr(Cap(Full, kind, idx, n), 0)], s,
          if o.Succ? then Succ(s + n, [Capture(s, idx, kind, n + 1)]) else o)
  {
    var P := c + [Instr(Cap(Full, kind, idx, n), 0)];
    var d := [Capture(s, idx, kind, n + 1)];
    var r := if o.Succ? then Succ(s + n, d) else o;
    if !o.Diverge? {
      forall caps: seq<Capture>
        ensures Reach(m, P, |caps|, Run(0, s, [], caps), Final(|P|, [], caps, r))
      {
        assert P[0..0 + |c|] == c;
        RunAt(m, P, |caps|, 0, c, s, [], caps, o);
        if o.Succ? {
          var mid := Run(|c|, s + n, [], caps);
          assert caps + [] == caps;
          assert Step(m, P, |caps|, mid) == Final(|P|, [], caps, r);
          Tick(m, P, |caps|, mid);
          Chain(m, P, |caps|, Run(0, s, [], caps), mid, Final(|P|, [], caps, r));
        }
      }
    }
  }

  lemma GrabFull(e: Expr, kind: PattKind, idx: int, n: nat, m: Mode, s: int)
    requires ValidPos(m, s) && n <= MAXOFF
    requires Eval(e, m, s).Succ? ==> Eval(e, m, s) == Succ(s + n, [])
    ensures Eval(Grab(e, kind, idx), m, s) ==
              if Eval(e, m, s).Succ? then Succ(s + n, [Capture(s, idx, kind, n + 1)]) else Eval(e, m, s)
  {
  }

  lemma FullCapNoPart(c: Code, cap: Code)
    requires WF(c) && |cap| == 1 && cap[0].op.Cap?
    ensures FirstPart(c + cap) == 0
  {
    if |c| > 0 {
      ContainedPrefix(c, cap);
      ContainedNoPart(c + cap, |c|);
    } else {
      assert c + cap == cap;
    }
  }

  function Bracket(c: Code, kind: PattKind, idx: int): Code {
    [Instr(Cap(Open, kind, idx, 0), 0)] + c + [Instr(Cap(Close, CCLOSE, 0, 0), 0)]
  }

  lemma OpenWaits(s: int, kind: PattKind, idx: int, d: seq<Capture>, caps: seq<Capture>)
    requires Balanced(d)
    ensures Waiting(caps + [Capture(s, idx, kind, 0)] + d) > 0
  {
    WaitingConcat(caps + [Capture(s, idx, kind, 0)], d);
    WaitingOne(caps, Capture(s, idx, kind, 0));
  }

  /** Closing a capture right after its body leaves the entries the meaning asks for. */
  lemma CloseCaps(s: int, kind: PattKind, idx: int, o: Out, caps: seq<Capture>)
    requires o.Succ? && s <= o.pos && ClosedCaps(o.caps) && Balanced(o.caps)
    ensures
      DoCap(Cap(Close, CCLOSE, 0, 0), |caps|, o.pos, caps + [Capture(s, idx, kind, 0)] + o.caps)
        == NewCaps(caps + GrabCaps(kind, idx, s, o))
  {
    var open := Capture(s, idx, kind, 0);
    var all := caps + [open] + o.caps;
    OpenWaits(s, kind, idx, o.caps, caps);
    if o.caps == [] {
      assert all[|all| - 1] == open && all[..|all| - 1] == caps;
    } else {
      assert all[|all| - 1] == o.caps[|o.caps| - 1];
    }
    assert all + [Capture(o.pos, 0, CCLOSE, 1)] == caps + ([open] + o.caps + [Capture(o.pos, 0, CCLOSE, 1)]);
  }

  /** The body of a bracketed capture, up to its closing instruction. */
  lemma BracketBody(m: Mode, c1: Code, kind: PattKind, idx: int, s: int, o: Out, caps: seq<Capture>)
    requires Beh(m, c1, s, o) && !o.Diverge?
    ensures
      Reach(m, Bracket(c1, kind, idx), |caps|, Run(0, s, [], caps),
            Final(|c1| + 1, [], caps + [Capture(s, idx, kind, 0)], o))
  {
    var c := Bracket(c1, kind, idx);
    var caps1 := caps + [Capture(s, idx, kind, 0)];
    var st, s1 := Run(0, s, [], caps), Run(1, s, [], caps1);
    assert c[1..1 + |c1|] == c1;
    Tick(m, c, |caps|, st);
    RunAt(m, c, |caps|, 1, c1, s, [], caps1, o);
    Chain(m, c, |caps|, st, s1, Final(|c1| + 1, [], caps1, o));
  }

  lemma BracketRun(m: Mode, c1: Code, kind: PattKind, idx: int, s: int, o: Out, caps: seq<Capture>)
    requires Beh(m, c1, s, o) && !o.Diverge? && (o.Succ? ==> s <= o.pos && ClosedCaps(o.caps) && Balanced(o.caps))
    ensures
      var c := Bracket(c1, kind, idx);
      var r := if o.Succ? then Succ(o.pos, GrabCaps(kind, idx, s, o)) else Failure;
      Reach(m, c, |caps|, Run(0, s, [], caps), Final(|c|, [], caps, r))
  {
    BracketBody(m, c1, kind, idx, s, o, caps);
    if o.Succ? {
      var c := Bracket(c1, kind, idx);
      var fin := Run(|c|, o.pos, [], caps + GrabCaps(kind, idx, s, o));
      var mid := Run(|c1| + 1, o.pos, [], caps + [Capture(s, idx, kind, 0)] + o.caps);
      assert c[|c1| + 1] == Instr(Cap(Close, CCLOSE, 0, 0), 0);
      CloseCaps(s, kind, idx, o, caps);
      assert Step(m, c, |caps|, mid) == fin;
      Tick(m, c, |caps|, mid);
      Chain(m, c, |caps|, Run(0, s, [], caps), mid, fin);
    }
  }

  lemma BracketGood(c1: Code, e: Expr, kind: PattKind, idx: int)
    requires Good(c1, e)
    ensures Good(Bracket(c1, kind, idx), Grab(e, kind, idx))
  {
    var c, g := Bracket(c1, kind, idx), Grab(e, kind, idx);
    GoodBasics(c1, e);
    forall m: Mode, s: int | ValidPos(m, s)
      ensures Beh(m, c, s, Eval(g, m, s))
    {
      var o := Eval(e, m, s);
      assert Beh(m, c1, s, o);
      EvalBalanced(e, m, s);
      if !o.Diverge? {
        forall caps: seq<Capture>
          ensures Reach(m, c, |caps|, Run(0, s, [], caps), Final(|c|, [], caps, Eval(g, m, s)))
        {
          BracketRun(m, c1, kind, idx, s, o, caps);
        }
      }
    }
    var open, close := [Instr(Cap(Open, kind, idx, 0), 0)], [Instr(Cap(Close, CCLOSE, 0, 0), 0)];
    assert WF(open) && WF(close);
    WFConcat(open, c1);
    WFConcat(open + c1, close);
    GoodSimple(c, g);
  }

  /** A capture leaves exactly its entries, however its instructions are placed. */
  lemma CaptureGood(c: Code, e: Expr, kind: PattKind, idx: int)
    requires Good(c, e)
    ensures Good(CaptureCode(c, kind, idx), Grab(e, kind, idx))
  {
    var r := SkipChecks(c, 0, MAXOFF);
    if r.0 == |c| {
      SkipChecksBytes(c, 0, MAXOFF);
      FullCaptureGood(c, e, kind, idx, r.1);
    } else {
      BracketGood(c, e, kind, idx);
      OptCapsGood(Bracket(c, kind, idx), Grab(e, kind, idx));
    }
  }

  lemma NonTermGood(r: nat)
    ensures Good([Instr(OpenCall(r), 0)], NonTerm(r))
  {
    var c := [Instr(OpenCall(r), 0)];
    forall m: Mode, s: int | ValidPos(m, s)
      ensures Beh(m, c, s, Eval(NonTerm(r), m, s))
    {
      forall caps: seq<Capture> | !Eval(NonTerm(r), m, s).Diverge?
        ensures Reach(m, c, |caps|, Run(0, s, [], caps), Final(|c|, [], caps, Eval(NonTerm(r), m, s)))
      {
        Tick(m, c, |caps|, Run(0, s, [], caps));
      }
    }
    GoodSimple(c, NonTerm(r));
  }

  lemma SeqGood(c1: Code, e1: Expr, c2: Code, e2: Expr)
    requires Good(c1, e1) && Good(c2, e2)
    ensures Good(SeqCode(c1, c2), Seq(e1, e2))
  {
    if IsAny(c1) && IsAny(c2) {
      GoodBasics(c1, e1);
      GoodBasics(c2, e2);
      AnyPairGood(c1, e1, c2, e2);
    } else {
      ConcatGood(c1, e1, c2, e2);
      OptCapsGood(c1 + c2, Seq(e1, e2));
    }
  }

  lemma AnyPairGood(c1: Code, e1: Expr, c2: Code, e2: Expr)
    requires WF(c1) && Correct(c1, e1) && WF(c2) && Correct(c2, e2) && IsAny(c1) && IsAny(c2)
    ensures Good(AnyCode(c1[0].op.k.n + c2[0].op.k.n), Seq(e1, e2))
  {
    var a, b := c1[0].op.k.n, c2[0].op.k.n;
    AnyIs(c1, e1, a);
    AnyIs(c2, e2, b);
    AnyPair(a, b, a + b, e1, e2);
  }

  lemma AnyPair(a: nat, b: nat, n: nat, e1: Expr, e2: Expr)
    requires 1 <= a && 1 <= b && n == a + b && IsCheckExpr(e1, KAny(a)) && IsCheckExpr(e2, KAny(b))
    ensures Good(AnyCode(n), Seq(e1, e2))
  {
    AnyPairCovers(a, b, e1, e2);
    AnyExpr(n, Seq(e1, e2));
  }

  lemma AnyIs(c: Code, e: Expr, n: nat)
    requires WF(c) && Correct(c, e) && IsAny(c) && n == c[0].op.k.n
    ensures n >= 1 && IsCheckExpr(e, KAny(n))
  {
    assert InstrOk(c, 0);
    CheckEval(c, KAny(n), e);
  }

  lemma AnyExpr(n: nat, e: Expr)
    requires n >= 1 && Covers(Num(n), e)
    ensures Good(AnyCode(n), e)
  {
    AnyGood(n);
    GoodEq(AnyCode(n), Num(n), e);
  }

  lemma AnyPairCovers(a: nat, b: nat, e1: Expr, e2: Expr)
    requires 1 <= a && 1 <= b && IsCheckExpr(e1, KAny(a)) && IsCheckExpr(e2, KAny(b))
    ensures Covers(Num(a + b), Seq(e1, e2))
  {
    forall m: Mode, s: int | ValidPos(m, s)
      ensures Eval(Seq(e1, e2), m, s).Diverge? || Eval(Num(a + b), m, s) == Eval(Seq(e1, e2), m, s)
    {
      AnyPairEval(a, b, e1, e2, m, s);
    }
  }

  lemma AnyPairEval(a: nat, b: nat, e1: Expr, e2: Expr, m: Mode, s: int)
    requires 1 <= a && 1 <= b && IsCheckExpr(e1, KAny(a)) && IsCheckExpr(e2, KAny(b)) && ValidPos(m, s)
    ensures Eval(Seq(e1, e2), m, s).Diverge? || Eval(Num(a + b), m, s) == Eval(Seq(e1, e2), m, s)
  {
  }
}
