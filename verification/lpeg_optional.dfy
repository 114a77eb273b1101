/** Repetition: at most `n` times. */
module LpegOptional {
  import opened LpegCode
  import opened LpegSemantics
  import opened LpegMachine
  import opened LpegBehaviour
  import opened LpegRewrite
  import opened LpegCompile
  import opened LpegInvariant
  import opened LpegBasic
  import opened LpegUnion

  lemma UpToIs(e: Expr, n: nat, m: Mode, s: int)
    requires n > 0 && ValidPos(m, s)
    ensures Eval(Rep(e, 0 - n), m, s) == EvalUpTo(e, m, n, s)
  {
  }

  // ----- a head-fail body: every test leaves all the copies -----

  /** The first copy, up to the second one or to the end. */
  lemma HeadCopy(m: Mode, c1: Code, n: nat, s: int, o: Out, caps: seq<Capture>)
    requires IsHeadFail(c1) && NoZero(c1) && n > 0 && ValidPos(m, s)
    requires Beh(m, c1, s, o) && !o.Diverge?
    ensures
      var c := OptionalHeadFail(c1, n);
      Reach(m, c, |caps|, Run(0, s, [], caps),
            if o.Succ? then Run(|c1|, o.pos, [], caps + o.caps) else Run(|c|, s, [], caps))
  {
    var c := OptionalHeadFail(c1, n);
    var k := c1[0].op.k;
    var st := Run(0, s, [], caps);
    assert c[0] == Instr(Test(k), |c|);
    Tick(m, c, |caps|, st);
    if Passes(m, k, s) {
      HeadFailSucceeds(m, c1, s, o);
      RestBeh(m, c1, s, o);
      assert c[1..1 + |c1[1..]|] == c1[1..];
      RunAt(m, c, |caps|, 1, c1[1..], s + StepOf(k), [], caps, o);
      Chain(m, c, |caps|, st, Run(1, s + StepOf(k), [], caps), Run(|c1|, o.pos, [], caps + o.caps));
    } else {
      FirstCheckFails(m, c1, s, o);
    }
  }

  lemma HeadCopiesStep(m: Mode, c1: Code, rest: Code, c: Code, s: int, o: Out, o2: Out, caps: seq<Capture>)
    requires |c| == |c1| + |rest| && c[|c1|..] == rest && !o.Diverge?
    requires Reach(m, c, |caps|, Run(0, s, [], caps),
                   if o.Succ? then Run(|c1|, o.pos, [], caps + o.caps) else Run(|c|, s, [], caps))
    requires o.Succ? ==> Beh(m, rest, o.pos, o2) && !o2.Diverge?
    ensures Reach(m, c, |caps|, Run(0, s, [], caps),
                  Final(|c|, [], caps, if o.Succ? then Prepend(o.caps, o2) else Succ(s, [])))
  {
    if o.Succ? {
      assert c[|c1|..|c1| + |rest|] == rest;
      RunAt(m, c, |caps|, |c1|, rest, o.pos, [], caps + o.caps, o2);
      ThenFinal(|c|, [], caps, o, o2);
      Chain(m, c, |caps|, Run(0, s, [], caps), Run(|c1|, o.pos, [], caps + o.caps),
            Final(|c|, [], caps, Prepend(o.caps, o2)));
    } else {
      assert caps + [] == caps;
    }
  }

  lemma {:induction false} HeadCopiesBeh(m: Mode, c1: Code, e: Expr, n: nat, s: int)
    requires IsHeadFail(c1) && NoZero(c1) && Correct(c1, e) && ValidPos(m, s)
    ensures Beh(m, OptionalHeadFail(c1, n), s, EvalUpTo(e, m, n, s))
    decreases n
  {
    if n == 0 {
      EmptyCorrect(Lit([]));
      assert Beh(m, [], s, Eval(Lit([]), m, s));
    } else if !EvalUpTo(e, m, n, s).Diverge? {
      var o := Eval(e, m, s);
      if o.Succ? { HeadCopiesBeh(m, c1, e, n - 1, o.pos); }
      assert Beh(m, c1, s, o);
      HeadCopiesNext(m, c1, n, s, o, if o.Succ? then EvalUpTo(e, m, n - 1, o.pos) else o);
    }
  }

  lemma HeadCopiesNext(m: Mode, c1: Code, n: nat, s: int, o: Out, o2: Out)
    requires IsHeadFail(c1) && NoZero(c1) && n > 0 && ValidPos(m, s)
    requires Beh(m, c1, s, o) && !o.Diverge?
    requires o.Succ? ==> Beh(m, OptionalHeadFail(c1, n - 1), o.pos, o2) && !o2.Diverge?
    ensures Beh(m, OptionalHeadFail(c1, n), s, if o.Succ? then Prepend(o.caps, o2) else Succ(s, []))
  {
    var c, rest := OptionalHeadFail(c1, n), OptionalHeadFail(c1, n - 1);
    var r := if o.Succ? then Prepend(o.caps, o2) else Succ(s, []);
    assert c[|c1|..] == rest;
    forall caps: seq<Capture>
      ensures Reach(m, c, |caps|, Run(0, s, [], caps), Final(|c|, [], caps, r))
    {
      HeadCopy(m, c1, n, s, o, caps);
      HeadCopiesStep(m, c1, rest, c, s, o, o2, caps);
    }
  }

  lemma {:induction false} HeadCopiesOk(c1: Code, n: nat)
    requires WF(c1) && IsHeadFail(c1)
    ensures var c := OptionalHeadFail(c1, n); AllOk(c) && NoFail(c) && (n > 0 ==> NoZero(c))
    decreases n
  {
    if n > 0 {
      HeadCopiesOk(c1, n - 1);
      var rest := OptionalHeadFail(c1, n - 1);
      HeadCopyOk(c1, rest, Check2Test(c1, n * |c1|) + rest);
    }
  }

  /** One more copy in front. */
  lemma HeadCopyOk(c1: Code, rest: Code, c: Code)
    requires WF(c1) && IsHeadFail(c1) && AllOk(rest) && NoFail(rest)
    requires |c| == |c1| + |rest| && c[0] == Instr(Test(c1[0].op.k), |c|) && c[1..|c1|] == c1[1..] && c[|c1|..] == rest
    ensures AllOk(c) && NoFail(c) && NoZero(c)
  {
    var r := c1[1..];
    AllOkRest(c1);
    assert InstrOk(c1, 0);
    assert c[1..1 + |r|] == r && c[|c1|..|c1| + |rest|] == rest;
    forall i | 0 <= i < |c|
      ensures InstrOk(c, i) && IsNoFail(c[i].op) && (IsJmp(c[i].op) ==> i + c[i].off >= 1)
    {
      if 1 <= i < |c1| {
        assert InstrOk(r, i - 1) && c[i] == r[i - 1];
        InstrOkAt(c, 1, r, i - 1);
      } else if i >= |c1| {
        assert InstrOk(rest, i - |c1|) && c[i] == rest[i - |c1|];
        InstrOkAt(c, |c1|, rest, i - |c1|);
      }
    }
  }

  /** A run of code that cannot fail, cut before its last instruction. */
  lemma {:induction false} CutRun(m: Mode, c: Code, x: Code, b: nat, st: State, k: nat, fin: State) returns (h: State)
    requires |c| > 0 && NoFail(c) && InRange(c) && x == c[..|c| - 1]
    requires st.Run? && st.stk == [] && 0 <= st.p <= |c|
    requires Iter(m, c, b, st, k) == fin && fin.Run? && fin.p == |c|
    ensures h.Run? && h.stk == [] && (h.p == |x| || h == fin) && Reach(m, x, b, st, h) && Reach(m, c, b, h, fin)
    decreases k
  {
    if st.p >= |x| {
      h := st;
      Stay(m, x, b, st);
      assert Reach(m, c, b, st, fin);
      if st.p == |c| { IterHalted(m, c, b, st, k); }
    } else {
      var st1 := Step(m, c, b, st);
      assert Step(m, x, b, st) == st1 by { assert x[st.p] == c[st.p]; }
      if st1.Stuck? { IterHalted(m, c, b, st1, k - 1); }
      NoFailStep(m, c, b, st);
      h := CutRun(m, c, x, b, st1, k - 1, fin);
      TickChain(m, x, b, st, h);
    }
  }

  /** One step of such code. */
  lemma NoFailStep(m: Mode, c: Code, b: nat, st: State)
    requires NoFail(c) && InRange(c) && st.Run? && st.stk == [] && 0 <= st.p < |c|
    ensures var st1 := Step(m, c, b, st); st1.Stuck? || (st1.Run? && st1.stk == [] && 0 <= st1.p <= |c|)
  {
    assert IsNoFail(c[st.p].op);
    assert IsJmp(c[st.p].op) ==> 0 <= st.p + c[st.p].off <= |c|;
  }

  /** If the copies look like a union, they are one with an empty last alternative. */
  lemma HeadCopiesPart(c: Code, e: Expr)
    requires AllOk(c) && NoFail(c) && |c| > 0 && c[0].op.Test? && FirstPart(c) == |c| && Correct(c, e)
    requires forall m: Mode, s: int {:trigger Eval(e, m, s)} :: ValidPos(m, s) ==> !Eval(e, m, s).Failure?
    ensures Part(c, |c|, e, Lit([]))
  {
    var sp := |c|;
    var x := c[..sp - 1];
    assert forall i :: 0 <= i < |c| ==> InstrOk(c, i);
    assert c[..sp] == c && IsNoFail(c[sp - 1].op) && c[sp - 1].op.Jmp?;
    WFProgress(c);
    forall m: Mode, s: int | ValidPos(m, s)
      ensures PartRuns(m, c, sp, e, Lit([]), s)
    {
      var o := Eval(e, m, s);
      if !o.Diverge? {
        assert Beh(m, c, s, o);
        forall caps: seq<Capture>
          ensures PartRun(m, c, sp, e, Lit([]), s, caps)
        {
          HeadCopiesRun(m, c, e, s, caps);
        }
      }
    }
  }

  /** The end of the run, seen without the last instruction. */
  lemma CutEnd(m: Mode, c: Code, s: int, o: Out, caps: seq<Capture>) returns (h: State)
    requires NoFail(c) && InRange(c) && |c| > 0 && o.Succ? && Beh(m, c, s, o)
    ensures
      var fin := Run(|c|, o.pos, [], caps + o.caps);
      h.Run? && h.stk == [] && (h.p == |c| - 1 || h == fin) &&
      Reach(m, c[..|c| - 1], |caps|, Run(0, s, [], caps), h) && Reach(m, c, |caps|, h, fin)
  {
    var x := c[..|c| - 1];
    var st, fin := Run(0, s, [], caps), Run(|c|, o.pos, [], caps + o.caps);
    assert fin == Final(|c|, [], caps, o);
    var k: nat :| Iter(m, c, |caps|, st, k) == fin;
    h := CutRun(m, c, x, |caps|, st, k, fin);
  }

  lemma CutJump(m: Mode, c: Code, b: nat, h: State, fin: State)
    requires |c| > 0 && c[|c| - 1] == Instr(Jmp, 1) && h.Run? && h.p == |c| - 1
    requires Reach(m, c, b, h, fin) && Halted(c, fin)
    ensures fin == Run(|c|, h.s, h.stk, h.caps)
  {
    assert Step(m, c, b, h) == Run(|c|, h.s, h.stk, h.caps);
    Tick(m, c, b, h);
    Deterministic(m, c, b, h, Run(|c|, h.s, h.stk, h.caps), fin);
  }

  lemma HeadCopiesRun(m: Mode, c: Code, e: Expr, s: int, caps: seq<Capture>)
    requires NoFail(c) && InRange(c) && |c| > 0 && c[0].op.Test? && FirstPart(c) == |c| && ValidPos(m, s)
    requires Eval(e, m, s).Succ? && Beh(m, c, s, Eval(e, m, s))
    ensures PartRun(m, c, |c|, e, Lit([]), s, caps)
  {
    var o := Eval(e, m, s);
    assert c[..|c|] == c && IsNoFail(c[|c| - 1].op) && c[|c| - 1] == Instr(Jmp, 1);
    var h := CutEnd(m, c, s, o, caps);
    var pe;
    if h.p == |c| {
      pe := Other(o.pos, o.caps);
      assert o.caps + [] == o.caps;
    } else {
      pe := Thru(o.pos, o.caps);
      CutJump(m, c, |caps|, h, Run(|c|, o.pos, [], caps + o.caps));
    }
    assert PartCond(m, c, |c|, e, Lit([]), s, pe);
    assert EndsAt(m, c[..|c| - 1], false, s, caps, pe);
  }

  lemma OptionalHeadFailGood(c1: Code, e: Expr, n: nat)
    requires Good(c1, e) && IsHeadFail(c1) && n > 0
    ensures Good(OptionalHeadFail(c1, n), Rep(e, 0 - n))
  {
    var c := OptionalHeadFail(c1, n);
    GoodBasics(c1, e);
    CheckFirstNoZero(c1);
    HeadCopiesOk(c1, n);
    assert c[0] == Instr(Test(c1[0].op.k), |c|);
    forall m: Mode, s: int | ValidPos(m, s)
      ensures Beh(m, c, s, Eval(Rep(e, 0 - n), m, s)) && !Eval(Rep(e, 0 - n), m, s).Failure?
    {
      UpToIs(e, n, m, s);
      HeadCopiesBeh(m, c1, e, n, s);
    }
    if FirstPart(c) == 0 {
      GoodSimple(c, Rep(e, 0 - n));
    } else {
      HeadCopiesPart(c, Rep(e, 0 - n));
      EmptyCorrect(Lit([]));
      assert c[|c|..] == [];
      PartGood(c, |c|, Rep(e, 0 - n), Lit([]));
    }
  }

  // ----- any body: a pending choice that every copy but the last updates -----

  /** Whether all the copies match. */
  predicate AllMatch(e: Expr, m: Mode, n: nat, s: int)
    requires ValidPos(m, s)
    decreases n
  {
    n == 0 || (Eval(e, m, s).Succ? && AllMatch(e, m, n - 1, Eval(e, m, s).pos))
  }

  function UpToEnd(e: Expr, m: Mode, n: nat, s: int): PartEnd
    requires ValidPos(m, s)
  {
    var o := EvalUpTo(e, m, n, s);
    if !o.Succ? then Lost
    else if AllMatch(e, m, n, s) then Thru(o.pos, o.caps)
    else Other(o.pos, o.caps)
  }

  lemma UpToEndStep(e: Expr, m: Mode, n: nat, s: int)
    requires n > 0 && ValidPos(m, s) && !EvalUpTo(e, m, n, s).Diverge?
    ensures
      var o := Eval(e, m, s);
      !o.Diverge? && (o.Succ? ==> !UpToEnd(e, m, n - 1, o.pos).Lost?) && UpToEnd(e, m, n, s) ==
        if o.Succ? then UpToEnd(e, m, n - 1, o.pos).(d := o.caps + UpToEnd(e, m, n - 1, o.pos).d) else Other(s, [])
  {
  }

  /** The copies behind the first one, without the last commit. */
  function MoreCopies(c1: Code, n: nat): Code {
    if n == 0 then [] else [Instr(PartialCommit, 1)] + c1 + MoreCopies(c1, n - 1)
  }

  /** Where the copies end: behind the last one with the choice still pending, or at the alternative `q`. */
  ghost predicate CopiesEnd(m: Mode, P: Code, b: nat, st: State, p: int, q: int, caps: seq<Capture>, pe: PartEnd) {
    match pe
    case Thru(s1, d) => exists f: Frame :: f.Back? && Reach(m, P, b, st, Run(p, s1, [f], caps + d))
    case Other(s1, d) => Reach(m, P, b, st, Run(q, s1, [], caps + d))
    case Lost => false
  }

  lemma CopiesChain(m: Mode, P: Code, b: nat, st: State, mid: State, p: int, q: int, caps: seq<Capture>,
                    d: seq<Capture>, pe: PartEnd, pe': PartEnd)
    requires Reach(m, P, b, st, mid) && CopiesEnd(m, P, b, mid, p, q, caps + d, pe)
    requires !pe.Lost? && pe' == pe.(d := d + pe.d)
    ensures CopiesEnd(m, P, b, st, p, q, caps, pe')
  {
    assert (caps + d) + pe.d == caps + (d + pe.d);
    match pe
    case Thru(s1, _) =>
      var f: Frame :| f.Back? && Reach(m, P, b, mid, Run(p, s1, [f], (caps + d) + pe.d));
      Chain(m, P, b, st, mid, Run(p, s1, [f], caps + pe'.d));
    case Other(s1, _) =>
      Chain(m, P, b, st, mid, Run(q, s1, [], caps + pe'.d));
  }

  /** From a partial commit on: one more copy, or the pending alternative. */
  lemma NextCopy(m: Mode, P: Code, b: nat, at: int, c1: Code, q: int, s: int, s0: int, caps: seq<Capture>,
                 caps0: seq<Capture>, o: Out)
    requires 0 <= at && at + 1 + |c1| <= |P| && P[at] == Instr(PartialCommit, 1) && P[at + 1..at + 1 + |c1|] == c1
    requires Beh(m, c1, s, o) && !o.Diverge?
    ensures
      Reach(m, P, b, Run(at, s, [Back(q, s0, caps0)], caps),
            if o.Succ? then Run(at + 1 + |c1|, o.pos, [Back(q, s, caps)], caps + o.caps) else Run(q, s, [], caps))
  {
    var f := Back(q, s, caps);
    var st, s1 := Run(at, s, [Back(q, s0, caps0)], caps), Run(at + 1, s, [f], caps);
    assert [f] + [Back(q, s0, caps0)][1..] == [f] && [f][1..] == [];
    assert Step(m, P, b, st) == s1;
    Tick(m, P, b, st);
    RunAt(m, P, b, at + 1, c1, s, [f], caps, o);
    Chain(m, P, b, st, s1, Final(at + 1 + |c1|, [f], caps, o));
    if o.Failure? {
      assert Step(m, P, b, Failing([f])) == Run(q, s, [], caps);
      Tick(m, P, b, Failing([f]));
      Chain(m, P, b, st, Failing([f]), Run(q, s, [], caps));
    }
  }

  /** One copy, and then what the rest of them does. */
  lemma CopyThen(m: Mode, P: Code, b: nat, st: State, at1: int, f: Frame, q: int, s: int, caps: seq<Capture>,
                 o: Out, pe: PartEnd, pe': PartEnd)
    requires !o.Diverge?
    requires Reach(m, P, b, st, if o.Succ? then Run(at1, o.pos, [f], caps + o.caps) else Run(q, s, [], caps))
    requires o.Succ? ==> CopiesEnd(m, P, b, Run(at1, o.pos, [f], caps + o.caps), |P|, q, caps + o.caps, pe)
    requires if o.Succ? then !pe.Lost? && pe' == pe.(d := o.caps + pe.d) else pe' == Other(s, [])
    ensures CopiesEnd(m, P, b, st, |P|, q, caps, pe')
  {
    if o.Succ? {
      CopiesChain(m, P, b, st, Run(at1, o.pos, [f], caps + o.caps), |P|, q, caps, o.caps, pe, pe');
    } else {
      assert caps + [] == caps;
    }
  }

  lemma {:induction false} MoreCopiesRun(m: Mode, P: Code, b: nat, at: int, c1: Code, e: Expr, n: nat, q: int,
                                         s: int, s0: int, caps: seq<Capture>, caps0: seq<Capture>)
    requires Correct(c1, e) && ValidPos(m, s) && !EvalUpTo(e, m, n, s).Diverge?
    requires 0 <= at <= |P| && P[at..] == MoreCopies(c1, n)
    ensures CopiesEnd(m, P, b, Run(at, s, [Back(q, s0, caps0)], caps), |P|, q, caps, UpToEnd(e, m, n, s))
    decreases n
  {
    var st := Run(at, s, [Back(q, s0, caps0)], caps);
    if n == 0 {
      assert caps + [] == caps;
      Stay(m, P, b, st);
    } else {
      var o := Eval(e, m, s);
      UpToEndStep(e, m, n, s);
      assert Beh(m, c1, s, o);
      MoreCopiesAt(P, at, c1, n);
      NextCopy(m, P, b, at, c1, q, s, s0, caps, caps0, o);
      var at1, f := at + 1 + |c1|, Back(q, s, caps);
      var pe := if o.Succ? then UpToEnd(e, m, n - 1, o.pos) else Lost;
      if o.Succ? {
        MoreCopiesRun(m, P, b, at1, c1, e, n - 1, q, o.pos, s, caps + o.caps, caps);
      }
      CopyThen(m, P, b, st, at1, f, q, s, caps, o, pe, UpToEnd(e, m, n, s));
    }
  }

  lemma MoreCopiesAt(P: Code, at: int, c1: Code, n: nat)
    requires n > 0 && 0 <= at <= |P| && P[at..] == MoreCopies(c1, n)
    ensures at + 1 + |c1| <= |P| && P[at] == Instr(PartialCommit, 1) && P[at + 1..at + 1 + |c1|] == c1
    ensures P[at + 1 + |c1|..] == MoreCopies(c1, n - 1)
  {
    var r := P[at..];
    assert P[at] == r[0] && P[at + 1..at + 1 + |c1|] == r[1..1 + |c1|] && P[at + 1 + |c1|..] == r[1 + |c1|..];
  }

  lemma {:induction false} OptionalTailIs(c1: Code, n: nat)
    requires n > 0
    ensures OptionalTail(c1, n) == c1 + MoreCopies(c1, n - 1) + [Instr(Commit, 1)]
    decreases n
  {
    if n > 1 {
      OptionalTailIs(c1, n - 1);
      assert c1 + [Instr(PartialCommit, 1)] + (c1 + MoreCopies(c1, n - 2) + [Instr(Commit, 1)])
          == c1 + ([Instr(PartialCommit, 1)] + c1 + MoreCopies(c1, n - 2)) + [Instr(Commit, 1)];
    }
  }

  lemma {:induction false} MoreCopiesSize(c1: Code, n: nat)
    ensures |MoreCopies(c1, n)| == n * (|c1| + 1)
    decreases n
  {
    if n > 0 {
      MoreCopiesSize(c1, n - 1);
      assert n * (|c1| + 1) == (n - 1) * (|c1| + 1) + (|c1| + 1);
    }
  }

  /** The copies, guarded by a choice whose alternative is behind the final commit. */
  function Copies(c1: Code, more: Code): (x: Code)
    ensures |x| == |c1| + 1 + |more|
  {
    GuardPart(c1, |c1| + |more| + 2) + more
  }

  lemma OptionalsIs(c1: Code, n: nat)
    requires n > 0
    ensures Optionals(c1, n) == Copies(c1, MoreCopies(c1, n - 1)) + [Instr(Commit, 1)]
  {
    var more := MoreCopies(c1, n - 1);
    var q := 1 + n * (|c1| + 1);
    var rest := more + [Instr(Commit, 1)];
    MoreCopiesSize(c1, n - 1);
    assert q == |c1| + |more| + 2 by {
      assert n * (|c1| + 1) == (n - 1) * (|c1| + 1) + (|c1| + 1);
    }
    OptionalTailIs(c1, n);
    GuardPartSplit(c1, q, rest);
    assert [Instr(Choice(0), q)] + OptionalTail(c1, n) == [Instr(Choice(0), q)] + c1 + rest;
    assert Copies(c1, more) + [Instr(Commit, 1)] == GuardPart(c1, q) + rest;
  }

  lemma GuardInCopies(m: Mode, c1: Code, more: Code, caps: seq<Capture>, st: State, fin: State)
    requires !fin.Stuck? && Reach(m, GuardPart(c1, |c1| + |more| + 2), |caps|, st, fin)
    ensures Reach(m, Copies(c1, more), |caps|, st, fin)
  {
    var x, g := Copies(c1, more), GuardPart(c1, |c1| + |more| + 2);
    assert x[0..0 + |g|] == g;
    ReachAt(m, x, |caps|, 0, g, st, [], |caps|, fin);
    ShiftZero(st);
    ShiftZero(fin);
  }

  lemma FirstCopy(m: Mode, c1: Code, more: Code, s: int, o: Out, caps: seq<Capture>)
    requires WF(c1) && ValidPos(m, s) && Beh(m, c1, s, o) && !o.Diverge?
    ensures
      var x := Copies(c1, more);
      Reach(m, x, |caps|, Run(0, s, [], caps),
            if o.Succ? then Run(|c1| + 1, o.pos, [Back(|x| + 1, s, caps)], caps + o.caps)
              else Run(|x| + 1, s, [], caps))
  {
    var q := |c1| + |more| + 2;
    GuardRun(m, c1, q, s, o, caps);
    GuardInCopies(m, c1, more, caps, Run(0, s, [], caps), GuardedEnd(|c1| + 1, q, s, caps, o));
  }

  /** The first copy matches, and the others do what they do. */
  lemma CopiesThen(m: Mode, c1: Code, e: Expr, n: nat, s: int, caps: seq<Capture>, o: Out, pe: PartEnd)
    requires WF(c1) && Correct(c1, e) && ValidPos(m, s) && Beh(m, c1, s, o) && o.Succ? && ValidPos(m, o.pos)
    requires !EvalUpTo(e, m, n, o.pos).Diverge? && !UpToEnd(e, m, n, o.pos).Lost?
    requires pe == UpToEnd(e, m, n, o.pos).(d := o.caps + UpToEnd(e, m, n, o.pos).d)
    ensures EndsAt(m, Copies(c1, MoreCopies(c1, n)), true, s, caps, pe)
  {
    var more := MoreCopies(c1, n);
    var x := Copies(c1, more);
    var q := |x| + 1;
    var mid := Run(|c1| + 1, o.pos, [Back(q, s, caps)], caps + o.caps);
    FirstCopy(m, c1, more, s, o, caps);
    assert x[|c1| + 1..] == more;
    MoreCopiesRun(m, x, |caps|, |c1| + 1, c1, e, n, q, o.pos, s, caps + o.caps, caps);
    CopiesChain(m, x, |caps|, Run(0, s, [], caps), mid, |x|, q, caps, o.caps, UpToEnd(e, m, n, o.pos), pe);
    CopiesEndsAt(m, x, s, caps, pe);
  }

  lemma CopiesStop(m: Mode, c1: Code, more: Code, s: int, caps: seq<Capture>, o: Out)
    requires WF(c1) && ValidPos(m, s) && Beh(m, c1, s, o) && o.Failure?
    ensures EndsAt(m, Copies(c1, more), true, s, caps, Other(s, []))
  {
    FirstCopy(m, c1, more, s, o, caps);
    assert caps + [] == caps;
  }

  lemma CopiesRun(m: Mode, c1: Code, e: Expr, n: nat, s: int, caps: seq<Capture>)
    requires WF(c1) && Correct(c1, e) && n > 0 && ValidPos(m, s) && !EvalUpTo(e, m, n, s).Diverge?
    ensures EndsAt(m, Copies(c1, MoreCopies(c1, n - 1)), true, s, caps, UpToEnd(e, m, n, s))
  {
    var o := Eval(e, m, s);
    UpToEndStep(e, m, n, s);
    assert Beh(m, c1, s, o);
    if o.Succ? {
      CopiesThen(m, c1, e, n - 1, s, caps, o, UpToEnd(e, m, n, s));
    } else {
      CopiesStop(m, c1, MoreCopies(c1, n - 1), s, caps, o);
    }
  }

  lemma CopiesEndsAt(m: Mode, x: Code, s: int, caps: seq<Capture>, pe: PartEnd)
    requires CopiesEnd(m, x, |caps|, Run(0, s, [], caps), |x|, |x| + 1, caps, pe)
    ensures EndsAt(m, x, true, s, caps, pe)
  {
  }

  lemma {:induction false} MoreCopiesOk(c1: Code, n: nat)
    requires WF(c1)
    ensures AllOk(MoreCopies(c1, n) + [Instr(Commit, 1)])
    ensures !(MoreCopies(c1, n) + [Instr(Commit, 1)])[0].op.Jmp?
    decreases n
  {
    var c := MoreCopies(c1, n) + [Instr(Commit, 1)];
    if n > 0 {
      var rest := MoreCopies(c1, n - 1) + [Instr(Commit, 1)];
      MoreCopiesOk(c1, n - 1);
      AllOkConcat(c1, rest);
      var r := c1 + rest;
      assert c == [Instr(PartialCommit, 1)] + r;
      assert c[1..1 + |r|] == r && c[1] == if |c1| > 0 then c1[0] else rest[0];
      forall i | 0 <= i < |c|
        ensures InstrOk(c, i)
      {
        if i > 0 {
          assert InstrOk(r, i - 1);
          InstrOkAt(c, 1, r, i - 1);
        }
      }
    }
  }

  lemma OptionalsWF(c1: Code, n: nat)
    requires WF(c1) && n > 0
    ensures var c := Optionals(c1, n); WF(c) && FirstPart(c) == |c| && PartJumps(c, |c|)
  {
    var c := Optionals(c1, n);
    var more := MoreCopies(c1, n - 1) + [Instr(Commit, 1)];
    var l := |c1| + 1;
    OptionalsIs(c1, n);
    assert |c| == |c1| + |more| + 1;
    assert c[..l] == GuardPart(c1, |c|) && c[l..l + |more|] == more && c[|c| - 1] == Instr(Commit, 1);
    GuardPartOk(c1, |c|, c);
    MoreCopiesOk(c1, n - 1);
    MoreInPlace(c, l, more);
  }

  /** Well-formed code at the end of `c`. */
  lemma MoreInPlace(c: Code, l: int, more: Code)
    requires 1 <= l && l + |more| == |c| && c[l..l + |more|] == more && AllOk(more)
    ensures forall i :: l <= i < |c| ==> InstrOk(c, i)
    ensures forall i :: l <= i < |c| && IsJmp(c[i].op) ==>
      1 <= i + c[i].off <= |c| && (c[i].op.PartialCommit? ==> i + c[i].off < |c|)
  {
    forall i | l <= i < |c|
      ensures InstrOk(c, i)
      ensures IsJmp(c[i].op) ==> 1 <= i + c[i].off <= |c| && (c[i].op.PartialCommit? ==> i + c[i].off < |c|)
    {
      assert InstrOk(more, i - l) && c[i] == more[i - l];
      InstrOkAt(c, l, more, i - l);
    }
  }

  lemma OptionalsGood(c1: Code, e: Expr, n: nat)
    requires Good(c1, e) && n > 0
    ensures Good(Optionals(c1, n), Rep(e, 0 - n))
  {
    var c := Optionals(c1, n);
    var sp := |c|;
    GoodBasics(c1, e);
    OptionalsWF(c1, n);
    OptionalsIs(c1, n);
    assert c[..sp - 1] == Copies(c1, MoreCopies(c1, n - 1)) && c[sp - 1] == Instr(Commit, 1);
    var r := Rep(e, 0 - n);
    forall m: Mode, s: int | ValidPos(m, s)
      ensures PartRuns(m, c, sp, r, Lit([]), s)
    {
      UpToIs(e, n, m, s);
      var o := EvalUpTo(e, m, n, s);
      if !o.Diverge? {
        forall caps: seq<Capture>
          ensures PartRun(m, c, sp, r, Lit([]), s, caps)
        {
          CopiesRun(m, c1, e, n, s, caps);
          assert o.caps + [] == o.caps;
          assert PartCond(m, c, sp, r, Lit([]), s, UpToEnd(e, m, n, s));
        }
      }
    }
    EmptyCorrect(Lit([]));
    assert c[sp..] == [];
    PartGood(c, sp, Rep(e, 0 - n), Lit([]));
  }
}
