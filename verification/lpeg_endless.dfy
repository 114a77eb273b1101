/** A grammar on which tail calls can be told from calls: `A <- &'x' / A` on a subject without `x`.  The check of
    its rule lets it through, because it takes the predicate to succeed. */
module LpegEndless {
  import opened LpegCode
  import opened LpegSemantics
  import opened LpegMachine
  import opened LpegCompile
  import opened LpegInvariant
  import opened LpegCompiler
  import opened LpegMatch
  import opened LpegVerify
  import opened LpegGrammar
  import opened LpegFix
  import opened LpegRules
  import opened LpegTailCalls
  import opened LpegCheckRule
  import opened LpegCheckGrammar

  function Rule(): Expr {
    Alt(And(Lit([120])), NonTerm(0))
  }

  function Body(): Code {
    [Instr(Choice(0), 6), Instr(Choice(0), 3), Instr(Check(KChar(120)), 0), Instr(BackCommit, 2), Instr(Fail(true), 0),
     Instr(Commit, 2), Instr(OpenCall(0), 0)]
  }

  function TheDraft(last: Instr): Code {
    [Instr(Call, 2), Instr(Jmp, 9), Instr(Choice(0), 6), Instr(Choice(0), 3), Instr(Check(KChar(120)), 0),
     Instr(BackCommit, 2), Instr(Fail(true), 0), Instr(Commit, 2), last, Instr(Ret, 0)]
  }

  const OPEN: Instr := Instr(OpenCall(0), 0)
  const CALL: Instr := Instr(Call, -6)
  const JUMP: Instr := Instr(Jmp, -6)

  function G(): seq<Expr> {
    [Rule()]
  }

  function Bs(): seq<Code> {
    [Body()]
  }

  // ----- its code -----

  lemma AndBuilt()
    ensures Compile(And(Lit([120]))) == Built(Body()[1..5])
  {
    var c := LitCode([120]);
    assert [120][1..] == [];
    assert c == [Instr(Check(KChar(120)), 0)];
    assert Body()[1..5] == [Body()[1], Body()[2], Body()[3], Body()[4]];
  }

  lemma BodyBuilt()
    ensures Compile(Rule()) == Built(Body()) && Narrow(Rule())
  {
    AndBuilt();
    var c1, c2 := Body()[1..5], [OPEN];
    assert c1 == [Body()[1], Body()[2], Body()[3], Body()[4]];
    assert Compile(NonTerm(0)) == Built(c2);
    assert FirstPart(c1) == 0 && ToCharset(c1).NoInfo? && !IsHeadFail(c1);
    assert !StartsWithFail(c1) && !StartsWithFail(c2);
    var c := [Instr(Choice(0), 6)] + c1 + [Instr(Commit, 2)] + c2;
    assert c == Body();
    assert OptimizeChoice(c) == c;
    assert UnionCode(c1, c2) == c;
  }

  lemma OneRule(e: Expr, c: Code)
    requires Narrow(e) && Compile(e) == Built(c) && Refers(c, 1) && (|c| > 0 ==> !c[0].op.OpenCall?)
    ensures GrammarOk([e], [c], [0]) && Fixable([c], [0])
  {
    CompiledFixable([e], [c], [0]);
  }

  lemma GrammarIsOk()
    ensures GrammarOk(G(), Bs(), [0]) && Fixable(Bs(), [0])
  {
    BodyBuilt();
    BodyRefers();
    OneRule(Rule(), Body());
  }

  lemma BodyRefers()
    ensures Refers(Body(), 1) && !Body()[0].op.OpenCall?
  {
  }

  lemma TheDraftIs()
    ensures Draft(Bs(), 0) == TheDraft(OPEN) && Positions(Bs()) == [2]
  {
    assert PosOf(Bs(), 1) == 10;
    assert Laid(Bs(), 1) == Laid(Bs(), 0) + Body() + [Instr(Ret, 0)];
  }

  lemma LowNow(D: Code, pos: seq<nat>, c: Check, f: Finding)
    requires c == Ended(f)
    ensures Lowly(D, pos, 9, c, 0) && CheckIter(D, pos, 9, c, 0) == Ended(f)
  {
  }

  lemma LowBefore(D: Code, pos: seq<nat>, c: Check, n: nat, f: Finding)
    requires c.Going? && |c.back| <= MAXBACK
    requires
      var next := CheckStep(D, pos, 9, c);
      Lowly(D, pos, 9, next, n) && CheckIter(D, pos, 9, next, n) == Ended(f)
    ensures Lowly(D, pos, 9, c, n + 1) && CheckIter(D, pos, 9, c, n + 1) == Ended(f)
  {
    forall i: nat | i <= n + 1
      ensures !OvergrownAt(D, pos, 9, c, i)
    {
      if i > 0 { assert !OvergrownAt(D, pos, 9, CheckStep(D, pos, 9, c), i - 1); }
    }
  }

  /** `checkrule` reports nothing: the predicate is taken to succeed, and the rule to match the empty string. */
  lemma RuleAccepted()
    ensures LetThrough(Bs(), 0, 0)
  {
    TheDraftIs();
    var (D, pos) := (TheDraft(OPEN), [2]);
    var (c0, c1, c2) := (Going(2, []), Going(3, [Slot(8, true)]), Going(4, [Slot(6, true), Slot(8, true)]));
    var (c3, c4, c5) := (Going(6, [Slot(8, true)]), Going(7, [Slot(8, true)]), Going(9, []));
    assert [Slot(8, true)][1..] == [] && [Slot(6, true), Slot(8, true)][1..] == [Slot(8, true)];
    assert CheckStep(D, pos, 9, c0) == c1;
    assert CheckStep(D, pos, 9, c1) == c2;
    assert CheckStep(D, pos, 9, c2) == c3;
    assert CheckStep(D, pos, 9, c3) == c4;
    assert CheckStep(D, pos, 9, c4) == c5;
    assert CheckStep(D, pos, 9, c5) == Ended(MatchesEmpty);
    LowNow(D, pos, Ended(MatchesEmpty), MatchesEmpty);
    LowBefore(D, pos, c5, 0, MatchesEmpty);
    LowBefore(D, pos, c4, 1, MatchesEmpty);
    LowBefore(D, pos, c3, 2, MatchesEmpty);
    LowBefore(D, pos, c2, 3, MatchesEmpty);
    LowBefore(D, pos, c1, 4, MatchesEmpty);
    LowBefore(D, pos, c0, 5, MatchesEmpty);
    StoppedLow(D, pos, 9, c0, 6, MatchesEmpty);
  }

  lemma NoX(m: Mode)
    requires m.Real? && m.subj == [121]
    ensures Eval(And(Lit([120])), m, 0) == Failure
  {
    assert m.subj[0..1] == [121];
  }

  lemma RuleDiverges(m: Mode)
    requires m.Real? && m.subj == [121] && RuleOut(m, 0, 0).Diverge?
    ensures Eval(Rule(), m, 0) == Diverge
  {
    NoX(m);
  }

  lemma {:induction false} NoResultIn(ms: seq<Mode>, d: nat)
    requires Tower(G(), ms) && d < |ms| && ms[d].Real? && ms[d].subj == [121]
    ensures RuleOut(ms[d], 0, 0).Diverge?
    decreases d
  {
    if d > 0 {
      assert StepUpAt(G(), ms, d - 1);
      NoResultIn(ms, d - 1);
      RuleDiverges(ms[d - 1]);
      assert RuleOut(ms[d], 0, 0) == RuleNext(G(), ms[d - 1], 0, 0);
    }
  }

  /** The rule has no result on the subject "y", at no depth of calls. */
  lemma NoResult(d: nat)
    ensures RuleOut(Rules(G(), [121], d), 0, 0).Diverge?
  {
    var ms := RulesTower(G(), [121], d);
    NoResultIn(ms, d);
  }

  // ----- its runs -----

  function Y(): Mode {
    Real([121], map[])
  }

  /** From the start of the rule to its call, whatever is pending. */
  lemma ToTheCall(last: Instr, stk: seq<Frame>, k: nat)
    ensures Iter(Y(), TheDraft(last), 0, Run(2, 0, stk, []), 6) == Run(8, 0, stk, [])
    ensures k <= 6 ==>
      var st := Iter(Y(), TheDraft(last), 0, Run(2, 0, stk, []), k);
      Depth(st) <= |stk| + 2 && !Halted(TheDraft(last), st)
  {
    var c := TheDraft(last);
    var (f1, f2) := (Back(8, 0, []), Back(6, 0, []));
    var (s1, s2) := ([f1] + stk, [f2] + ([f1] + stk));
    assert s1[1..] == stk && s2[1..] == s1;
    var (st0, st1, st2) := (Run(2, 0, stk, []), Run(3, 0, s1, []), Run(4, 0, s2, []));
    var (st3, st4, st5, st6) := (Failing(s2), Run(6, 0, s1, []), Failing(s1), Run(8, 0, stk, []));
    assert Step(Y(), c, 0, st0) == st1;
    assert Step(Y(), c, 0, st1) == st2;
    assert Step(Y(), c, 0, st2) == st3;
    assert Step(Y(), c, 0, st3) == st4;
    assert Step(Y(), c, 0, st4) == st5;
    assert Step(Y(), c, 0, st5) == st6;
    Iters(c, st0, st1, st2, st3, st4, st5, st6);
  }

  lemma Iters(c: Code, st0: State, st1: State, st2: State, st3: State, st4: State, st5: State, st6: State)
    requires st1 == Step(Y(), c, 0, st0) && st2 == Step(Y(), c, 0, st1) && st3 == Step(Y(), c, 0, st2)
    requires st4 == Step(Y(), c, 0, st3) && st5 == Step(Y(), c, 0, st4) && st6 == Step(Y(), c, 0, st5)
    ensures Iter(Y(), c, 0, st0, 0) == st0 && Iter(Y(), c, 0, st0, 1) == st1 && Iter(Y(), c, 0, st0, 2) == st2
    ensures Iter(Y(), c, 0, st0, 3) == st3 && Iter(Y(), c, 0, st0, 4) == st4 && Iter(Y(), c, 0, st0, 5) == st5
    ensures Iter(Y(), c, 0, st0, 6) == st6
  {
    IterAdd(Y(), c, 0, st0, 1, 1);
    IterAdd(Y(), c, 0, st0, 2, 1);
    IterAdd(Y(), c, 0, st0, 3, 1);
    IterAdd(Y(), c, 0, st0, 4, 1);
    IterAdd(Y(), c, 0, st0, 5, 1);
  }

  /** A round of the rule: the jump comes back to the same state, the call leaves a return address. */
  lemma Round(last: Instr, stk: seq<Frame>)
    requires last == CALL || last == JUMP
    ensures
      Iter(Y(), TheDraft(last), 0, Run(2, 0, stk, []), 7) ==
        Run(2, 0, if last == CALL then [RetTo(9)] + stk else stk, [])
  {
    ToTheCall(last, stk, 0);
    IterAdd(Y(), TheDraft(last), 0, Run(2, 0, stk, []), 6, 1);
    assert Iter(Y(), TheDraft(last), 0, Run(8, 0, stk, []), 1) == Step(Y(), TheDraft(last), 0, Run(8, 0, stk, []));
  }

  lemma {:induction false} Periodic(c: Code, st: State, p: nat, n: nat) returns (k: nat)
    requires p > 0 && Iter(Y(), c, 0, st, p) == st
    ensures k < p && Iter(Y(), c, 0, st, n) == Iter(Y(), c, 0, st, k)
    decreases n
  {
    if n < p {
      k := n;
    } else {
      IterAdd(Y(), c, 0, st, p, n - p);
      k := Periodic(c, st, p, n - p);
    }
  }

  /** With the jump, no state is high or halted. */
  lemma JumpsForEver(n: nat)
    ensures
      var st := Iter(Y(), TheDraft(JUMP), 0, Run(2, 0, [RetTo(1)], []), n);
      Depth(st) <= 3 && !Halted(TheDraft(JUMP), st)
  {
    Round(JUMP, [RetTo(1)]);
    var k := Periodic(TheDraft(JUMP), Run(2, 0, [RetTo(1)], []), 7, n);
    ToTheCall(JUMP, [RetTo(1)], k);
  }

  /** With the call, the stack grows without bound. */
  lemma {:induction false} CallsPileUp(stk: seq<Frame>, d: nat)
    ensures Grows(Y(), TheDraft(CALL), 0, Run(2, 0, stk, []), |stk| + d)
    decreases d
  {
    var (c, st) := (TheDraft(CALL), Run(2, 0, stk, []));
    if d == 0 {
      assert Depth(Iter(Y(), c, 0, st, 0)) >= |stk| + d;
    } else {
      var stk1 := [RetTo(9)] + stk;
      Round(CALL, stk);
      CallsPileUp(stk1, d - 1);
      LaterGrows(c, st, Run(2, 0, stk1, []), 7, |stk| + d);
    }
  }

  lemma LaterGrows(c: Code, st: State, st1: State, k: nat, d: nat)
    requires Iter(Y(), c, 0, st, k) == st1 && Grows(Y(), c, 0, st1, d)
    ensures Grows(Y(), c, 0, st, d)
  {
    var n: nat :| Depth(Iter(Y(), c, 0, st1, n)) >= d;
    IterAdd(Y(), c, 0, st, k, n);
    assert Depth(Iter(Y(), c, 0, st, k + n)) >= d;
  }

  lemma Enter(last: Instr)
    ensures Iter(Y(), TheDraft(last), 0, Run(0, 0, [], []), 1) == Run(2, 0, [RetTo(1)], [])
  {
    var none: seq<Frame> := [];
    assert [RetTo(1)] + none == [RetTo(1)];
    assert Step(Y(), TheDraft(last), 0, Run(0, 0, [], [])) == Run(2, 0, [RetTo(1)], []);
  }

  lemma JumpsEndless(n: nat)
    ensures
      var st := Iter(Y(), TheDraft(JUMP), 0, Run(0, 0, [], []), n);
      Depth(st) <= 3 && !Halted(TheDraft(JUMP), st)
  {
    Enter(JUMP);
    if n > 0 {
      IterAdd(Y(), TheDraft(JUMP), 0, Run(0, 0, [], []), 1, n - 1);
      JumpsForEver(n - 1);
    }
  }

  // ----- both forms of the grammar -----

  lemma Forms()
    requires Fixable(Bs(), [0])
    ensures CallCode(Bs(), 0, [0]) == TheDraft(CALL)
    ensures
      var (D, f) := (Draft(Bs(), 0), RanksOf(Bs(), 0, [0]));
      Settles(D, f, Positions(Bs())) && Fixed(D, f, Positions(Bs()), |D|) == TheDraft(JUMP)
  {
    TheDraftIs();
    DraftSettles(Bs(), 0, [0]);
    var (D, f, pos) := (TheDraft(OPEN), RanksOf(Bs(), 0, [0]), [2]);
    assert Target(D, f, 9) == 9 && IsRet(D, 9);
    forall i | 0 <= i < |D|
      ensures Fixed(D, f, pos, |D|)[i] == TheDraft(JUMP)[i] && Calls(D, f, pos)[i] == TheDraft(CALL)[i]
    {
      assert Fixed(D, f, pos, |D|)[i] == FixedInstr(D, f, pos, i);
    }
  }

  /** The rule is accepted and can be fixed.  With its call, the match reports that too many calls are pending; with
      the jump that `fix_l` makes of it, the match never ends and its stack stays low. */
  lemma EndlessMatch(n: nat)
    ensures LetThrough(Bs(), 0, 0) && GrammarOk(G(), Bs(), [0]) && Fixable(Bs(), [0])
    ensures TooDeep(CallCode(Bs(), 0, [0]), [121], 0) && !TooDeep(GrammarCode(Bs(), 0, [0]), [121], 0)
    ensures !Halted(GrammarCode(Bs(), 0, [0]), StateAt(GrammarCode(Bs(), 0, [0]), [121], 0, n))
  {
    RuleAccepted();
    GrammarIsOk();
    Forms();
    CallsDeep();
    var (f, P, Q, st0) := (RanksOf(Bs(), 0, [0]), TheDraft(JUMP), GrammarCode(Bs(), 0, [0]), Run(0, 0, [], []));
    FixedFalls(Draft(Bs(), 0), f, Positions(Bs()), |Draft(Bs(), 0)|);
    OptJumpsReach(Y(), P, f, 0, st0, Stuck);
    assert !Grows(Y(), P, 0, st0, MAXBACK) by {
      forall k: nat
        ensures Depth(Iter(Y(), P, 0, st0, k)) < MAXBACK
      {
        JumpsEndless(k);
      }
    }
    var st := StateAt(Q, [121], 0, n);
    if Halted(Q, st) { NeverEnds(st); }
  }

  lemma CallsDeep()
    requires Fixable(Bs(), [0])
    ensures TooDeep(CallCode(Bs(), 0, [0]), [121], 0)
  {
    Forms();
    Enter(CALL);
    CallsPileUp([RetTo(1)], MAXBACK - 1);
    LaterGrows(TheDraft(CALL), Run(0, 0, [], []), Run(2, 0, [RetTo(1)], []), 1, MAXBACK);
  }

  lemma NeverEnds(fin: State)
    requires Fixable(Bs(), [0]) && GrammarOk(G(), Bs(), [0]) && Halted(GrammarCode(Bs(), 0, [0]), fin)
    ensures !Reach(Y(), GrammarCode(Bs(), 0, [0]), 0, Run(0, 0, [], []), fin)
  {
    Forms();
    var (f, P) := (RanksOf(Bs(), 0, [0]), TheDraft(JUMP));
    var h, main := BothPrograms(G(), Bs(), 0, [0]);
    if !fin.Stuck? && fin.stk != [] {
      NoOtherEnd(GrammarCode(Bs(), 0, [0]), h, main, Y(), 0, fin);
    } else {
      FixedFalls(Draft(Bs(), 0), f, Positions(Bs()), |Draft(Bs(), 0)|);
      OptJumpsReach(Y(), P, f, 0, Run(0, 0, [], []), fin);
      forall k: nat
        ensures Iter(Y(), P, 0, Run(0, 0, [], []), k) != fin
      {
        JumpsEndless(k);
      }
    }
  }
}
