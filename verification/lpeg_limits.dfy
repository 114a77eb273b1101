/** Where compiled code and meaning part: an alternative that is rebuilt behind a test of several bytes. */
module LpegLimits {
  import opened LpegCode
  import opened LpegSemantics
  import opened LpegMachine
  import opened LpegBehaviour
  import opened LpegCompile
  import opened LpegInvariant
  import opened LpegUnion
  import opened LpegCompiler

  // ----- when a rebuilt alternative is right -----

  /** `c1` is a union whose first alternative ends in a jump, starts with a test and may fail behind it. */
  ghost predicate MayRebuild(c1: Code, sp: nat, e: Expr, et: Expr) {
    WF(c1) && sp == FirstPart(c1) >= 2 && Part(c1, sp, e, et) &&
    c1[sp - 1].op.Jmp? && c1[0].op.Test? && !NoFail(c1[..sp])
  }

  /** The first alternative fails behind its test. */
  ghost predicate FailsBehindTest(m: Mode, c1: Code, e: Expr, s: int)
    requires |c1| > 0 && c1[0].op.Test? && ValidPos(m, s)
  {
    Passes(m, c1[0].op.k, s) && Eval(e, m, s).Failure?
  }

  /** What the rebuilt union computes: it goes on with the other alternatives one byte back from the end of
      the test. */
  ghost function RebuiltOut(m: Mode, c1: Code, e: Expr, rest: Expr, s: int): Out
    requires |c1| > 0 && c1[0].op.Test? && ValidPos(m, s)
  {
    if Eval(e, m, s).Succ? then Eval(e, m, s)
    else if FailsBehindTest(m, c1, e, s) && ValidPos(m, BackTo(c1, s)) then Eval(rest, m, BackTo(c1, s))
    else Eval(rest, m, s)
  }

  lemma BackValid(m: Mode, c1: Code, s: int)
    requires WF(c1) && |c1| > 0 && c1[0].op.Test? && ValidPos(m, s) && Passes(m, c1[0].op.k, s)
    ensures ValidPos(m, BackTo(c1, s))
  {
    assert InstrOk(c1, 0);
    PassesIsMatches(m, c1[0].op.k, s);
  }

  lemma EndMeans(c1: Code, sp: nat, e: Expr, et: Expr, m: Mode, s: int, pe: PartEnd)
    requires 0 < sp <= |c1| && c1[sp - 1].op.Jmp? && c1[0].op.Test? && !NoFail(c1[..sp])
    requires ValidPos(m, s) && PartCond(m, c1, sp, e, et, s, pe)
    requires !Passes(m, c1[0].op.k, s) ==> pe == Other(s, [])
    ensures pe.Thru? ==> Eval(e, m, s) == Succ(pe.s, pe.d)
    ensures pe.Other? ==> pe == Other(s, []) && !Passes(m, c1[0].op.k, s) && Eval(e, m, s) == Eval(et, m, s)
    ensures pe.Lost? <==> FailsBehindTest(m, c1, e, s)
  {
    assert Prepend([], Eval(et, m, s)) == Eval(et, m, s);
  }

  /** How the first alternative ends. */
  lemma FirstEnd(c1: Code, sp: nat, e: Expr, et: Expr, m: Mode, s: int, caps: seq<Capture>) returns (pe: PartEnd)
    requires MayRebuild(c1, sp, e, et) && ValidPos(m, s) && !Eval(e, m, s).Diverge?
    ensures EndsAt(m, c1[..sp - 1], false, s, caps, pe)
    ensures pe.Thru? ==> Eval(e, m, s) == Succ(pe.s, pe.d)
    ensures pe.Other? ==> pe == Other(s, []) && !Passes(m, c1[0].op.k, s) && Eval(e, m, s) == Eval(et, m, s)
    ensures pe.Lost? <==> FailsBehindTest(m, c1, e, s)
    ensures pe.Lost? ==> ValidPos(m, BackTo(c1, s))
  {
    assert PartRuns(m, c1, sp, e, et, s) && PartRun(m, c1, sp, e, et, s, caps);
    pe :| PartCond(m, c1, sp, e, et, s, pe) && EndsAt(m, c1[..sp - 1], false, s, caps, pe);
    if Passes(m, c1[0].op.k, s) { BackValid(m, c1, s); } else { TestFailsPart(m, c1, sp, s, caps, pe); }
    EndMeans(c1, sp, e, et, m, s, pe);
  }

  lemma RebuiltRun(c1: Code, sp: nat, e: Expr, et: Expr, t: Code, e2: Expr, m: Mode, s: int, caps: seq<Capture>)
    requires MayRebuild(c1, sp, e, et) && WF(t) && Correct(t, Alt(et, e2))
    requires ValidPos(m, s) && !Eval(e, m, s).Diverge? && !RebuiltOut(m, c1, e, Alt(et, e2), s).Diverge?
    ensures
      var c := RebuildPart(c1, sp, t);
      Reach(m, c, |caps|, Run(0, s, [], caps), Final(|c|, [], caps, RebuiltOut(m, c1, e, Alt(et, e2), s)))
  {
    var (c, sp') := (RebuildPart(c1, sp, t), sp + 1);
    RebuildPartWF(c1, sp, t);
    var pe := FirstEnd(c1, sp, e, et, m, s, caps);
    RebuiltEnds(m, c1, sp, t, s, caps, pe);
    assert c[sp'..] == t && c[sp].op.Commit? && c[..sp' - 1] == c[..sp];
    RebuiltFinal(c, sp', e, Alt(et, e2), m, s, caps, RebuiltEnd(pe, BackTo(c1, s)),
      RebuiltOut(m, c1, e, Alt(et, e2), s));
  }

  lemma RebuiltFinal(c: Code, sp: nat, e: Expr, rest: Expr, m: Mode, s: int, caps: seq<Capture>, pe: PartEnd, o: Out)
    requires sp == FirstPart(c) > 0 && c[sp - 1].op.Commit? && Correct(c[sp..], rest) && !o.Diverge?
    requires EndsAt(m, c[..sp - 1], true, s, caps, pe) && !pe.Lost?
    requires if pe.Thru? then o == Succ(pe.s, pe.d) else pe.d == [] && ValidPos(m, pe.s) && o == Eval(rest, m, pe.s)
    ensures Reach(m, c, |caps|, Run(0, s, [], caps), Final(|c|, [], caps, o))
  {
    if pe.Thru? {
      PartsThru(m, c, sp, s, pe.s, pe.d, caps);
    } else {
      PartsOther(m, c, sp, rest, s, pe.s, [], caps);
      assert Prepend([], o) == o;
    }
  }

  /** Code runs to at most one outcome. */
  lemma OneOutcome(m: Mode, c: Code, s: int, o: Out, o': Out)
    requires Beh(m, c, s, o) && Beh(m, c, s, o') && !o.Diverge? && !o'.Diverge?
    ensures o == o'
  {
    var none: seq<Capture> := [];
    var st := Run(0, s, [], none);
    assert |none| == 0;
    assert Reach(m, c, 0, st, Final(|c|, [], none, o)) && Reach(m, c, 0, st, Final(|c|, [], none, o'));
    Deterministic(m, c, 0, st, Final(|c|, [], none, o), Final(|c|, [], none, o'));
    assert o.Succ? ==> none + o.caps == o.caps;
    assert o'.Succ? ==> none + o'.caps == o'.caps;
  }

  /** Exactly when a rebuilt alternative is right: at a position where it fails behind its test, the other
      alternatives must have the same result one byte before the end of the test.  After a test of one
      byte that is the position itself. */
  lemma RebuildIff(c1: Code, sp: nat, e: Expr, et: Expr, t: Code, e2: Expr, m: Mode, s: int)
    requires MayRebuild(c1, sp, e, et) && WF(t) && Correct(t, Alt(et, e2))
    requires ValidPos(m, s) && !Eval(Alt(e, e2), m, s).Diverge? && !RebuiltOut(m, c1, e, Alt(et, e2), s).Diverge?
    ensures
      Beh(m, RebuildPart(c1, sp, t), s, Eval(Alt(e, e2), m, s)) <==>
      (FailsBehindTest(m, c1, e, s) ==>
        ValidPos(m, BackTo(c1, s)) && Eval(Alt(et, e2), m, BackTo(c1, s)) == Eval(Alt(e, e2), m, s))
  {
    var c, o := RebuildPart(c1, sp, t), RebuiltOut(m, c1, e, Alt(et, e2), s);
    forall caps: seq<Capture>
      ensures Reach(m, c, |caps|, Run(0, s, [], caps), Final(|c|, [], caps, o))
    {
      RebuiltRun(c1, sp, e, et, t, e2, m, s, caps);
    }
    assert Beh(m, c, s, o);
    OtherAgrees(c1, sp, e, et, e2, m, s);
    if Beh(m, c, s, Eval(Alt(e, e2), m, s)) { OneOutcome(m, c, s, o, Eval(Alt(e, e2), m, s)); }
  }

  /** Where the first alternative does not fail behind its test, the rebuilt union is right. */
  lemma OtherAgrees(c1: Code, sp: nat, e: Expr, et: Expr, e2: Expr, m: Mode, s: int)
    requires MayRebuild(c1, sp, e, et) && ValidPos(m, s) && !Eval(Alt(e, e2), m, s).Diverge?
    ensures FailsBehindTest(m, c1, e, s) ==>
      ValidPos(m, BackTo(c1, s)) && RebuiltOut(m, c1, e, Alt(et, e2), s) == Eval(Alt(et, e2), m, BackTo(c1, s))
    ensures !FailsBehindTest(m, c1, e, s) ==> RebuiltOut(m, c1, e, Alt(et, e2), s) == Eval(Alt(e, e2), m, s)
  {
    var pe := FirstEnd(c1, sp, e, et, m, s, []);
  }

  // ----- a union that goes wrong -----

  /** (P(2) * 'a' + S'') + 'b' */
  function Example(): Expr {
    Alt(Alt(Seq(Num(2), Lit([97])), CharSet({})), Lit([98]))
  }

  function ExampleCode(): Code {
    [Instr(Test(KAny(2)), 4), Instr(Choice(1), 3), Instr(Check(KChar(97)), 0), Instr(Commit, 2),
     Instr(Check(KSet({98}, false)), 0)]
  }

  function AltCode(): Code {
    [Instr(Test(KAny(2)), 3), Instr(Check(KChar(97)), 0), Instr(Jmp, 2), Instr(Check(KSet({}, false)), 0)]
  }

  lemma ExampleSeq()
    ensures Compile(Seq(Num(2), Lit([97]))) == Built([Instr(Check(KAny(2)), 0), Instr(Check(KChar(97)), 0)])
  {
    var a, b := NumCode(2), LitCode([97]);
    assert a == [Instr(Check(KAny(2)), 0)];
    assert [97][1..] == [];
    assert b == [Instr(Check(KChar(97)), 0)];
    var c := a + b;
    assert c == [Instr(Check(KAny(2)), 0), Instr(Check(KChar(97)), 0)];
    assert OptCaps(c, 2, 0) == c;
    assert OptCaps(c, 1, 0) == c;
    assert OptCaps(c, 0, 0) == c;
  }

  lemma ExampleAlt()
    ensures
      Compile(Alt(Seq(Num(2), Lit([97])), CharSet({}))) ==
      Built(AltCode())
  {
    ExampleSeq();
    var c := [Instr(Check(KAny(2)), 0), Instr(Check(KChar(97)), 0)];
    var d := SetCode({});
    assert FirstPart(c) == 0;
    assert Exclusive(ToCharset(c), ToCharset(d));
    assert c[1..] == [Instr(Check(KChar(97)), 0)];
  }

  lemma LastAlternative()
    ensures UnionCode(AltCode()[3..], [Instr(Check(KChar(98)), 0)]) == [Instr(Check(KSet({98}, false)), 0)]
  {
    assert AltCode()[3..] == [Instr(Check(KSet({}, false)), 0)];
    assert {} + {98} == {98};
  }

  lemma Rebuilt()
    ensures UnionCode(AltCode(), [Instr(Check(KChar(98)), 0)]) == ExampleCode()
  {
    var c, d := AltCode(), [Instr(Check(KChar(98)), 0)];
    LastAlternative();
    assert FirstPart(c) == 3;
    assert c[..3][1] == c[1] && !NoFail(c[..3]) && Interfere(c[..3], ToCharset(d));
    assert c[1..2] == [c[1]];
  }

  lemma ExampleBuilt()
    ensures Compile(Example()) == Built(ExampleCode())
  {
    ExampleAlt();
    Rebuilt();
    assert [98][1..] == [];
    assert LitCode([98]) == [Instr(Check(KChar(98)), 0)];
    assert Compile(Lit([98])) == Built([Instr(Check(KChar(98)), 0)]);
  }

  lemma ExampleFails()
    ensures Eval(Example(), Real([120, 98], map[]), 0) == Failure
  {
    var m := Real([120, 98], map[]);
    assert m.subj[0..1] == [120];
    assert Eval(Seq(Num(2), Lit([97])), m, 0) == Failure;
    assert Eval(Alt(Seq(Num(2), Lit([97])), CharSet({})), m, 0) == Failure;
  }

  lemma ExampleRuns()
    ensures Reach(Real([120, 98], map[]), ExampleCode(), 0, Run(0, 0, [], []), Run(5, 2, [], []))
  {
    var m, c := Real([120, 98], map[]), ExampleCode();
    var f := Back(4, 1, []);
    var st0, st1, st2 := Run(0, 0, [], []), Run(1, 2, [], []), Run(2, 2, [f], []);
    var st3, st4, st5 := Failing([f]), Run(4, 1, [], []), Run(5, 2, [], []);
    assert [f] + [] == [f] && [f][1..] == [];
    assert Step(m, c, 0, st0) == st1;
    assert Step(m, c, 0, st1) == st2;
    assert Step(m, c, 0, st2) == st3;
    assert Step(m, c, 0, st3) == st4;
    assert Step(m, c, 0, st4) == st5;
    Tick(m, c, 0, st4);
    TickChain(m, c, 0, st3, st5);
    TickChain(m, c, 0, st2, st5);
    TickChain(m, c, 0, st1, st5);
    TickChain(m, c, 0, st0, st5);
  }

  /** On the subject "xb" the expression fails, and the code built for it matches both bytes: the choice
      that replaces the jump restores the position one byte back, although its test has consumed two. */
  lemma EmptySetMismatch()
    ensures
      var m := Real([120, 98], map[]);
      && Compile(Example()) == Built(ExampleCode())
      && Eval(Example(), m, 0) == Failure
      && Reach(m, ExampleCode(), 0, Run(0, 0, [], []), Run(|ExampleCode()|, 2, [], []))
  {
    ExampleBuilt();
    ExampleFails();
    ExampleRuns();
  }
}
