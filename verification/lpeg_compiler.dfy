/** The compiler as a whole: every accepted expression is compiled to code that computes it, and a
    grammar-free one always has a result. */
module LpegCompiler {
  import opened LpegCode
  import opened LpegSemantics
  import opened LpegMachine
  import opened LpegBehaviour
  import opened LpegCompile
  import opened LpegInvariant
  import opened LpegBasic
  import opened LpegUnion
  import opened LpegPredicates
  import opened LpegLoops
  import opened LpegOptional
  import opened LpegPattern
  import opened LpegVerify

  /** The code of a pattern, or an error: a loop body may accept the empty string, or the verifier ran
      out of stack on one. */
  datatype Built = Built(code: Code) | EmptyLoop | DeepLoop

  /** Both optimizers; the second one needs jump chains that end, which all loop code has. */
  function OptimizeLoop(c: Code): Code {
    var o := OptCaps(c, 0, 0);
    if Progress(o) then OptJumps(o, Ranks(o), 0) else o
  }

  function AtMost(c: Code, n: nat): Code
    requires n > 0
  {
    if IsHeadFail(c) then OptionalHeadFail(c, n) else Optionals(c, n)
  }

  /** `star_l`. */
  ghost function RepCode(c: Code, n: int): Built {
    if n >= 0 then
      if ToCharset(c).IsCharset? then Built(RepeatCharset(ToCharset(c).cs, c, n))
      else if IsHeadFail(c) then Built(OptimizeLoop(RepeatHeadFail(c, n)))
      else if VerifyTooDeep(c) then DeepLoop
      else if VerifyAccepts(c) then Built(OptimizeLoop(Repeats(c, n)))
      else EmptyLoop
    else Built(AtMost(c, -n))
  }

  ghost function Compile(e: Expr): Built {
    match e
    case Lit(bytes) => Built(LitCode(bytes))
    case Num(n) => Built(NumCode(n))
    case Never => Built([Instr(Fail(false), 0)])
    case CharSet(cs) => Built(SetCode(cs))
    case NonTerm(r) => Built([Instr(OpenCall(r), 0)])
    case Seq(e1, e2) => Both(Compile(e1), Compile(e2), SeqCode)
    case Alt(e1, e2) => Both(Compile(e1), Compile(e2), UnionCode)
    case Diff(e1, e2) => Both(Compile(e1), Compile(e2), DiffCode)
    case And(e1) =>
      var b := Compile(e1);
      if b.Built? then Built(AndCode(b.code)) else b
    case Rep(e1, n) =>
      var b := Compile(e1);
      if b.Built? then RepCode(b.code, n) else b
    case Grab(e1, kind, idx) =>
      var b := Compile(e1);
      if b.Built? then Built(CaptureCode(b.code, kind, idx)) else b
    case Mark(kind, idx) => Built(MarkCode(kind, idx))
  }

  function Both(b1: Built, b2: Built, f: (Code, Code) -> Code): Built {
    if !b1.Built? then b1 else if !b2.Built? then b2 else Built(f(b1.code, b2.code))
  }

  /** No union of the expression rebuilds an alternative behind a test of several bytes. */
  ghost predicate Narrow(e: Expr) {
    match e
    case Alt(e1, e2) =>
      Narrow(e1) && Narrow(e2) &&
      (Compile(e1).Built? && Compile(e2).Built? ==> NarrowChoice(Compile(e1).code, Compile(e2).code))
    case Seq(e1, e2) => Narrow(e1) && Narrow(e2)
    case Diff(e1, e2) => Narrow(e1) && Narrow(e2)
    case And(e1) => Narrow(e1)
    case Rep(e1, _) => Narrow(e1)
    case Grab(e1, _, _) => Narrow(e1)
    case _ => true
  }

  lemma NeverGood()
    ensures Good([Instr(Fail(false), 0)], Never)
  {
    var c := [Instr(Fail(false), 0)];
    forall m: Mode, s: int | ValidPos(m, s)
      ensures Beh(m, c, s, Eval(Never, m, s))
    {
      forall caps: seq<Capture>
        ensures Reach(m, c, |caps|, Run(0, s, [], caps), Final(|c|, [], caps, Failure))
      {
        Tick(m, c, |caps|, Run(0, s, [], caps));
      }
    }
    GoodSimple(c, Never);
  }

  lemma SetGood(cs: Charset)
    ensures Good(SetCode(cs), CharSet(cs))
  {
    CheckCorrect(SetCheck(cs), CharSet(cs));
  }

  /** Empty code is not accepted as a loop body. */
  lemma AcceptsNonEmpty(c: Code)
    requires VerifyAccepts(c)
    ensures |c| > 0
  {
    if |c| == 0 {
      var st := Run(0, 0, [], []);
      var k: nat :| Iter(Verify, c, 0, st, k) == Failing([]);
      IterHalted(Verify, c, 0, st, k);
    }
  }

  lemma RepMinGood(c: Code, e: Expr, n: nat)
    requires Good(c, e) && RepCode(c, n).Built?
    ensures Good(RepCode(c, n).code, Rep(e, n))
  {
    if ToCharset(c).IsCharset? {
      RepeatCharsetGood(c, e, n);
    } else if IsHeadFail(c) {
      RepeatHeadFailGood(c, e, n);
    } else {
      AcceptsNonEmpty(c);
      RepeatsGood(c, e, n);
    }
  }

  lemma AtMostGood(c: Code, e: Expr, k: nat, n: int)
    requires Good(c, e) && k > 0 && n + k == 0
    ensures Good(AtMost(c, k), Rep(e, n))
  {
    if IsHeadFail(c) { OptionalHeadFailGood(c, e, k); } else { OptionalsGood(c, e, k); }
  }

  lemma RepGood(c: Code, e: Expr, n: int)
    requires Good(c, e) && RepCode(c, n).Built?
    ensures Good(RepCode(c, n).code, Rep(e, n))
  {
    if n >= 0 { RepMinGood(c, e, n); } else { AtMostGood(c, e, -n, n); }
  }

  /** Compiler correctness: the code built for an accepted expression computes its meaning, with its
      exact captures, wherever it has one. */
  lemma {:induction false} CompileGood(e: Expr)
    requires Narrow(e) && Compile(e).Built?
    ensures Good(Compile(e).code, e)
    decreases e
  {
    match e
    case Lit(bytes) => LitGood(bytes);
    case Num(n) => NumGood(n);
    case Never => NeverGood();
    case CharSet(cs) => SetGood(cs);
    case NonTerm(r) => NonTermGood(r);
    case Seq(e1, e2) =>
      CompileGood(e1);
      CompileGood(e2);
      SeqGood(Compile(e1).code, e1, Compile(e2).code, e2);
    case Alt(e1, e2) =>
      CompileGood(e1);
      CompileGood(e2);
      UnionGood(Compile(e1).code, e1, Compile(e2).code, e2);
    case Diff(e1, e2) =>
      CompileGood(e1);
      CompileGood(e2);
      DiffGood(Compile(e1).code, e1, Compile(e2).code, e2);
    case And(e1) =>
      CompileGood(e1);
      AndGood(Compile(e1).code, e1);
    case Rep(e1, n) =>
      CompileGood(e1);
      RepGood(Compile(e1).code, e1, n);
    case Grab(e1, kind, idx) =>
      CompileGood(e1);
      CaptureGood(Compile(e1).code, e1, kind, idx);
    case Mark(kind, idx) => MarkGood(kind, idx);
  }

  // ----- the verifier, and termination -----

  predicate GrammarFree(e: Expr) {
    match e
    case NonTerm(_) => false
    case Seq(e1, e2) => GrammarFree(e1) && GrammarFree(e2)
    case Alt(e1, e2) => GrammarFree(e1) && GrammarFree(e2)
    case Diff(e1, e2) => GrammarFree(e1) && GrammarFree(e2)
    case And(e1) => GrammarFree(e1)
    case Rep(e1, _) => GrammarFree(e1)
    case Grab(e1, _, _) => GrammarFree(e1)
    case _ => true
  }

  /** No result of the expression depends on a rule. */
  predicate Closed(e: Expr, m: Mode) {
    m.Verify? || (m.Real? && GrammarFree(e))
  }

  /** An expression that matches the empty string somewhere matches for the verifier. */
  lemma {:induction false} EmptyMatchSeen(e: Expr, m: Mode, s: int, t: int)
    requires GrammarFree(e) && m.Real? && ValidPos(m, s)
    requires Eval(e, m, s).Succ? && Eval(e, m, s).pos == s
    ensures Eval(e, Verify, t).Succ? || Eval(e, Verify, t).Diverge?
    decreases e, 0
  {
    match e
    case Seq(e1, e2) =>
      EmptyMatchSeen(e1, m, s, t);
      EmptyMatchSeen(e2, m, s, t);
    case Alt(e1, e2) =>
      if Eval(e1, m, s).Succ? { EmptyMatchSeen(e1, m, s, t); } else { EmptyMatchSeen(e2, m, s, t); }
    case Diff(e1, e2) => EmptyMatchSeen(e1, m, s, t);
    case Rep(e1, n) => if n > 0 { EmptyTimesSeen(e1, m, n, s, t); }
    case Grab(e1, _, _) => EmptyMatchSeen(e1, m, s, t);
    case _ =>
  }

  lemma {:induction false} EmptyTimesSeen(e: Expr, m: Mode, n: nat, s: int, t: int)
    requires GrammarFree(e) && m.Real? && ValidPos(m, s)
    requires EvalTimes(e, m, n, s).Succ? && EvalTimes(e, m, n, s).pos == s
    ensures EvalTimes(e, Verify, n, t).Succ? || EvalTimes(e, Verify, n, t).Diverge?
    decreases e, 1, n
  {
    if n > 0 {
      EmptyMatchSeen(e, m, s, t);
      EmptyTimesSeen(e, m, n - 1, s, t);
    }
  }

  /** Whether the verifier accepts a body is decided by the body's meaning. */
  lemma VerifyMeaning(c: Code, e: Expr)
    requires Correct(c, e) && !Eval(e, Verify, 0).Diverge?
    ensures VerifyAccepts(c) <==> Eval(e, Verify, 0).Failure?
  {
    var o := Eval(e, Verify, 0);
    var none: seq<Capture> := [];
    assert |none| == 0 && Beh(Verify, c, 0, o);
    var st := Run(0, 0, [], none);
    assert Reach(Verify, c, 0, st, Final(|c|, [], none, o));
    if VerifyAccepts(c) {
      Deterministic(Verify, c, 0, st, Failing([]), Final(|c|, [], none, o));
    }
  }

  /** A body that starts with a check fails for the verifier. */
  lemma CheckFirstFails(c: Code, e: Expr)
    requires Correct(c, e) && |c| > 0 && c[0].op.Check? && !Eval(e, Verify, 0).Diverge?
    ensures Eval(e, Verify, 0).Failure?
  {
    assert Beh(Verify, c, 0, Eval(e, Verify, 0));
    FirstCheckFails(Verify, c, 0, Eval(e, Verify, 0));
  }

  /** Every loop body `star_l` lets through fails for the verifier. */
  lemma LoopBodyFails(c: Code, e: Expr, n: int)
    requires Correct(c, e) && n >= 0 && RepCode(c, n).Built? && !Eval(e, Verify, 0).Diverge?
    ensures Eval(e, Verify, 0).Failure?
  {
    if ToCharset(c).IsCharset? || IsHeadFail(c) {
      CheckFirstFails(c, e);
    } else {
      VerifyMeaning(c, e);
    }
  }

  lemma {:induction false} LoopDefined(e: Expr, m: Mode, s: int)
    requires ValidPos(m, s) && (m.Verify? ==> s == 0)
    requires forall s': int {:trigger Eval(e, m, s')} :: ValidPos(m, s') && (m.Verify? ==> s' == 0) ==>
      !Eval(e, m, s').Diverge?
    requires forall s': int {:trigger Eval(e, m, s')} ::
      ValidPos(m, s') && (m.Verify? ==> s' == 0) && Eval(e, m, s').Succ? ==> Eval(e, m, s').pos > s'
    ensures !EvalLoop(e, m, s).Diverge?
    decreases if m.Real? then |m.subj| - s else 0
  {
    if Eval(e, m, s).Succ? {
      LoopDefined(e, m, Eval(e, m, s).pos);
    }
  }

  lemma {:induction false} TimesDefined(e: Expr, m: Mode, n: nat, s: int)
    requires ValidPos(m, s) && (m.Verify? ==> s == 0)
    requires forall s': int {:trigger Eval(e, m, s')} :: ValidPos(m, s') && (m.Verify? ==> s' == 0) ==>
      !Eval(e, m, s').Diverge?
    ensures !EvalTimes(e, m, n, s).Diverge?
    decreases n
  {
    if n > 0 && Eval(e, m, s).Succ? {
      TimesDefined(e, m, n - 1, Eval(e, m, s).pos);
    }
  }

  lemma {:induction false} UpToDefined(e: Expr, m: Mode, n: nat, s: int)
    requires ValidPos(m, s) && (m.Verify? ==> s == 0)
    requires forall s': int {:trigger Eval(e, m, s')} :: ValidPos(m, s') && (m.Verify? ==> s' == 0) ==>
      !Eval(e, m, s').Diverge?
    ensures !EvalUpTo(e, m, n, s).Diverge?
    decreases n
  {
    if n > 0 && Eval(e, m, s).Succ? {
      UpToDefined(e, m, n - 1, Eval(e, m, s).pos);
    }
  }

  /** Every accepted grammar-free pattern has a result on every subject at every position; for the
      verifier, every accepted pattern has one. */
  lemma {:induction false} Defined(e: Expr, m: Mode, s: int)
    requires Closed(e, m) && Narrow(e) && Compile(e).Built?
    requires ValidPos(m, s) && (m.Verify? ==> s == 0)
    ensures !Eval(e, m, s).Diverge?
    decreases e, 0
  {
    match e
    case Seq(e1, e2) =>
      Defined(e1, m, s);
      if Eval(e1, m, s).Succ? { Defined(e2, m, Eval(e1, m, s).pos); }
    case Alt(e1, e2) =>
      Defined(e1, m, s);
      Defined(e2, m, s);
    case Diff(e1, e2) =>
      Defined(e1, m, s);
      Defined(e2, m, s);
    case And(e1) => Defined(e1, m, s);
    case Grab(e1, _, _) => Defined(e1, m, s);
    case Rep(e1, n) => RepDefined(e1, n, m, s);
    case _ =>
  }

  lemma RepDefined(e1: Expr, n: int, m: Mode, s: int)
    requires Closed(e1, m) && Narrow(e1) && Compile(Rep(e1, n)).Built?
    requires ValidPos(m, s) && (m.Verify? ==> s == 0)
    ensures !Eval(Rep(e1, n), m, s).Diverge?
    decreases e1, 2
  {
    forall s': int | ValidPos(m, s') && (m.Verify? ==> s' == 0)
      ensures !Eval(e1, m, s').Diverge?
    {
      Defined(e1, m, s');
    }
    if n >= 0 { BodyConsumes(e1, n, m); }
    RepDefinedFrom(e1, n, m, s);
  }

  /** Repetition is defined when its body is, and consumes input if the repetition is unbounded. */
  lemma RepDefinedFrom(e: Expr, n: int, m: Mode, s: int)
    requires ValidPos(m, s) && (m.Verify? ==> s == 0)
    requires forall s': int {:trigger Eval(e, m, s')} :: ValidPos(m, s') && (m.Verify? ==> s' == 0) ==>
      !Eval(e, m, s').Diverge?
    requires n >= 0 ==>
      forall s': int {:trigger Eval(e, m, s')} ::
        ValidPos(m, s') && (m.Verify? ==> s' == 0) && Eval(e, m, s').Succ? ==> Eval(e, m, s').pos > s'
    ensures !Eval(Rep(e, n), m, s).Diverge?
  {
    if n < 0 {
      UpToDefined(e, m, -n, s);
    } else {
      TimesDefined(e, m, n, s);
      var o := EvalTimes(e, m, n, s);
      if o.Succ? { LoopDefined(e, m, o.pos); }
    }
  }

  /** A loop body that `star_l` accepts consumes input whenever it matches. */
  lemma BodyConsumes(e: Expr, n: int, m: Mode)
    requires Closed(e, m) && Narrow(e) && n >= 0 && Compile(Rep(e, n)).Built?
    ensures forall s: int {:trigger Eval(e, m, s)} ::
      ValidPos(m, s) && (m.Verify? ==> s == 0) && Eval(e, m, s).Succ? ==> Eval(e, m, s).pos > s
    decreases e, 1
  {
    Defined(e, Verify, 0);
    CompileGood(e);
    GoodBasics(Compile(e).code, e);
    LoopBodyFails(Compile(e).code, e, n);
    forall s: int | ValidPos(m, s) && (m.Verify? ==> s == 0) && Eval(e, m, s).Succ?
      ensures Eval(e, m, s).pos > s
    {
      FailingConsumes(e, m, s);
    }
  }

  /** What fails for the verifier consumes input when it matches. */
  lemma FailingConsumes(e: Expr, m: Mode, s: int)
    requires Closed(e, m) && Eval(e, Verify, 0).Failure?
    requires ValidPos(m, s) && (m.Verify? ==> s == 0) && Eval(e, m, s).Succ?
    ensures Eval(e, m, s).pos > s
  {
    if Eval(e, m, s).pos == s { EmptyMatchSeen(e, m, s, 0); }
  }

  /** Soundness of `verify`: if it accepts a body, the body never succeeds without consuming input. */
  lemma VerifySound(e: Expr, m: Mode, s: int)
    requires GrammarFree(e) && Narrow(e) && Compile(e).Built? && VerifyAccepts(Compile(e).code)
    requires m.Real? && ValidPos(m, s) && Eval(e, m, s).Succ?
    ensures Eval(e, m, s).pos > s
  {
    var c := Compile(e).code;
    CompileGood(e);
    GoodBasics(c, e);
    Defined(e, Verify, 0);
    VerifyMeaning(c, e);
    if Eval(e, m, s).pos == s {
      EmptyMatchSeen(e, m, s, 0);
    }
  }

  // ----- which patterns are accepted -----

  /** A body that starts with a check takes no slot of the verifier's stack. */
  lemma CheckFirstLow(c: Code)
    requires |c| > 0 && c[0].op.Check?
    ensures !VerifyTooDeep(c)
  {
    SeenNext(c, 0);
    StayedLow(c, 1);
  }

  /** What `star_l` answers about an unbounded loop is decided by the meaning of its body, and by the stack the
      verifier needs for it. */
  lemma LoopAnswer(c: Code, e: Expr, n: int)
    requires Correct(c, e) && n >= 0 && !Eval(e, Verify, 0).Diverge?
    ensures RepCode(c, n) == DeepLoop <==> VerifyTooDeep(c)
    ensures RepCode(c, n) == EmptyLoop <==> !VerifyTooDeep(c) && Eval(e, Verify, 0).Succ?
    ensures RepCode(c, n).Built? <==> !VerifyTooDeep(c) && Eval(e, Verify, 0).Failure?
  {
    if ToCharset(c).IsCharset? || IsHeadFail(c) {
      CheckFirstFails(c, e);
      CheckFirstLow(c);
    } else {
      VerifyMeaning(c, e);
    }
  }

  /** The body can be built, and the verifier's stack is large enough for it. */
  ghost predicate FitsVerifier(e: Expr) {
    Compile(e).Built? && !VerifyTooDeep(Compile(e).code)
  }

  /** All bodies of unbounded loops fail on the empty subject, and fit the verifier. */
  ghost predicate LoopsConsume(e: Expr) {
    match e
    case Seq(e1, e2) => LoopsConsume(e1) && LoopsConsume(e2)
    case Alt(e1, e2) => LoopsConsume(e1) && LoopsConsume(e2)
    case Diff(e1, e2) => LoopsConsume(e1) && LoopsConsume(e2)
    case And(e1) => LoopsConsume(e1)
    case Grab(e1, _, _) => LoopsConsume(e1)
    case Rep(e1, n) => LoopsConsume(e1) && (n >= 0 ==> Eval(e1, Verify, 0).Failure? && FitsVerifier(e1))
    case _ => true
  }

  /** The answer about a repetition whose body can be built: optional matches always are, and an unbounded loop is
      refused exactly when the verifier runs out of stack or its body may match the empty string. */
  lemma RepAnswer(e: Expr, n: int)
    requires Narrow(e) && Compile(e).Built?
    ensures n < 0 ==> Compile(Rep(e, n)).Built?
    ensures n >= 0 ==>
      && (Compile(Rep(e, n)) == DeepLoop <==> VerifyTooDeep(Compile(e).code))
      && (Compile(Rep(e, n)) == EmptyLoop <==> !VerifyTooDeep(Compile(e).code) && Eval(e, Verify, 0).Succ?)
      && (Compile(Rep(e, n)).Built? <==> !VerifyTooDeep(Compile(e).code) && Eval(e, Verify, 0).Failure?)
  {
    BodyMeans(e);
    if n >= 0 { LoopAnswer(Compile(e).code, e, n); }
  }

  lemma BodyMeans(e: Expr)
    requires Narrow(e) && Compile(e).Built?
    ensures Correct(Compile(e).code, e) && !Eval(e, Verify, 0).Diverge?
  {
    CompileGood(e);
    GoodBasics(Compile(e).code, e);
    Defined(e, Verify, 0);
  }

  /** A pattern is built exactly when all its loops consume. */
  lemma {:induction false} BuiltIff(e: Expr)
    requires Narrow(e)
    ensures Compile(e).Built? <==> LoopsConsume(e)
    decreases e
  {
    match e
    case Seq(e1, e2) =>
      BuiltIff(e1);
      BuiltIff(e2);
    case Alt(e1, e2) =>
      BuiltIff(e1);
      BuiltIff(e2);
    case Diff(e1, e2) =>
      BuiltIff(e1);
      BuiltIff(e2);
    case And(e1) => BuiltIff(e1);
    case Grab(e1, _, _) => BuiltIff(e1);
    case Rep(e1, n) =>
      BuiltIff(e1);
      if Compile(e1).Built? { RepAnswer(e1, n); }
    case _ =>
  }
}
