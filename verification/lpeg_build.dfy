/** Building a pattern and matching with it: the library's whole path for grammar-free patterns. */
module LpegBuild {
  import opened LpegCode
  import opened LpegSemantics
  import opened LpegMachine
  import opened LpegBehaviour
  import opened LpegCompile
  import opened LpegInvariant
  import opened LpegBasic
  import opened LpegUnion
  import opened LpegVerify
  import opened LpegCompiler
  import opened LpegMatch

  lemma GoodInRange(c: Code, e: Expr)
    requires Good(c, e)
    ensures InRange(c) && Correct(c, e)
  {
    GoodBasics(c, e);
    WFProgress(c);
  }

  /** `star_l` as it runs: the verifier decides about a loop body. */
  method BuildRep(c: Code, n: int, ghost e: Expr) returns (r: Built)
    requires Good(c, e) && !Eval(e, Verify, 0).Diverge?
    ensures r == RepCode(c, n)
    ensures n < 0 ==> r.Built?
    ensures n >= 0 ==>
      && (r == DeepLoop <==> VerifyTooDeep(c))
      && (r == EmptyLoop <==> !VerifyTooDeep(c) && Eval(e, Verify, 0).Succ?)
      && (r.Built? <==> !VerifyTooDeep(c) && Eval(e, Verify, 0).Failure?)
  {
    GoodInRange(c, e);
    if n >= 0 { LoopAnswer(c, e, n); }
    if n < 0 {
      r := Built(AtMost(c, -n));
    } else if ToCharset(c).IsCharset? {
      r := Built(RepeatCharset(ToCharset(c).cs, c, n));
    } else if IsHeadFail(c) {
      r := Built(OptimizeLoop(RepeatHeadFail(c, n)));
    } else {
      VerifyMeaning(c, e);
      assert Beh(Verify, c, 0, Eval(e, Verify, 0));
      var v := VerifyBody(c, Eval(e, Verify, 0));
      match v
      case TooManyCalls => r := DeepLoop;
      case MayBeEmpty => r := EmptyLoop;
      case Accepted => r := Built(OptimizeLoop(Repeats(c, n)));
    }
  }

  /** Builds the code of a pattern, operands first. */
  method Build(e: Expr) returns (r: Built)
    requires Narrow(e)
    ensures r == Compile(e)
    ensures r.Built? <==> LoopsConsume(e)
    decreases e
  {
    BuiltIff(e);
    match e
    case Lit(bytes) => r := Built(LitCode(bytes));
    case Num(n) => r := Built(NumCode(n));
    case Never => r := Built([Instr(Fail(false), 0)]);
    case CharSet(cs) => r := Built(SetCode(cs));
    case NonTerm(rule) => r := Built([Instr(OpenCall(rule), 0)]);
    case Seq(e1, e2) =>
      var b1 := Build(e1);
      var b2 := Build(e2);
      r := Both(b1, b2, SeqCode);
    case Alt(e1, e2) =>
      var b1 := Build(e1);
      var b2 := Build(e2);
      r := Both(b1, b2, UnionCode);
    case Diff(e1, e2) =>
      var b1 := Build(e1);
      var b2 := Build(e2);
      r := Both(b1, b2, DiffCode);
    case And(e1) =>
      r := Build(e1);
      if r.Built? { r := Built(AndCode(r.code)); }
    case Rep(e1, n) =>
      r := Build(e1);
      if r.Built? {
        CompileGood(e1);
        Defined(e1, Verify, 0);
        r := BuildRep(r.code, n, e1);
      }
    case Grab(e1, kind, idx) =>
      r := Build(e1);
      if r.Built? { r := Built(CaptureCode(r.code, kind, idx)); }
    case Mark(kind, idx) => r := Built(MarkCode(kind, idx));
  }

  /** A pattern that can be built matches exactly what its expression says: the same end position and
      the same capture list, or failure.  The one other outcome is the stack overflow, and it is reported
      exactly when the run needs more than `MAXBACK` entries. */
  method MatchPattern(e: Expr, subj: seq<Byte>, start: nat) returns (b: Built, r: MatchResult)
    requires Narrow(e) && GrammarFree(e) && start <= |subj|
    ensures b == Compile(e)
    ensures b.Built? ==> !Eval(e, Real(subj, map[]), start).Diverge?
    ensures b.Built? ==> (r.TooManyPending? <==> TooDeep(b.code, subj, start))
    ensures b.Built? && !r.TooManyPending? ==> r == ResultOf(Eval(e, Real(subj, map[]), start))
  {
    b := Build(e);
    r := NoMatch;
    if b.Built? {
      CompileGood(e);
      GoodInRange(b.code, e);
      ghost var m := Real(subj, map[]);
      Defined(e, m, start);
      ghost var o := Eval(e, m, start);
      assert Beh(m, b.code, start, o);
      BehRuns(b.code, subj, start, o);
      ghost var fin, k := EndOfRun(b.code, subj, start, o);
      r := Match(b.code, subj, start, k);
    }
  }
}
