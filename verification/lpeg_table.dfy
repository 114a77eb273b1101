/** What the rules of a grammar are to the verifier with its table: which of them match the empty string when every
    check fails and every predicate is taken to succeed. */
module LpegTable {
  import opened LpegCode
  import opened LpegSemantics
  import opened LpegCompiler
  import opened LpegGrammar

  /** What can be said about the rules when `m` is known. */
  ghost function NextEmpties(g: seq<Expr>, m: Mode): map<nat, bool>
    requires m.Table?
  {
    map r: nat | r < |g| && !Eval(g[r], m, 0).Diverge? :: r := Eval(g[r], m, 0).Succ?
  }

  /** The rules whose answer takes at most `d` nested calls, with their answers. */
  ghost function Empties(g: seq<Expr>, d: nat): map<nat, bool> {
    if d == 0 then map[] else NextEmpties(g, Table(Empties(g, d - 1)))
  }

  /** What is known of a rule is what its expression means with one call less. */
  lemma KnownMeans(g: seq<Expr>, r: nat, d0: nat, d: nat)
    requires d == d0 + 1 && r in Empties(g, d)
    ensures r < |g| && !Eval(g[r], Table(Empties(g, d0)), 0).Diverge?
    ensures Empties(g, d)[r] == Eval(g[r], Table(Empties(g, d0)), 0).Succ?
  {
  }

  // ----- deeper tables -----

  ghost predicate Wider(m: Mode, m': Mode) {
    m.Table? && m'.Table? && forall r {:trigger m.empties[r]} {:trigger r in m.empties} :: r in m.empties ==>
      r in m'.empties && m'.empties[r] == m.empties[r]
  }

  /** A wider table gives the same answers, and perhaps further ones. */
  lemma {:induction false} EvalWider(e: Expr, m: Mode, m': Mode, s: int)
    requires Wider(m, m')
    ensures Eval(e, m, s).Diverge? || Eval(e, m, s) == Eval(e, m', s)
    decreases e, 0
  {
    match e
    case Seq(e1, e2) =>
      EvalWider(e1, m, m', s);
      if Eval(e1, m, s).Succ? { EvalWider(e2, m, m', Eval(e1, m, s).pos); }
    case Alt(e1, e2) =>
      EvalWider(e1, m, m', s);
      EvalWider(e2, m, m', s);
    case Diff(e1, e2) =>
      EvalWider(e1, m, m', s);
      EvalWider(e2, m, m', s);
    case And(e1) => EvalWider(e1, m, m', s);
    case Grab(e1, _, _) => EvalWider(e1, m, m', s);
    case Rep(e1, n) =>
      EvalWider(e1, m, m', s);
      CopiesWider(e1, m, m', if n < 0 then -n else n, s);
    case _ =>
  }

  lemma {:induction false} CopiesWider(e: Expr, m: Mode, m': Mode, n: nat, s: int)
    requires Wider(m, m') && (Eval(e, m, s).Diverge? || Eval(e, m, s) == Eval(e, m', s))
    ensures EvalTimes(e, m, n, s).Diverge? || EvalTimes(e, m, n, s) == EvalTimes(e, m', n, s)
    ensures EvalUpTo(e, m, n, s).Diverge? || EvalUpTo(e, m, n, s) == EvalUpTo(e, m', n, s)
    decreases e, 1, n
  {
    if n > 0 { CopiesWider(e, m, m', n - 1, s); }
  }

  lemma NextWider(g: seq<Expr>, m: Mode, m': Mode)
    requires Wider(m, m')
    ensures Wider(Table(NextEmpties(g, m)), Table(NextEmpties(g, m')))
  {
    forall r | r in NextEmpties(g, m)
      ensures r in NextEmpties(g, m') && NextEmpties(g, m')[r] == NextEmpties(g, m)[r]
    {
      EvalWider(g[r], m, m', 0);
    }
  }

  lemma {:induction false} EmptiesWider(g: seq<Expr>, d: nat, d': nat)
    requires d <= d'
    ensures Wider(Table(Empties(g, d)), Table(Empties(g, d')))
    decreases d
  {
    if d > 0 {
      EmptiesWider(g, d - 1, d' - 1);
      NextWider(g, Table(Empties(g, d - 1)), Table(Empties(g, d' - 1)));
    }
  }

  /** The last depth at which the answer for a rule is not known: its expression has its meaning there. */
  lemma {:induction false} LastUnknown(g: seq<Expr>, r: nat, d: nat) returns (d0: nat)
    requires r in Empties(g, d)
    ensures d0 < d && r !in Empties(g, d0) && r < |g| && !Eval(g[r], Table(Empties(g, d0)), 0).Diverge?
    ensures Empties(g, d)[r] == Eval(g[r], Table(Empties(g, d0)), 0).Succ?
    decreases d
  {
    if r in Empties(g, d - 1) {
      EmptiesWider(g, d - 1, d);
      d0 := LastUnknown(g, r, d - 1);
    } else {
      d0 := d - 1;
      KnownMeans(g, r, d0, d);
    }
  }

  // ----- expressions without calls -----

  /** Without calls the table does not matter: the verifier answers as it does without it. */
  lemma {:induction false} TableAgrees(e: Expr, m: Mode, s: int)
    requires GrammarFree(e) && m.Table? && !Eval(e, Verify, s).Diverge?
    ensures Eval(e, m, s) == Eval(e, Verify, s)
    decreases e, 0
  {
    match e
    case Seq(e1, e2) =>
      TableAgrees(e1, m, s);
      if Eval(e1, Verify, s).Succ? { TableAgrees(e2, m, s); }
    case Alt(e1, e2) =>
      TableAgrees(e1, m, s);
      if Eval(e1, Verify, s).Failure? { TableAgrees(e2, m, s); }
    case Diff(e1, e2) =>
      TableAgrees(e2, m, s);
      TableAgrees(e1, m, s);
    case And(e1) => TableAgrees(e1, m, s);
    case Grab(e1, _, _) => TableAgrees(e1, m, s);
    case Rep(e1, n) => if n < 0 { UpToAgrees(e1, m, -n, s); } else { TimesAgrees(e1, m, n, s); }
    case _ =>
  }

  lemma {:induction false} TimesAgrees(e: Expr, m: Mode, n: nat, s: int)
    requires GrammarFree(e) && m.Table? && !Eval(Rep(e, n), Verify, s).Diverge?
    ensures Eval(Rep(e, n), m, s) == Eval(Rep(e, n), Verify, s)
    decreases e, 1, n
  {
    if !Eval(e, Verify, s).Diverge? { TableAgrees(e, m, s); }
    if n > 0 && Eval(e, Verify, s).Succ? { TimesAgrees(e, m, n - 1, s); }
  }

  lemma {:induction false} UpToAgrees(e: Expr, m: Mode, n: nat, s: int)
    requires GrammarFree(e) && m.Table? && !EvalUpTo(e, Verify, n, s).Diverge?
    ensures EvalUpTo(e, m, n, s) == EvalUpTo(e, Verify, n, s)
    decreases e, 1, n
  {
    if n > 0 {
      TableAgrees(e, m, s);
      if Eval(e, Verify, s).Succ? { UpToAgrees(e, m, n - 1, s); }
    }
  }

  // ----- complete tables -----

  /** Every rule the expression calls is in the table. */
  predicate Covered(e: Expr, m: Mode) {
    match e
    case NonTerm(r) => m.Table? && r in m.empties
    case Seq(e1, e2) => Covered(e1, m) && Covered(e2, m)
    case Alt(e1, e2) => Covered(e1, m) && Covered(e2, m)
    case Diff(e1, e2) => Covered(e1, m) && Covered(e2, m)
    case And(e1) => Covered(e1, m)
    case Rep(e1, _) => Covered(e1, m)
    case Grab(e1, _, _) => Covered(e1, m)
    case _ => true
  }

  /** With a table of all rules the verifier has an answer for every expression. */
  lemma {:induction false} TableDefined(e: Expr, m: Mode, s: int)
    requires m.Table? && Covered(e, m)
    ensures !Eval(e, m, s).Diverge?
    decreases e, 0
  {
    match e
    case Seq(e1, e2) =>
      TableDefined(e1, m, s);
      TableDefined(e2, m, s);
    case Alt(e1, e2) =>
      TableDefined(e1, m, s);
      TableDefined(e2, m, s);
    case Diff(e1, e2) =>
      TableDefined(e1, m, s);
      TableDefined(e2, m, s);
    case And(e1) => TableDefined(e1, m, s);
    case Grab(e1, _, _) => TableDefined(e1, m, s);
    case Rep(e1, n) =>
      TableDefined(e1, m, s);
      CopiesDefined(e1, m, if n < 0 then -n else n, s);
    case _ =>
  }

  lemma {:induction false} CopiesDefined(e: Expr, m: Mode, n: nat, s: int)
    requires m.Table? && !Eval(e, m, s).Diverge?
    ensures !EvalTimes(e, m, n, s).Diverge? && !EvalUpTo(e, m, n, s).Diverge? && !EvalLoop(e, m, s).Diverge?
    decreases n
  {
    if n > 0 { CopiesDefined(e, m, n - 1, s); }
  }

  // ----- what the answers say about real subjects -----

  /** Every rule that matches somewhere without consuming anything is one of the empty ones, if the table has it. */
  ghost predicate Covers(m: Mode, t: Mode) {
    m.Real? && t.Table? && forall r: nat, s: int {:trigger RuleOut(m, r, s)} ::
      r in t.empties && RuleOut(m, r, s).Succ? && RuleOut(m, r, s).pos == s ==> t.empties[r]
  }

  /** An expression that matches the empty string somewhere does not fail for the verifier. */
  lemma {:induction false} EmptySeen(e: Expr, m: Mode, s: int, t: Mode)
    requires Covers(m, t) && ValidPos(m, s) && Eval(e, m, s).Succ? && Eval(e, m, s).pos == s
    ensures !Eval(e, t, 0).Failure?
    decreases e
  {
    match e
    case NonTerm(r) => assert RuleOut(m, r, s).Succ?;
    case Seq(e1, e2) =>
      EmptySeen(e1, m, s, t);
      EmptySeen(e2, m, s, t);
    case Alt(e1, e2) =>
      if Eval(e1, m, s).Succ? { EmptySeen(e1, m, s, t); } else { EmptySeen(e2, m, s, t); }
    case Diff(e1, e2) => EmptySeen(e1, m, s, t);
    case Grab(e1, _, _) => EmptySeen(e1, m, s, t);
    case Rep(e1, n) => if n > 0 && EvalTimes(e1, m, n, s).pos == s { LoopStuck(e1, m, n, s); }
    case _ =>
  }

  /** A copy that matches the empty string leaves its loop without a result. */
  lemma LoopStuck(e: Expr, m: Mode, n: nat, s: int)
    requires m.Real? && ValidPos(m, s) && n > 0 && EvalTimes(e, m, n, s).Succ? && EvalTimes(e, m, n, s).pos == s
    ensures EvalLoop(e, m, s).Diverge?
  {
  }

  lemma {:induction false} RulesCovered(g: seq<Expr>, ms: seq<Mode>, n: nat, d: nat)
    requires Tower(g, ms) && n < |ms|
    ensures Covers(ms[n], Table(Empties(g, d)))
    decreases n, d
  {
    var (m, t) := (ms[n], Table(Empties(g, d)));
    if n > 0 { assert StepUpAt(g, ms, n - 1); }
    forall r: nat, s: int | r in t.empties && RuleOut(m, r, s).Succ? && RuleOut(m, r, s).pos == s
      ensures t.empties[r]
    {
      assert n > 0 && d > 0;
      RulesCovered(g, ms, n - 1, d - 1);
      assert RuleOut(m, r, s) == RuleNext(g, ms[n - 1], r, s);
      EmptySeen(g[r], ms[n - 1], s, Table(Empties(g, d - 1)));
    }
  }

  /** A rule that fails for the verifier consumes something wherever it matches, on every subject. */
  lemma FailingRuleConsumes(g: seq<Expr>, r: nat, d: nat, subj: seq<Byte>, s: int, n: nat)
    requires r in Empties(g, d) && !Empties(g, d)[r] && RuleOut(Rules(g, subj, n), r, s).Succ?
    ensures RuleOut(Rules(g, subj, n), r, s).pos > s
  {
    var ms := RulesTower(g, subj, n);
    RulesCovered(g, ms, n, d);
    assert RuleOut(ms[n], r, s).Succ?;
  }
}
