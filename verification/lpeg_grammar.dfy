/** Grammars: rule bodies laid out one after the other, open calls turned into calls or, in tail
    position, into jumps, and jump chains collapsed (`fix_l`, lib/lpeg.c:1133-1197). */
module LpegGrammar {
  import opened LpegCode
  import opened LpegSemantics
  import opened LpegMachine
  import opened LpegBehaviour
  import opened LpegRewrite
  import opened LpegCompile
  import opened LpegInvariant
  import opened LpegBasic
  import opened LpegOptJumps
  import opened LpegMatch

  // ----- layout -----

  /** The position of a rule: the initial call and jump come first. */
  function PosOf(bodies: seq<Code>, r: nat): (p: nat)
    requires r <= |bodies|
    ensures p >= 2
  {
    if r == 0 then 2 else PosOf(bodies, r - 1) + |bodies[r - 1]| + 1
  }

  /** The first `n` rules, each followed by a return. */
  function Laid(bodies: seq<Code>, n: nat): (c: Code)
    requires n <= |bodies|
    ensures |c| == PosOf(bodies, n) - 2
  {
    if n == 0 then [] else Laid(bodies, n - 1) + bodies[n - 1] + [Instr(Ret, 0)]
  }

  function Positions(bodies: seq<Code>): (pos: seq<nat>)
    ensures |pos| == |bodies| && forall r {:trigger pos[r]} :: 0 <= r < |bodies| ==> pos[r] == PosOf(bodies, r)
  {
    seq(|bodies|, r requires 0 <= r < |bodies| => PosOf(bodies, r))
  }

  /** The whole grammar before its open calls are fixed. */
  function Draft(bodies: seq<Code>, start: nat): (c: Code)
    requires start < |bodies|
    ensures |c| == PosOf(bodies, |bodies|)
  {
    [Instr(Call, PosOf(bodies, start)), Instr(Jmp, PosOf(bodies, |bodies|) - 1)] + Laid(bodies, |bodies|)
  }

  /** Rule `r` stands at its position, followed by a return. */
  lemma {:induction false} LaidAt(bodies: seq<Code>, n: nat, r: nat)
    requires r < n <= |bodies|
    ensures
      var (at, c) := (PosOf(bodies, r) - 2, Laid(bodies, n));
      at + |bodies[r]| < |c| && c[at..at + |bodies[r]|] == bodies[r] && c[at + |bodies[r]|].op.Ret?
    decreases n
  {
    var (at, c) := (PosOf(bodies, r) - 2, Laid(bodies, n));
    var before := Laid(bodies, n - 1);
    if r == n - 1 {
      assert c[|before|..|before| + |bodies[r]|] == bodies[r];
    } else {
      LaidAt(bodies, n - 1, r);
      assert c[..|before|] == before;
      assert c[at..at + |bodies[r]|] == before[at..at + |bodies[r]|];
    }
  }

  lemma DraftAt(bodies: seq<Code>, start: nat, r: nat)
    requires start < |bodies| && r < |bodies|
    ensures
      var (at, c) := (PosOf(bodies, r), Draft(bodies, start));
      at + |bodies[r]| < |c| && c[at..at + |bodies[r]|] == bodies[r] && c[at + |bodies[r]|].op.Ret?
  {
    LaidAt(bodies, |bodies|, r);
    var (at, c, l) := (PosOf(bodies, r), Draft(bodies, start), Laid(bodies, |bodies|));
    assert c[2..] == l;
    assert c[at..at + |bodies[r]|] == l[at - 2..at - 2 + |bodies[r]|];
  }

  /** Every other instruction of the draft belongs to a body or is a return. */
  lemma {:induction false} LaidInstr(bodies: seq<Code>, n: nat, i: nat) returns (r: nat)
    requires n <= |bodies| && i < |Laid(bodies, n)|
    ensures r < n && PosOf(bodies, r) - 2 <= i <= PosOf(bodies, r) - 2 + |bodies[r]|
    decreases n
  {
    var before := Laid(bodies, n - 1);
    if i < |before| {
      r := LaidInstr(bodies, n - 1, i);
    } else {
      r := n - 1;
    }
  }

  // ----- fixing the open calls -----

  /** Ranks for the jumps of the draft and for those its open calls may become. */
  predicate Settles(c: Code, f: seq<nat>, pos: seq<nat>) {
    Falls(c, f) && (forall r {:trigger pos[r]} :: 0 <= r < |pos| ==> pos[r] < |c|) &&
    forall i {:trigger c[i]} :: 0 <= i < |c| && c[i].op.OpenCall? ==>
      c[i].op.rule < |pos| && f[pos[c[i].op.rule]] < f[i]
  }

  /** A jump goes forward, or back to the test of a loop. */
  predicate Forward(c: Code) {
    InRange(c) && forall i {:trigger ForwardAt(c, i)} :: 0 <= i < |c| && c[i].op.Jmp? ==> ForwardAt(c, i)
  }

  predicate ForwardAt(c: Code, i: int)
    requires 0 <= i < |c| && 0 <= i + c[i].off <= |c|
  {
    c[i].off > 0 || c[i + c[i].off].op.Test?
  }

  predicate IsRet(c: Code, i: int) {
    0 <= i < |c| && c[i].op.Ret?
  }

  /** An open call in the draft that leads, through jumps, to a return becomes a jump to its rule;
      every other one becomes a call. */
  function FixedInstr(c: Code, ghost f: seq<nat>, pos: seq<nat>, i: nat): Instr
    requires Settles(c, f, pos) && i < |c|
  {
    if c[i].op.OpenCall? then
      Instr(if IsRet(c, Target(c, f, i + 1)) then Jmp else Call, pos[c[i].op.rule] - i)
    else c[i]
  }

  /** The draft with the open calls before `n` fixed. */
  function Fixed(c: Code, ghost f: seq<nat>, pos: seq<nat>, n: nat): (r: Code)
    requires Settles(c, f, pos) && n <= |c|
    ensures |r| == |c|
  {
    seq(|c|, i requires 0 <= i < |c| => if i < n then FixedInstr(c, f, pos, i) else c[i])
  }

  lemma FixedFalls(c: Code, f: seq<nat>, pos: seq<nat>, n: nat)
    requires Settles(c, f, pos) && n <= |c|
    ensures Falls(Fixed(c, f, pos, n), f)
  {
    var r := Fixed(c, f, pos, n);
    forall i | 0 <= i < |r| && IsJmp(r[i].op)
      ensures 0 <= i + r[i].off <= |r|
    {
    }
    forall i | 0 <= i < |r| && r[i].op.Jmp?
      ensures FallsAt(r, f, i)
    {
      if c[i].op.Jmp? { assert FallsAt(c, f, i); }
    }
  }

  /** Behind the calls already fixed, chains of jumps are those of the draft. */
  lemma {:induction false} FixedTarget(c: Code, f: seq<nat>, pos: seq<nat>, n: nat, i: nat)
    requires Settles(c, f, pos) && Forward(c) && n < i <= |c|
    ensures Falls(Fixed(c, f, pos, n), f) && Target(Fixed(c, f, pos, n), f, i) == Target(c, f, i)
    decreases |c| - i
  {
    var r := Fixed(c, f, pos, n);
    FixedFalls(c, f, pos, n);
    if i < |c| && c[i].op.Jmp? {
      assert FallsAt(c, f, i) && FallsAt(r, f, i) && ForwardAt(c, i);
      var t := i + c[i].off;
      if c[i].off > 0 {
        FixedTarget(c, f, pos, n, t);
      } else {
        assert c[t].op.Test? && r[t] == c[t];
      }
    }
  }

  // ----- meaning -----

  /** What the rules of a grammar match, with at most `d` calls nested. */
  ghost function Oracle(g: seq<Expr>, subj: seq<Byte>, d: nat): map<(nat, int), Out> {
    if d == 0 then map[]
    else
      var m := Real(subj, Oracle(g, subj, d - 1));
      map r: nat, s: int | r < |g| && 0 <= s <= |subj| :: (r, s) := Eval(g[r], m, s)
  }

  ghost function Rules(g: seq<Expr>, subj: seq<Byte>, d: nat): Mode {
    Real(subj, Oracle(g, subj, d))
  }

  lemma RuleIsEval(g: seq<Expr>, subj: seq<Byte>, d: nat, r: nat, s: int)
    requires r < |g| && 0 <= s <= |subj|
    ensures RuleOut(Rules(g, subj, d + 1), r, s) == Eval(g[r], Rules(g, subj, d), s)
  {
    EvalBalanced(g[r], Rules(g, subj, d), s);
    assert (r, s) in Oracle(g, subj, d + 1);
  }

  /** Rules that know more give the same results, and perhaps further ones. */
  ghost predicate Extends(m: Mode, m': Mode) {
    m.Real? && m'.Real? && m.subj == m'.subj &&
    forall r: nat, s: int {:trigger RuleOut(m, r, s)} ::
      RuleOut(m, r, s).Diverge? || RuleOut(m, r, s) == RuleOut(m', r, s)
  }

  lemma {:induction false} EvalExtends(e: Expr, m: Mode, m': Mode, s: int)
    requires Extends(m, m') && ValidPos(m, s)
    ensures Eval(e, m, s).Diverge? || Eval(e, m, s) == Eval(e, m', s)
    decreases e, 0, 0
  {
    match e
    case NonTerm(r) => assert RuleOut(m, r, s).Diverge? || RuleOut(m, r, s) == RuleOut(m', r, s);
    case Seq(e1, e2) =>
      EvalExtends(e1, m, m', s);
      if Eval(e1, m, s).Succ? { EvalExtends(e2, m, m', Eval(e1, m, s).pos); }
    case Alt(e1, e2) =>
      EvalExtends(e1, m, m', s);
      EvalExtends(e2, m, m', s);
    case Diff(e1, e2) =>
      EvalExtends(e1, m, m', s);
      EvalExtends(e2, m, m', s);
    case And(e1) => EvalExtends(e1, m, m', s);
    case Grab(e1, _, _) => EvalExtends(e1, m, m', s);
    case Rep(e1, n) =>
      if n < 0 {
        UpToExtends(e1, m, m', -n, s);
      } else {
        TimesExtends(e1, m, m', n, s);
        var o := EvalTimes(e1, m, n, s);
        if o.Succ? { LoopExtends(e1, m, m', o.pos); }
      }
    case _ =>
  }

  lemma {:induction false} TimesExtends(e: Expr, m: Mode, m': Mode, n: nat, s: int)
    requires Extends(m, m') && ValidPos(m, s)
    ensures EvalTimes(e, m, n, s).Diverge? || EvalTimes(e, m, n, s) == EvalTimes(e, m', n, s)
    decreases e, 1, n
  {
    EvalExtends(e, m, m', s);
    if n > 0 && Eval(e, m, s).Succ? { TimesExtends(e, m, m', n - 1, Eval(e, m, s).pos); }
  }

  lemma {:induction false} LoopExtends(e: Expr, m: Mode, m': Mode, s: int)
    requires Extends(m, m') && ValidPos(m, s)
    ensures EvalLoop(e, m, s).Diverge? || EvalLoop(e, m, s) == EvalLoop(e, m', s)
    decreases e, 1, |m.subj| - s
  {
    EvalExtends(e, m, m', s);
    var o := Eval(e, m, s);
    if o.Succ? && s < o.pos { LoopExtends(e, m, m', o.pos); }
  }

  lemma {:induction false} UpToExtends(e: Expr, m: Mode, m': Mode, n: nat, s: int)
    requires Extends(m, m') && ValidPos(m, s)
    ensures EvalUpTo(e, m, n, s).Diverge? || EvalUpTo(e, m, n, s) == EvalUpTo(e, m', n, s)
    decreases e, 1, n
  {
    EvalExtends(e, m, m', s);
    if n > 0 && Eval(e, m, s).Succ? { UpToExtends(e, m, m', n - 1, Eval(e, m, s).pos); }
  }

  /** `m'` allows one more level of calls than `m`. */
  ghost predicate StepUp(g: seq<Expr>, m: Mode, m': Mode) {
    m.Real? && m'.Real? && m.subj == m'.subj &&
    forall r: nat, s: int {:trigger RuleOut(m', r, s)} :: RuleOut(m', r, s) == RuleNext(g, m, r, s)
  }

  function RuleNext(g: seq<Expr>, m: Mode, r: nat, s: int): Out {
    if r < |g| && ValidPos(m, s) then Eval(g[r], m, s) else Diverge
  }

  lemma RulesStepUp(g: seq<Expr>, subj: seq<Byte>, d: nat, d': nat)
    requires d' == d + 1
    ensures StepUp(g, Rules(g, subj, d), Rules(g, subj, d'))
  {
    forall r: nat, s: int
      ensures RuleOut(Rules(g, subj, d'), r, s) == RuleNext(g, Rules(g, subj, d), r, s)
    {
      if r < |g| && 0 <= s <= |subj| { RuleIsEval(g, subj, d, r, s); }
    }
  }

  lemma ExtendsStepUp(g: seq<Expr>, m0: Mode, m1: Mode, m2: Mode)
    requires StepUp(g, m0, m1) && StepUp(g, m1, m2) && Extends(m0, m1)
    ensures Extends(m1, m2)
  {
    forall r: nat, s: int
      ensures RuleOut(m1, r, s).Diverge? || RuleOut(m1, r, s) == RuleOut(m2, r, s)
    {
      if r < |g| && ValidPos(m0, s) { EvalExtends(g[r], m0, m1, s); }
    }
  }

  /** Modes of growing depth, from no calls at all. */
  ghost predicate Tower(g: seq<Expr>, ms: seq<Mode>) {
    |ms| > 0 && ms[0].Real? && ms[0].rules == map[] &&
    forall k {:trigger StepUpAt(g, ms, k)} :: 0 <= k < |ms| - 1 ==> StepUpAt(g, ms, k)
  }

  ghost predicate StepUpAt(g: seq<Expr>, ms: seq<Mode>, k: nat)
    requires k < |ms| - 1
  {
    StepUp(g, ms[k], ms[k + 1])
  }

  lemma TowerGrows(g: seq<Expr>, before: seq<Mode>, m: Mode)
    requires Tower(g, before) && StepUp(g, before[|before| - 1], m)
    ensures Tower(g, before + [m])
  {
    var ms := before + [m];
    forall k | 0 <= k < |ms| - 1
      ensures StepUpAt(g, ms, k)
    {
      if k < |before| - 1 { assert StepUpAt(g, before, k); }
    }
  }

  lemma {:induction false} RulesTower(g: seq<Expr>, subj: seq<Byte>, d: nat) returns (ms: seq<Mode>)
    ensures Tower(g, ms) && |ms| == d + 1 && ms[d] == Rules(g, subj, d)
    decreases d
  {
    if d == 0 {
      ms := [Rules(g, subj, d)];
    } else {
      var before := RulesTower(g, subj, d - 1);
      RulesStepUp(g, subj, d - 1, d);
      TowerGrows(g, before, Rules(g, subj, d));
      ms := before + [Rules(g, subj, d)];
    }
  }

  /** The result of a rule does not depend on the depth at which it is found. */
  lemma {:induction false} DeeperAgrees(g: seq<Expr>, ms: seq<Mode>, n: nat)
    requires Tower(g, ms) && n + 1 < |ms|
    ensures Extends(ms[n], ms[n + 1])
    decreases n
  {
    assert StepUpAt(g, ms, n);
    if n > 0 {
      assert StepUpAt(g, ms, n - 1);
      DeeperAgrees(g, ms, n - 1);
      ExtendsStepUp(g, ms[n - 1], ms[n], ms[n + 1]);
    }
  }
}
