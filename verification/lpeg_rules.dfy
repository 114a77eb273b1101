/** Grammars from rules to matches: which grammars can be fixed, fixing them in place, and what a match
    with a grammar returns. */
module LpegRules {
  import opened LpegCode
  import opened LpegSemantics
  import opened LpegMachine
  import opened LpegBehaviour
  import opened LpegCompile
  import opened LpegInvariant
  import opened LpegBasic
  import opened LpegUnion
  import opened LpegArrays
  import opened LpegCompiler
  import opened LpegMatch
  import opened LpegBuild
  import opened LpegSafety
  import opened LpegGrammar
  import opened LpegFix

  // ----- grammars whose jumps settle -----

  /** The rules a body refers to are defined. */
  predicate Refers(c: Code, n: nat) {
    forall i {:trigger c[i]} :: 0 <= i < |c| && c[i].op.OpenCall? ==> c[i].op.rule < n
  }

  /** No rule starts, by its first instruction, with a call that leads back to itself. */
  predicate HeadsFall(bodies: seq<Code>, h: seq<nat>) {
    |h| == |bodies| &&
    forall r {:trigger bodies[r]} :: 0 <= r < |bodies| && |bodies[r]| > 0 && bodies[r][0].op.OpenCall? ==>
      bodies[r][0].op.rule < |bodies| && h[bodies[r][0].op.rule] < h[r]
  }

  predicate Fixable(bodies: seq<Code>, h: seq<nat>) {
    HeadsFall(bodies, h) && forall r {:trigger bodies[r]} :: 0 <= r < |bodies| ==>
      WF(bodies[r]) && Refers(bodies[r], |bodies|)
  }

  /** The rule that starts at an address, or -1. */
  function RuleAt(bodies: seq<Code>, n: nat, i: nat): (r: int)
    requires n <= |bodies|
    ensures -1 <= r < n && (r >= 0 ==> PosOf(bodies, r) == i)
  {
    if n == 0 then -1 else if PosOf(bodies, n - 1) == i then n - 1 else RuleAt(bodies, n - 1, i)
  }

  lemma {:induction false} LaterStart(bodies: seq<Code>, r: nat, n: nat)
    requires r < n <= |bodies|
    ensures PosOf(bodies, r) + |bodies[r]| < PosOf(bodies, n)
    decreases n
  {
    if r < n - 1 { LaterStart(bodies, r, n - 1); }
  }

  lemma {:induction false} RuleAtStart(bodies: seq<Code>, n: nat, r: nat)
    requires r < n <= |bodies|
    ensures RuleAt(bodies, n, PosOf(bodies, r)) == r
    decreases n
  {
    if r < n - 1 {
      LaterStart(bodies, r, n - 1);
      RuleAtStart(bodies, n - 1, r);
    }
  }

  /** A number above all ranks. */
  function Above(h: seq<nat>): (n: nat)
    ensures forall r {:trigger h[r]} :: 0 <= r < |h| ==> h[r] < n
  {
    if h == [] then 1
    else
      var n := Above(h[..|h| - 1]);
      assert forall r {:trigger h[r]} :: 0 <= r < |h| - 1 ==> h[r] == h[..|h| - 1][r];
      if h[|h| - 1] < n then n else h[|h| - 1] + 1
  }

  function Rank(bodies: seq<Code>, D: Code, h: seq<nat>, top: nat, i: nat): nat
    requires |h| == |bodies| && i <= |D|
  {
    if i == |D| then 0
    else
      match D[i].op
      case Jmp => if D[i].off > 0 then top + 2 + (|D| - i) else top + 1
      case OpenCall(_) => var r := RuleAt(bodies, |bodies|, i); if r >= 0 then h[r] else top
      case _ => 0
  }

  ghost function RanksOf(bodies: seq<Code>, start: nat, h: seq<nat>): (f: seq<nat>)
    requires start < |bodies| && |h| == |bodies|
    ensures |f| == |Draft(bodies, start)| + 1
    ensures forall i {:trigger f[i]} :: 0 <= i < |f| ==> f[i] == Rank(bodies, Draft(bodies, start), h, Above(h), i)
  {
    var D := Draft(bodies, start);
    seq(|D| + 1, i requires 0 <= i <= |D| => Rank(bodies, D, h, Above(h), i))
  }

  /** Every instruction of the draft behind the first two is one of a body, or a return. */
  lemma DraftInstr(bodies: seq<Code>, start: nat, i: nat) returns (r: nat, j: nat)
    requires start < |bodies| && 2 <= i < |Draft(bodies, start)|
    ensures r < |bodies| && i == PosOf(bodies, r) + j && j <= |bodies[r]|
    ensures PosOf(bodies, r) + |bodies[r]| < |Draft(bodies, start)|
    ensures if j < |bodies[r]| then Draft(bodies, start)[i] == bodies[r][j] else Draft(bodies, start)[i].op.Ret?
  {
    r := LaidInstr(bodies, |bodies|, i - 2);
    j := i - PosOf(bodies, r);
    DraftAt(bodies, start, r);
    var D := Draft(bodies, start);
    if j < |bodies[r]| { assert D[PosOf(bodies, r)..PosOf(bodies, r) + |bodies[r]|][j] == D[i]; }
  }

  lemma DraftTarget(bodies: seq<Code>, start: nat, r: nat, j: nat)
    requires start < |bodies| && r < |bodies| && j < |bodies[r]| && AllOk(bodies[r])
    ensures
      var (D, i) := (Draft(bodies, start), PosOf(bodies, r) + j);
      i < |D| && D[i] == bodies[r][j] &&
      (IsJmp(D[i].op) ==> 0 <= i + D[i].off < |D|) && (D[i].op.Jmp? ==> D[i].off > 0 || D[i + D[i].off].op.Test?)
  {
    var c := bodies[r];
    DraftPick(bodies, start, r, j);
    assert InstrOk(c, j);
    if c[j].op.Jmp? && c[j].off <= 0 { DraftPick(bodies, start, r, j + c[j].off); }
  }

  lemma DraftPick(bodies: seq<Code>, start: nat, r: nat, j: nat)
    requires start < |bodies| && r < |bodies| && j < |bodies[r]|
    ensures
      var (D, at) := (Draft(bodies, start), PosOf(bodies, r));
      at + |bodies[r]| < |D| && D[at + j] == bodies[r][j]
  {
    DraftAt(bodies, start, r);
    var (D, at) := (Draft(bodies, start), PosOf(bodies, r));
    assert D[at..at + |bodies[r]|][j] == D[at + j];
  }

  lemma DraftForward(bodies: seq<Code>, start: nat, h: seq<nat>)
    requires start < |bodies| && Fixable(bodies, h)
    ensures Forward(Draft(bodies, start))
  {
    var D := Draft(bodies, start);
    forall i | 0 <= i < |D|
      ensures IsJmp(D[i].op) ==> 0 <= i + D[i].off <= |D|
      ensures IsJmp(D[i].op) && D[i].op.Jmp? ==> ForwardAt(D, i)
    {
      if i >= 2 {
        var r, j := DraftInstr(bodies, start, i);
        if j < |bodies[r]| { DraftTarget(bodies, start, r, j); }
      } else {
        LaterStart(bodies, start, |bodies|);
      }
    }
  }

  /** Ranks fall along the jumps of the draft. */
  lemma JumpFalls(bodies: seq<Code>, start: nat, h: seq<nat>, i: nat)
    requires start < |bodies| && Fixable(bodies, h) && i < |Draft(bodies, start)| && Draft(bodies, start)[i].op.Jmp?
    requires Forward(Draft(bodies, start))
    ensures FallsAt(Draft(bodies, start), RanksOf(bodies, start, h), i)
  {
    var (D, f) := (Draft(bodies, start), RanksOf(bodies, start, h));
    assert ForwardAt(D, i);
    var t := i + D[i].off;
    assert f[t] == Rank(bodies, D, h, Above(h), t) && f[i] == Rank(bodies, D, h, Above(h), i);
  }

  /** The rank of a rule's start is at most the rule's own. */
  lemma StartRank(bodies: seq<Code>, start: nat, h: seq<nat>, r: nat)
    requires start < |bodies| && Fixable(bodies, h) && r < |bodies|
    ensures PosOf(bodies, r) < |Draft(bodies, start)| && RanksOf(bodies, start, h)[PosOf(bodies, r)] <= h[r]
  {
    var (D, f, at) := (Draft(bodies, start), RanksOf(bodies, start, h), PosOf(bodies, r));
    DraftAt(bodies, start, r);
    RuleAtStart(bodies, |bodies|, r);
    assert f[at] == Rank(bodies, D, h, Above(h), at);
    if |bodies[r]| > 0 { assert D[at..at + |bodies[r]|][0] == D[at] == bodies[r][0]; }
  }

  /** A call leads to a rule that is defined. */
  lemma Callee(bodies: seq<Code>, start: nat, h: seq<nat>, i: nat)
    requires start < |bodies| && Fixable(bodies, h) && i < |Draft(bodies, start)| &&
      Draft(bodies, start)[i].op.OpenCall?
    ensures Draft(bodies, start)[i].op.rule < |bodies|
  {
    var r, j := DraftInstr(bodies, start, i);
    assert bodies[r][j].op.rule < |bodies|;
  }

  /** A call has a higher rank than the rule it calls. */
  lemma CallRank(bodies: seq<Code>, start: nat, h: seq<nat>, i: nat, callee: nat)
    requires start < |bodies| && Fixable(bodies, h) && callee < |bodies|
    requires i < |Draft(bodies, start)| && Draft(bodies, start)[i].op == OpenCall(callee)
    ensures h[callee] < RanksOf(bodies, start, h)[i]
  {
    var (D, f) := (Draft(bodies, start), RanksOf(bodies, start, h));
    assert f[i] == Rank(bodies, D, h, Above(h), i);
    var r := RuleAt(bodies, |bodies|, i);
    if r >= 0 {
      DraftAt(bodies, start, r);
      HeadOf(D, i, bodies[r]);
    } else {
      assert h[callee] < Above(h);
    }
  }

  /** A call where a body starts is the body's first instruction. */
  lemma HeadOf(D: Code, at: nat, c: Code)
    requires at + |c| < |D| && D[at..at + |c|] == c && D[at + |c|].op.Ret? && D[at].op.OpenCall?
    ensures |c| > 0 && c[0] == D[at]
  {
  }

  lemma CallFalls(bodies: seq<Code>, start: nat, h: seq<nat>, i: nat)
    requires start < |bodies| && Fixable(bodies, h) && i < |Draft(bodies, start)| &&
      Draft(bodies, start)[i].op.OpenCall?
    ensures
      var (D, f) := (Draft(bodies, start), RanksOf(bodies, start, h));
      D[i].op.rule < |bodies| && PosOf(bodies, D[i].op.rule) < |D| && f[PosOf(bodies, D[i].op.rule)] < f[i]
  {
    Callee(bodies, start, h, i);
    var callee := Draft(bodies, start)[i].op.rule;
    StartRank(bodies, start, h, callee);
    CallRank(bodies, start, h, i, callee);
  }

  lemma DraftSettles(bodies: seq<Code>, start: nat, h: seq<nat>)
    requires start < |bodies| && Fixable(bodies, h)
    ensures Settles(Draft(bodies, start), RanksOf(bodies, start, h), Positions(bodies)) && Forward(Draft(bodies, start))
  {
    var (D, f, pos) := (Draft(bodies, start), RanksOf(bodies, start, h), Positions(bodies));
    DraftForward(bodies, start, h);
    forall r | 0 <= r < |pos|
      ensures pos[r] < |D|
    {
      StartRank(bodies, start, h, r);
    }
    forall i | 0 <= i < |D| && D[i].op.Jmp?
      ensures FallsAt(D, f, i)
    {
      JumpFalls(bodies, start, h, i);
    }
    forall i | 0 <= i < |D| && D[i].op.OpenCall?
      ensures D[i].op.rule < |pos| && f[pos[D[i].op.rule]] < f[i]
    {
      CallFalls(bodies, start, h, i);
    }
  }

  // ----- fixing a grammar in place -----

  ghost function GrammarCode(bodies: seq<Code>, start: nat, h: seq<nat>): (c: Code)
    requires start < |bodies| && Fixable(bodies, h)
  {
    var (D, f) := (Draft(bodies, start), RanksOf(bodies, start, h));
    DraftSettles(bodies, start, h);
    FixedFalls(D, f, Positions(bodies), |D|);
    OptJumps(Fixed(D, f, Positions(bodies), |D|), f, 0)
  }

  /** Copies a pattern into the array. */
  method AddPattern(a: array<Instr>, at: nat, c: Code)
    requires at + |c| <= a.Length
    modifies a
    ensures a[..] == old(a[..at]) + c + old(a[at + |c|..])
  {
    var i := 0;
    while i < |c|
      invariant 0 <= i <= |c|
      invariant forall k {:trigger a[k]} :: 0 <= k < a.Length ==>
        a[k] == if at <= k < at + i then c[k - at] else old(a[k])
    {
      a[at + i] := c[i];
      i := i + 1;
    }
  }

  /** The position of every rule, and the size of the grammar. */
  method Measure(bodies: seq<Code>) returns (pos: seq<nat>, totalsize: nat)
    ensures pos == Positions(bodies) && totalsize == PosOf(bodies, |bodies|)
  {
    totalsize, pos := 2, [];
    while |pos| < |bodies|
      invariant |pos| <= |bodies| && totalsize == PosOf(bodies, |pos|)
      invariant forall r {:trigger pos[r]} :: 0 <= r < |pos| ==> pos[r] == PosOf(bodies, r)
    {
      var l := |bodies[|pos|]| + 1;
      pos, totalsize := pos + [totalsize], totalsize + l;
    }
  }

  /** Copies a rule and its return into the array. */
  method AddRule(a: array<Instr>, at: nat, c: Code) returns (p: nat)
    requires 2 <= at && at + |c| < a.Length
    modifies a
    ensures p == at + |c| + 1 && a[..2] == old(a[..2]) && a[2..p] == old(a[2..at]) + c + [Instr(Ret, 0)]
  {
    AddPattern(a, at, c);
    p := at + |c|;
    a[p] := Instr(Ret, 0);
    p := p + 1;
    assert a[2..p] == a[2..at] + a[at..at + |c|] + [a[at + |c|]];
  }

  /** Puts all rules, and the initial call and jump, into a new array. */
  method LayOut(bodies: seq<Code>, start: nat) returns (a: array<Instr>, pos: seq<nat>)
    requires start < |bodies|
    ensures fresh(a) && a[..] == Draft(bodies, start) && pos == Positions(bodies)
  {
    var totalsize;
    pos, totalsize := Measure(bodies);
    a := new Instr[totalsize](_ => Instr(Ret, 0));
    Room(bodies, 0);
    var jump := Instr(Jmp, totalsize - 1);
    a[1] := jump;
    var n, p: nat := 0, 2;
    while n < |bodies|
      invariant n <= |bodies| && p == PosOf(bodies, n) <= a.Length
      invariant a[2..p] == Laid(bodies, n) && a[..2][1] == jump
    {
      Room(bodies, n);
      p := AddRule(a, p, bodies[n]);
      n := n + 1;
    }
    a[0] := Instr(Call, pos[start]);
    assert a[..] == [a[0], a[1]] + a[2..p];
  }

  lemma Room(bodies: seq<Code>, n: nat)
    requires n < |bodies|
    ensures PosOf(bodies, n) + |bodies[n]| < PosOf(bodies, |bodies|)
  {
    LaterStart(bodies, n, |bodies|);
  }

  /** Turns the open calls into calls and jumps. */
  method CorrectCalls(a: array<Instr>, ghost f: seq<nat>, pos: seq<nat>)
    requires Settles(a[..], f, pos) && Forward(a[..])
    modifies a
    ensures a[..] == Fixed(old(a[..]), f, pos, a.Length)
  {
    ghost var D := a[..];
    var i := 0;
    assert a[..] == Fixed(D, f, pos, 0);
    while i < a.Length
      invariant 0 <= i <= a.Length && a[..] == Fixed(D, f, pos, i)
    {
      assert a[i] == Fixed(D, f, pos, i)[i] == D[i];
      if a[i].op.OpenCall? {
        var tail := IsTailCall(a, D, f, pos, i);
        a[i] := Instr(if tail then Jmp else Call, pos[a[i].op.rule] - i);
      }
      assert a[i] == FixedInstr(D, f, pos, i);
      FixedNext(D, f, pos, i, a[..]);
      i := i + 1;
    }
  }

  /** Whether the call at `i` leads, through jumps, to a return. */
  method IsTailCall(a: array<Instr>, ghost D: Code, ghost f: seq<nat>, ghost pos: seq<nat>, i: nat) returns (tail: bool)
    requires Settles(D, f, pos) && Forward(D) && i < a.Length == |D| && a[..] == Fixed(D, f, pos, i)
    ensures tail <==> IsRet(D, Target(D, f, i + 1))
  {
    FixedTarget(D, f, pos, i, i + 1);
    var t := FindTarget(a, f, i + 1);
    FixedRet(D, f, pos, i, t);
    tail := t < a.Length && a[t].op.Ret?;
  }

  lemma FixedRet(D: Code, f: seq<nat>, pos: seq<nat>, n: nat, t: nat)
    requires Settles(D, f, pos) && n <= |D|
    ensures IsRet(Fixed(D, f, pos, n), t) == IsRet(D, t)
  {
  }

  lemma FixedNext(D: Code, f: seq<nat>, pos: seq<nat>, i: nat, c: Code)
    requires Settles(D, f, pos) && i < |D| == |c| && c == Fixed(D, f, pos, i)[i := FixedInstr(D, f, pos, i)]
    ensures c == Fixed(D, f, pos, i + 1)
  {
  }

  /** `fix_l`: lays out the rules, fixes the calls and collapses the jumps. */
  method FixGrammar(bodies: seq<Code>, start: nat, ghost h: seq<nat>) returns (a: array<Instr>)
    requires start < |bodies| && Fixable(bodies, h)
    ensures fresh(a) && a[..] == GrammarCode(bodies, start, h)
  {
    var pos;
    a, pos := LayOut(bodies, start);
    FixCalls(a, pos, bodies, start, h);
  }

  /** Fixes the calls of the rules in the array, and collapses the jumps. */
  method FixCalls(a: array<Instr>, pos: seq<nat>, ghost bodies: seq<Code>, ghost start: nat, ghost h: seq<nat>)
    requires start < |bodies| && Fixable(bodies, h) && a[..] == Draft(bodies, start) && pos == Positions(bodies)
    modifies a
    ensures a[..] == GrammarCode(bodies, start, h)
  {
    ghost var (D, f) := (Draft(bodies, start), RanksOf(bodies, start, h));
    DraftSettles(bodies, start, h);
    CorrectCalls(a, f, pos);
    FixedFalls(D, f, pos, |D|);
    OptimizeJumps(a, f);
  }

  // ----- what a match with a grammar returns -----

  /** Wherever the initial rule has a result, at any depth of calls, the fixed grammar runs to it. */
  lemma GrammarRuns(g: seq<Expr>, bodies: seq<Code>, start: nat, h: seq<nat>, subj: seq<Byte>, s: nat, d: nat)
    requires start < |bodies| && Fixable(bodies, h) && Bodies(g, bodies) && s <= |subj|
    requires !RuleOut(Rules(g, subj, d), start, s).Diverge?
    ensures RunsTo(GrammarCode(bodies, start, h), subj, s, RuleOut(Rules(g, subj, d), start, s))
  {
    var (D, f, pos) := (Draft(bodies, start), RanksOf(bodies, start, h), Positions(bodies));
    var o := RuleOut(Rules(g, subj, d), start, s);
    DraftSettles(bodies, start, h);
    FixedFalls(D, f, pos, |D|);
    var P := Fixed(D, f, pos, |D|);
    var ms := RulesTower(g, subj, d);
    DraftHouses(bodies, start);
    RulesWork(g, bodies, D, f, P, ms, d);
    assert RuleWorks(P, subj, pos[start], s, o);
    StartRuns(P, subj, pos[start], s, o);
    OptJumpsReach(Plainly(subj), P, f, 0, Run(0, s, [], []), Final(|P|, [], [], o));
  }

  lemma {:induction false} OptJumpsFalls(c: Code, f: seq<nat>, i: nat)
    requires Falls(c, f)
    ensures Falls(OptJumps(c, f, i), f)
    decreases |c| - i
  {
    if i < |c| {
      if IsJmp(c[i].op) { OptJumpsFalls(Retarget(c, f, i), f, i + 1); } else { OptJumpsFalls(c, f, i + 1); }
    }
  }

  /** The bodies are what the compiler builds for the rules. */
  ghost predicate Compiled(g: seq<Expr>, bodies: seq<Code>) {
    |g| == |bodies| && forall r {:trigger bodies[r]} :: 0 <= r < |g| ==>
      Narrow(g[r]) && Compile(g[r]) == Built(bodies[r])
  }

  /** A grammar that can be fixed: its rules are defined, and its heads fall. */
  ghost predicate GrammarOk(g: seq<Expr>, bodies: seq<Code>, h: seq<nat>) {
    Compiled(g, bodies) && HeadsFall(bodies, h) && RulesDefined(bodies)
  }

  /** Every rule that is called is there. */
  predicate RulesDefined(bodies: seq<Code>) {
    forall r {:trigger bodies[r]} :: 0 <= r < |bodies| ==> Refers(bodies[r], |bodies|)
  }

  lemma CompiledFixable(g: seq<Expr>, bodies: seq<Code>, h: seq<nat>)
    requires GrammarOk(g, bodies, h)
    ensures Fixable(bodies, h) && Bodies(g, bodies)
  {
    CompiledBodies(g, bodies);
  }

  lemma CompiledBodies(g: seq<Expr>, bodies: seq<Code>)
    requires Compiled(g, bodies)
    ensures Bodies(g, bodies)
  {
    forall r | 0 <= r < |bodies|
      ensures WF(bodies[r]) && Correct(bodies[r], g[r])
    {
      var e, c := g[r], bodies[r];
      assert Narrow(e) && Compile(e) == Built(c);
      CompileGood(e);
      GoodBasics(c, e);
    }
  }

  lemma GrammarInRange(bodies: seq<Code>, start: nat, h: seq<nat>)
    requires start < |bodies| && Fixable(bodies, h)
    ensures InRange(GrammarCode(bodies, start, h))
  {
    var (D, f, pos) := (Draft(bodies, start), RanksOf(bodies, start, h), Positions(bodies));
    DraftSettles(bodies, start, h);
    FixedFalls(D, f, pos, |D|);
    OptJumpsFalls(Fixed(D, f, pos, |D|), f, 0);
  }

  /** Where the initial rule has a result, the run stops. */
  lemma GrammarStops(g: seq<Expr>, bodies: seq<Code>, start: nat, h: seq<nat>, subj: seq<Byte>, s: nat, d: nat)
    returns (k: nat)
    requires start < |bodies| && Fixable(bodies, h) && Bodies(g, bodies) && s <= |subj|
    requires !RuleOut(Rules(g, subj, d), start, s).Diverge?
    ensures Stops(GrammarCode(bodies, start, h), subj, s, k)
    ensures Halted(GrammarCode(bodies, start, h), StateAt(GrammarCode(bodies, start, h), subj, s, k))
    ensures ReportOf(StateAt(GrammarCode(bodies, start, h), subj, s, k)) ==
      ResultOf(RuleOut(Rules(g, subj, d), start, s))
  {
    GrammarRuns(g, bodies, start, h, subj, s, d);
    var fin;
    fin, k := EndOfRun(GrammarCode(bodies, start, h), subj, s, RuleOut(Rules(g, subj, d), start, s));
  }

  /** A run that stops without outgrowing the stack stops in one way. */
  lemma StopsOnce(code: Code, subj: seq<Byte>, s: nat, k: nat, k': nat)
    requires Stops(code, subj, s, k) && !TooDeep(code, subj, s) && Halted(code, StateAt(code, subj, s, k'))
    ensures StateAt(code, subj, s, k) == StateAt(code, subj, s, k')
  {
    var (m, st) := (Real(subj, map[]), Run(0, s, [], []));
    assert Depth(Iter(m, code, 0, st, k)) < MAXBACK;
    Deterministic(m, code, 0, st, StateAt(code, subj, s, k), StateAt(code, subj, s, k'));
  }

  /** A match with a grammar returns whenever its run ends or outgrows the stack.  It reports the overflow exactly
      when the run needs more than `MAXBACK` entries, and otherwise the result of the initial rule, at whatever
      depth of calls that is found. */
  method MatchGrammar(g: seq<Expr>, bodies: seq<Code>, start: nat, subj: seq<Byte>, s: nat, ghost h: seq<nat>,
                      ghost k: nat)
    returns (r: MatchResult)
    requires GrammarOk(g, bodies, h) && Fixable(bodies, h) && start < |bodies| && s <= |subj|
    requires Stops(GrammarCode(bodies, start, h), subj, s, k)
    ensures r.TooManyPending? <==> TooDeep(GrammarCode(bodies, start, h), subj, s)
    ensures !r.TooManyPending? ==> r == ReportOf(StateAt(GrammarCode(bodies, start, h), subj, s, k))
    ensures !r.TooManyPending? ==>
      forall d: nat {:trigger Rules(g, subj, d)} ::
        !RuleOut(Rules(g, subj, d), start, s).Diverge? ==> r == ResultOf(RuleOut(Rules(g, subj, d), start, s))
  {
    CompiledFixable(g, bodies, h);
    var a := FixGrammar(bodies, start, h);
    GrammarInRange(bodies, start, h);
    r := Match(a[..], subj, s, k);
    if !r.TooManyPending? {
      forall d: nat | !RuleOut(Rules(g, subj, d), start, s).Diverge?
        ensures r == ResultOf(RuleOut(Rules(g, subj, d), start, s))
      {
        var k' := GrammarStops(g, bodies, start, h, subj, s, d);
        StopsOnce(GrammarCode(bodies, start, h), subj, s, k, k');
      }
    }
  }

  // ----- what holds in every state of such a match -----

  lemma {:induction false} OptJumpsOp(c: Code, f: seq<nat>, i: nat, k: nat)
    requires Falls(c, f) && k < |c|
    ensures OptJumps(c, f, i)[k].op == c[k].op
    decreases |c| - i
  {
    if i < |c| {
      if IsJmp(c[i].op) { OptJumpsOp(Retarget(c, f, i), f, i + 1, k); } else { OptJumpsOp(c, f, i + 1, k); }
    }
  }

  lemma GrammarOffsets(bodies: seq<Code>, start: nat, h: seq<nat>)
    requires start < |bodies| && Fixable(bodies, h)
    ensures SmallOffsets(GrammarCode(bodies, start, h))
  {
    var (D, f, pos) := (Draft(bodies, start), RanksOf(bodies, start, h), Positions(bodies));
    DraftSettles(bodies, start, h);
    FixedFalls(D, f, pos, |D|);
    var c := GrammarCode(bodies, start, h);
    forall i | 0 <= i < |c| && c[i].op.Cap?
      ensures c[i].op.n <= MAXOFF
    {
      OptJumpsOp(Fixed(D, f, pos, |D|), f, 0, i);
      assert D[i].op == c[i].op;
      var r, j := DraftInstr(bodies, start, i);
      assert InstrOk(bodies[r], j);
    }
  }

  /** Over all runs of a grammar whose initial rule has a result no assertion of the machine fails, reads stay in
      the subject, capture lists stay well nested, and the run ends with an empty stack. */
  lemma GrammarSafe(g: seq<Expr>, bodies: seq<Code>, start: nat, h: seq<nat>, subj: seq<Byte>, s: nat, d: nat, n: nat)
    requires start < |bodies| && Fixable(bodies, h) && Bodies(g, bodies) && s <= |subj|
    requires !RuleOut(Rules(g, subj, d), start, s).Diverge?
    ensures
      var c := GrammarCode(bodies, start, h);
      var st := StateAt(c, subj, s, n);
      Sound(Real(subj, map[]), st) && (Halted(c, st) ==> st.stk == [])
  {
    GrammarRuns(g, bodies, start, h, subj, s, d);
    GrammarOffsets(bodies, start, h);
    CodeSafe(GrammarCode(bodies, start, h), subj, s, RuleOut(Rules(g, subj, d), start, s), n);
  }
}
