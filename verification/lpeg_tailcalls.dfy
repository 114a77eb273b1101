/** Tail calls: a grammar whose tail calls are jumps against the same grammar with all its calls left as calls.
    Every run ends in the same way, on a stack that is never higher; only where calls outgrow the stack may
    jumps do something else. */
module LpegTailCalls {
  import opened LpegCode
  import opened LpegSemantics
  import opened LpegMachine
  import opened LpegCompile
  import opened LpegInvariant
  import opened LpegMatch
  import opened LpegHeights
  import opened LpegStack
  import opened LpegGrammar
  import opened LpegFix
  import opened LpegRules
  import opened LpegGrammarStack

  // ----- the grammar with calls -----

  /** The draft with every open call as a call. */
  function Calls(D: Code, ghost f: seq<nat>, pos: seq<nat>): (K: Code)
    requires Settles(D, f, pos)
    ensures |K| == |D|
    ensures forall i {:trigger K[i]} :: 0 <= i < |D| ==>
      K[i] == if D[i].op.OpenCall? then Instr(Call, pos[D[i].op.rule] - i) else D[i]
  {
    seq(|D|, i requires 0 <= i < |D| => if D[i].op.OpenCall? then Instr(Call, pos[D[i].op.rule] - i) else D[i])
  }

  /** The addresses from which jumps lead to a return. */
  ghost function Tails(D: Code, f: seq<nat>): (ts: set<int>)
    requires Falls(D, f)
    ensures forall q {:trigger q in ts} :: q in ts <==> 0 <= q <= |D| && IsRet(D, Target(D, f, q))
  {
    set q | 0 <= q <= |D| && IsRet(D, Target(D, f, q))
  }

  /** What the machine needs of the two grammars: they differ only at calls to the same rule, and where one has a
      jump, the other's call returns to a tail. */
  ghost predicate Twins(K: Code, P: Code, f: seq<nat>, ts: set<int>) {
    && |K| == |P| && |f| == |K| + 1
    && (forall i {:trigger TwinAt(K, P, f, ts, i)} :: 0 <= i < |K| ==> TwinAt(K, P, f, ts, i))
    && (forall q {:trigger q in ts} :: q in ts ==> 0 <= q < |K| && TailAt(K, f, ts, q))
  }

  ghost predicate TwinAt(K: Code, P: Code, f: seq<nat>, ts: set<int>, i: nat)
    requires i < |K| == |P|
  {
    P[i] == K[i] || (K[i].op.Call? && i + 1 in ts && P[i] == Instr(Jmp, K[i].off))
  }

  /** A tail is a return, or a jump to a tail of lower rank. */
  predicate TailAt(K: Code, f: seq<nat>, ts: set<int>, q: int)
    requires 0 <= q < |K| && |f| == |K| + 1
  {
    K[q].op.Ret? || (K[q].op.Jmp? && var t := q + K[q].off; t in ts && 0 <= t < |f| && f[t] < f[q])
  }

  lemma FixedTwins(D: Code, f: seq<nat>, pos: seq<nat>)
    requires Settles(D, f, pos)
    ensures Twins(Calls(D, f, pos), Fixed(D, f, pos, |D|), f, Tails(D, f))
  {
    var (K, P, ts) := (Calls(D, f, pos), Fixed(D, f, pos, |D|), Tails(D, f));
    forall i | 0 <= i < |K|
      ensures TwinAt(K, P, f, ts, i)
    {
      assert P[i] == FixedInstr(D, f, pos, i);
    }
    forall q | q in ts
      ensures 0 <= q < |K| && TailAt(K, f, ts, q)
    {
      if q < |D| && D[q].op.Jmp? { assert FallsAt(D, f, q); }
    }
  }

  // ----- stacks and states -----

  /** `b` is `a` without some return addresses that are tails. */
  predicate Thin(ts: set<int>, a: seq<Frame>, b: seq<Frame>)
    decreases a
  {
    if a == [] then b == []
    else
      (b != [] && a[0] == b[0] && Thin(ts, a[1..], b[1..])) ||
      (a[0].RetTo? && a[0].p in ts && Thin(ts, a[1..], b))
  }

  lemma {:induction false} ThinDepth(ts: set<int>, a: seq<Frame>, b: seq<Frame>)
    requires Thin(ts, a, b)
    ensures |b| <= |a|
    decreases a
  {
    if a != [] {
      if b != [] && a[0] == b[0] && Thin(ts, a[1..], b[1..]) {
        ThinDepth(ts, a[1..], b[1..]);
      } else {
        ThinDepth(ts, a[1..], b);
      }
    }
  }

  lemma {:induction false} ThinProt(ts: set<int>, k: nat, a: seq<Frame>, b: seq<Frame>)
    requires Thin(ts, a, b)
    ensures Prot(k, a) == Prot(k, b)
    decreases a
  {
    if a != [] {
      if b != [] && a[0] == b[0] && Thin(ts, a[1..], b[1..]) {
        ThinProt(ts, k, a[1..], b[1..]);
      } else {
        ThinProt(ts, k, a[1..], b);
      }
    }
  }

  lemma ThinPush(ts: set<int>, fr: Frame, a: seq<Frame>, b: seq<Frame>)
    requires Thin(ts, a, b)
    ensures Thin(ts, [fr] + a, [fr] + b)
    ensures fr.RetTo? && fr.p in ts ==> Thin(ts, [fr] + a, b)
  {
    assert ([fr] + a)[1..] == a && ([fr] + b)[1..] == b;
  }

  /** The grammar with calls is in `a` when the other is in `b`: at the same place, or still on its way through
      returns where the other has only one to do. */
  predicate Rel(P: Code, ts: set<int>, a: State, b: State) {
    match a
    case Run(p, s, stk, caps) =>
      b.Run? && b.s == s && b.caps == caps && Thin(ts, stk, b.stk) && (p == b.p || (p in ts && IsRet(P, b.p)))
    case Failing(stk) => b.Failing? && Thin(ts, stk, b.stk)
    case Stuck => b.Stuck?
  }

  /** `a1` is nearer to the end of a chain of returns than `a`. */
  predicate Nearer(f: seq<nat>, a1: State, a: State) {
    !a1.Stuck? && !a.Stuck? &&
    (|a1.stk| < |a.stk| ||
     (|a1.stk| == |a.stk| && a1.Run? && a.Run? && 0 <= a1.p < |f| && 0 <= a.p < |f| && f[a1.p] < f[a.p]))
  }

  function Minor(f: seq<nat>, a: State): nat {
    if a.Run? && 0 <= a.p < |f| then f[a.p] else 0
  }

  // ----- one step -----

  /** An instruction that both have, on stacks that fit it. */
  lemma SameStackOp(P: Code, ts: set<int>, m: Mode, op: Op, next: int, dest: int, s: int, x: seq<Frame>,
                    y: seq<Frame>, caps: seq<Capture>)
    requires m.Real? && IsStackOp(op) && !op.Ret? && Thin(ts, x, y)
    requires !op.Choice? && !op.Call? ==> x != [] && x[0].Back?
    ensures Rel(P, ts, OnStack(m, op, next, dest, s, x, caps), OnStack(m, op, next, dest, s, y, caps))
  {
    if op.Choice? {
      ThinPush(ts, Back(dest, s - op.aux, caps), x, y);
    } else if op.Call? {
      ThinPush(ts, RetTo(next), x, y);
    } else if op.PartialCommit? {
      ThinPush(ts, Back(x[0].p, s, caps), x[1..], y[1..]);
    }
  }

  lemma SameOp(P: Code, ts: set<int>, m: Mode, c: Code, c': Code, a: State, b: State)
    requires m.Real? && |c'| == |c| && a.Run? && b.Run? && a.p == b.p && 0 <= a.p < |c| && c'[a.p] == c[a.p]
    requires Rel(P, ts, a, b) && !c[a.p].op.Ret?
    requires var op := c[a.p].op; IsStackOp(op) && !op.Choice? && !op.Call? ==> a.stk != [] && a.stk[0].Back?
    ensures Rel(P, ts, Step(m, c, 0, a), Step(m, c', 0, b))
  {
    var op := c[a.p].op;
    if IsStackOp(op) {
      SameStackOp(P, ts, m, op, a.p + 1, a.p + c[a.p].off, a.s, a.stk, b.stk, a.caps);
    } else {
      ThinProt(ts, 0, a.stk, b.stk);
    }
  }

  /** A call that is a jump on the other side. */
  lemma CallOrJump(P: Code, ts: set<int>, m: Mode, K: Code, a: State, b: State)
    requires a.Run? && b.Run? && a.p == b.p && 0 <= a.p < |K| == |P| && Rel(P, ts, a, b)
    requires K[a.p].op.Call? && P[a.p] == Instr(Jmp, K[a.p].off) && a.p + 1 in ts
    ensures Rel(P, ts, Step(m, K, 0, a), Step(m, P, 0, b))
  {
    ThinPush(ts, RetTo(a.p + 1), a.stk, b.stk);
  }

  /** A return, or a jump on the way to one, while the other is at a return. */
  lemma OnTheWay(K: Code, P: Code, f: seq<nat>, ts: set<int>, m: Mode, a: State, b: State)
    requires Twins(K, P, f, ts) && a.Run? && b.Run? && 0 <= a.p < |K| && IsRet(P, b.p) && Rel(P, ts, a, b)
    requires K[a.p].op.Ret? || a.p in ts
    requires K[a.p].op.Ret? ==> a.stk != [] && a.stk[0].RetTo?
    ensures
      || Rel(P, ts, Step(m, K, 0, a), Step(m, P, 0, b))
      || (Rel(P, ts, Step(m, K, 0, a), b) && Nearer(f, Step(m, K, 0, a), a))
  {
    if K[a.p].op.Ret? {
      if a.stk[0].p in ts && Thin(ts, a.stk[1..], b.stk) {
      } else {
        assert b.stk[0] == a.stk[0];
      }
    } else {
      assert TailAt(K, f, ts, a.p);
    }
  }

  lemma StepFailing(P: Code, f: seq<nat>, ts: set<int>, m: Mode, K: Code, a: State, b: State)
    requires a.Failing? && a.stk != [] && Rel(P, ts, a, b)
    ensures
      || (b.stk != [] && Rel(P, ts, Step(m, K, 0, a), Step(m, P, 0, b)))
      || (Rel(P, ts, Step(m, K, 0, a), b) && Nearer(f, Step(m, K, 0, a), a))
  {
  }

  /** One step with calls is one step with jumps, or brings a chain of returns nearer to its end. */
  lemma SimStep(K: Code, P: Code, f: seq<nat>, ts: set<int>, m: Mode, a: State, b: State)
    requires Twins(K, P, f, ts) && m.Real? && Rel(P, ts, a, b) && !Halted(K, a) && Ready(K, ConfigOf(a))
    ensures
      || (!Halted(P, b) && Rel(P, ts, Step(m, K, 0, a), Step(m, P, 0, b)))
      || (Rel(P, ts, Step(m, K, 0, a), b) && Nearer(f, Step(m, K, 0, a), a))
  {
    if a.Failing? {
      StepFailing(P, f, ts, m, K, a, b);
    } else {
      assert |SlotsOf(a.stk)| == |a.stk|;
      assert TwinAt(K, P, f, ts, a.p);
      if a.p != b.p || K[a.p].op.Ret? {
        OnTheWay(K, P, f, ts, m, a, b);
      } else if P[a.p] == K[a.p] {
        SameOp(P, ts, m, K, P, a, b);
      } else {
        CallOrJump(P, ts, m, K, a, b);
      }
    }
  }

  // ----- whole runs -----

  /** Where the run with calls has ended, so has the other, in the same state. */
  lemma EndsSame(K: Code, P: Code, f: seq<nat>, ts: set<int>, h: seq<nat>, main: seq<bool>, a: State, b: State)
    requires Twins(K, P, f, ts) && Program(K, h, main) && FitsState(h, main, a) && Rel(P, ts, a, b) && Halted(K, a)
    ensures b == a && Halted(P, b)
  {
    EndFits(K, h, main, a);
  }

  lemma {:induction false} CallsRun(K: Code, P: Code, f: seq<nat>, ts: set<int>, h: seq<nat>, main: seq<bool>,
                                    m: Mode, a: State, b: State, k: nat, fin: State)
    requires Twins(K, P, f, ts) && Program(K, h, main) && m.Real? && FitsState(h, main, a) && Rel(P, ts, a, b)
    requires Iter(m, K, 0, a, k) == fin && Halted(K, fin)
    ensures Reach(m, P, 0, b, fin)
    decreases k
  {
    if Halted(K, a) {
      IterHalted(m, K, 0, a, k);
      EndsSame(K, P, f, ts, h, main, a, b);
      Stay(m, P, 0, b);
    } else {
      var a1 := Step(m, K, 0, a);
      FitsReady(K, h, main, ConfigOf(a));
      StepFits(K, h, main, m, 0, a);
      SimStep(K, P, f, ts, m, a, b);
      if Rel(P, ts, a1, b) {
        CallsRun(K, P, f, ts, h, main, m, a1, b, k - 1, fin);
      } else {
        CallsRun(K, P, f, ts, h, main, m, a1, Step(m, P, 0, b), k - 1, fin);
        TickChain(m, P, 0, b, fin);
      }
    }
  }

  /** Every state of the run with jumps stands for a state of the run with calls. */
  lemma {:induction false} JumpsVisit(K: Code, P: Code, f: seq<nat>, ts: set<int>, h: seq<nat>, main: seq<bool>,
                                      m: Mode, a: State, b: State, n: nat) returns (k: nat)
    requires Twins(K, P, f, ts) && Program(K, h, main) && m.Real? && FitsState(h, main, a) && Rel(P, ts, a, b)
    ensures Rel(P, ts, Iter(m, K, 0, a, k), Iter(m, P, 0, b, n))
    ensures Halted(P, Iter(m, P, 0, b, n)) ==> Halted(K, Iter(m, K, 0, a, k))
    decreases n, Depth(a), Minor(f, a)
  {
    if Halted(K, a) {
      EndsSame(K, P, f, ts, h, main, a, b);
      IterHalted(m, P, 0, b, n);
      k := 0;
    } else if n == 0 && !Halted(P, b) {
      k := 0;
    } else {
      var a1 := Step(m, K, 0, a);
      FitsReady(K, h, main, ConfigOf(a));
      StepFits(K, h, main, m, 0, a);
      SimStep(K, P, f, ts, m, a, b);
      if Rel(P, ts, a1, b) && Nearer(f, a1, a) {
        k := JumpsVisit(K, P, f, ts, h, main, m, a1, b, n);
      } else {
        k := JumpsVisit(K, P, f, ts, h, main, m, a1, Step(m, P, 0, b), n - 1);
      }
      k := k + 1;
    }
  }

  /** Both grammars end every run in the same way, and both go on for ever where one does. */
  lemma TwinsEnd(K: Code, P: Code, f: seq<nat>, ts: set<int>, h: seq<nat>, main: seq<bool>, m: Mode, s: int, fin: State)
    requires Twins(K, P, f, ts) && Program(K, h, main) && m.Real? && Halted(K, fin)
    ensures Reach(m, K, 0, Run(0, s, [], []), fin) <==> Reach(m, P, 0, Run(0, s, [], []), fin)
  {
    var st := Run(0, s, [], []);
    StartFits(K, h, main, s, []);
    if Reach(m, K, 0, st, fin) {
      var k: nat :| Iter(m, K, 0, st, k) == fin;
      CallsRun(K, P, f, ts, h, main, m, st, st, k, fin);
    }
    if Reach(m, P, 0, st, fin) {
      var n: nat :| Iter(m, P, 0, st, n) == fin;
      var k := JumpsVisit(K, P, f, ts, h, main, m, st, st, n);
      IterFits(K, h, main, m, 0, st, k);
      EndsSame(K, P, f, ts, h, main, Iter(m, K, 0, st, k), fin);
    }
  }

  /** Jumps never need more room on the stack than calls. */
  lemma TwinsDeep(K: Code, P: Code, f: seq<nat>, ts: set<int>, h: seq<nat>, main: seq<bool>, m: Mode, s: int, d: nat)
    requires Twins(K, P, f, ts) && Program(K, h, main) && m.Real? && Grows(m, P, 0, Run(0, s, [], []), d)
    ensures Grows(m, K, 0, Run(0, s, [], []), d)
  {
    var st := Run(0, s, [], []);
    StartFits(K, h, main, s, []);
    var n: nat :| Depth(Iter(m, P, 0, st, n)) >= d;
    var k := JumpsVisit(K, P, f, ts, h, main, m, st, st, n);
    var (x, y) := (Iter(m, K, 0, st, k), Iter(m, P, 0, st, n));
    if !x.Stuck? { ThinDepth(ts, x.stk, y.stk); }
    assert Depth(x) >= d;
  }

  // ----- grammars -----

  /** The grammar before its calls in tail position become jumps and its chains of jumps are collapsed. */
  ghost function CallCode(bodies: seq<Code>, start: nat, rank: seq<nat>): (K: Code)
    requires start < |bodies| && Fixable(bodies, rank)
  {
    DraftSettles(bodies, start, rank);
    Calls(Draft(bodies, start), RanksOf(bodies, start, rank), Positions(bodies))
  }

  lemma CallsProgram(D: Code, h: seq<nat>, main: seq<bool>, f: seq<nat>, pos: seq<nat>)
    requires Program(D, h, main) && Settles(D, f, pos) && AtZero(h, main, pos)
    ensures Program(Calls(D, f, pos), h, main)
  {
    var K := Calls(D, f, pos);
    forall i | 0 <= i < |K|
      ensures PlacedAt(K, h, main, i)
    {
      assert PlacedAt(D, h, main, i);
    }
  }

  lemma CallCodeProgram(bodies: seq<Code>, start: nat, rank: seq<nat>, hs: seq<seq<nat>>)
    requires AllLeveled(bodies, hs) && start < |bodies| && Fixable(bodies, rank)
    ensures Program(CallCode(bodies, start, rank), GrammarHeights(hs), GrammarMain(|Draft(bodies, start)|))
  {
    var (D, pos) := (Draft(bodies, start), Positions(bodies));
    DraftSettles(bodies, start, rank);
    DraftProgram(bodies, start, hs);
    RulesAtZero(bodies, start, hs);
    CallsProgram(D, GrammarHeights(hs), GrammarMain(|D|), RanksOf(bodies, start, rank), pos);
  }

  /** Heights for the grammar in both forms. */
  lemma BothPrograms(g: seq<Expr>, bodies: seq<Code>, start: nat, rank: seq<nat>) returns (h: seq<nat>, main: seq<bool>)
    requires GrammarOk(g, bodies, rank) && start < |bodies| && Fixable(bodies, rank)
    ensures Program(CallCode(bodies, start, rank), h, main) && Program(GrammarCode(bodies, start, rank), h, main)
  {
    var hs := BodyHeights(g, bodies, |bodies|);
    h, main := GrammarHeights(hs), GrammarMain(|Draft(bodies, start)|);
    CallCodeProgram(bodies, start, rank, hs);
    GrammarProgram(bodies, start, rank, hs);
  }

  /** No run comes to an end with something pending. */
  lemma NoOtherEnd(P: Code, h: seq<nat>, main: seq<bool>, m: Mode, s: int, fin: State)
    requires Program(P, h, main) && m.Real? && Halted(P, fin) && !fin.Stuck? && fin.stk != []
    ensures !Reach(m, P, 0, Run(0, s, [], []), fin)
  {
    var st := Run(0, s, [], []);
    forall k: nat
      ensures Iter(m, P, 0, st, k) != fin
    {
      StartFits(P, h, main, s, []);
      IterFits(P, h, main, m, 0, st, k);
      if Iter(m, P, 0, st, k) == fin { EndFits(P, h, main, fin); }
    }
  }

  /** `fix_l` keeps how every run ends, whatever the rules say and whether they have a result or not; so it keeps
      also which runs do not end. */
  lemma TailCallsEnd(g: seq<Expr>, bodies: seq<Code>, start: nat, rank: seq<nat>, subj: seq<Byte>, s: int, fin: State)
    requires GrammarOk(g, bodies, rank) && start < |bodies| && Fixable(bodies, rank)
    requires Halted(GrammarCode(bodies, start, rank), fin)
    ensures
      Reach(Plainly(subj), CallCode(bodies, start, rank), 0, Run(0, s, [], []), fin) <==>
      Reach(Plainly(subj), GrammarCode(bodies, start, rank), 0, Run(0, s, [], []), fin)
  {
    var (D, f, pos) := (Draft(bodies, start), RanksOf(bodies, start, rank), Positions(bodies));
    DraftSettles(bodies, start, rank);
    FixedFalls(D, f, pos, |D|);
    FixedTwins(D, f, pos);
    var (K, P, m) := (Calls(D, f, pos), Fixed(D, f, pos, |D|), Plainly(subj));
    var h, main := BothPrograms(g, bodies, start, rank);
    if !fin.Stuck? && fin.stk != [] {
      NoOtherEnd(K, h, main, m, s, fin);
      NoOtherEnd(GrammarCode(bodies, start, rank), h, main, m, s, fin);
    } else {
      TwinsEnd(K, P, f, Tails(D, f), h, main, m, s, fin);
      OptJumpsReach(m, P, f, 0, Run(0, s, [], []), fin);
    }
  }

  /** The fixed grammar outgrows the stack only where the grammar with calls does. */
  lemma TailCallsDeep(g: seq<Expr>, bodies: seq<Code>, start: nat, rank: seq<nat>, subj: seq<Byte>, s: int)
    requires GrammarOk(g, bodies, rank) && start < |bodies| && Fixable(bodies, rank)
    ensures TooDeep(GrammarCode(bodies, start, rank), subj, s) ==> TooDeep(CallCode(bodies, start, rank), subj, s)
  {
    var (D, f, pos) := (Draft(bodies, start), RanksOf(bodies, start, rank), Positions(bodies));
    DraftSettles(bodies, start, rank);
    FixedFalls(D, f, pos, |D|);
    FixedTwins(D, f, pos);
    var (P, m) := (Fixed(D, f, pos, |D|), Plainly(subj));
    var h, main := BothPrograms(g, bodies, start, rank);
    OptJumpsReach(m, P, f, 0, Run(0, s, [], []), Stuck);
    if TooDeep(GrammarCode(bodies, start, rank), subj, s) {
      TwinsDeep(Calls(D, f, pos), P, f, Tails(D, f), h, main, m, s, MAXBACK);
    }
  }

  // ----- what a match reports -----

  /** `match` returns `r`; where it goes on for ever it returns nothing. */
  ghost predicate Reports(code: Code, subj: seq<Byte>, s: int, r: MatchResult) {
    if TooDeep(code, subj, s) then r == TooManyPending
    else exists fin: State {:trigger ReportOf(fin)} ::
      Halted(code, fin) && !fin.Stuck? && r == ReportOf(fin) && Reach(Plainly(subj), code, 0, Run(0, s, [], []), fin)
  }

  /** Exactly when tail calls as jumps can be told from calls: when the calls outgrow the stack and the jumps do
      not.  In all other cases both matches return the same, or neither returns. */
  lemma TailCallsReport(g: seq<Expr>, bodies: seq<Code>, start: nat, rank: seq<nat>, subj: seq<Byte>, s: int)
    requires GrammarOk(g, bodies, rank) && start < |bodies| && Fixable(bodies, rank)
    ensures
      var (K, Q) := (CallCode(bodies, start, rank), GrammarCode(bodies, start, rank));
      (forall r :: Reports(K, subj, s, r) <==> Reports(Q, subj, s, r)) <==>
      !(TooDeep(K, subj, s) && !TooDeep(Q, subj, s))
  {
    var (K, Q) := (CallCode(bodies, start, rank), GrammarCode(bodies, start, rank));
    TailCallsDeep(g, bodies, start, rank, subj, s);
    if TooDeep(K, subj, s) && !TooDeep(Q, subj, s) {
      assert Reports(K, subj, s, TooManyPending) && !Reports(Q, subj, s, TooManyPending);
    } else if !TooDeep(K, subj, s) {
      forall r
        ensures Reports(K, subj, s, r) <==> Reports(Q, subj, s, r)
      {
        SameReport(g, bodies, start, rank, subj, s, r);
      }
    }
  }

  lemma SameReport(g: seq<Expr>, bodies: seq<Code>, start: nat, rank: seq<nat>, subj: seq<Byte>, s: int, r: MatchResult)
    requires GrammarOk(g, bodies, rank) && start < |bodies| && Fixable(bodies, rank)
    requires !TooDeep(CallCode(bodies, start, rank), subj, s) && !TooDeep(GrammarCode(bodies, start, rank), subj, s)
    ensures
      Reports(CallCode(bodies, start, rank), subj, s, r) <==> Reports(GrammarCode(bodies, start, rank), subj, s, r)
  {
    var (K, Q, m) := (CallCode(bodies, start, rank), GrammarCode(bodies, start, rank), Plainly(subj));
    forall fin: State | Halted(Q, fin)
      ensures Reach(m, K, 0, Run(0, s, [], []), fin) <==> Reach(m, Q, 0, Run(0, s, [], []), fin)
    {
      TailCallsEnd(g, bodies, start, rank, subj, s, fin);
    }
    assert |K| == |Q|;
  }
}
