/** The check of a grammar's rules before they are fixed: `verify` with the table of positions, as `checkrule` calls
    it for a whole rule (lib/lpeg.c:646-776).  Its answer is the rule's meaning to the verifier. */
module LpegCheckRule {
  import opened LpegCode
  import opened LpegSemantics
  import opened LpegMachine
  import opened LpegBehaviour
  import opened LpegCompile
  import opened LpegInvariant
  import opened LpegVerify
  import opened LpegCompiler
  import opened LpegGrammar
  import opened LpegFix
  import opened LpegRules
  import opened LpegTable

  datatype Finding =
    | Fails          // the code fails on the empty subject
    | MatchesEmpty   // it may succeed without consuming anything
    | LeftRecursive
    | Unexpected     // an assertion of the verifier fails, or a rule is not defined

  /** The verifier at an instruction, with its stack, newest slot first; or its answer. */
  datatype Check = Going(p: int, back: seq<Slot>) | Ended(finding: Finding)

  /** Backtracking drops return addresses and takes the newest choice. */
  function Backtracked(back: seq<Slot>): Check {
    if back == [] then Ended(Fails)
    else if back[0].pending then Going(back[0].p, back[1..])
    else Backtracked(back[1..])
  }

  /** A call from the same place is still pending. */
  predicate Pending(back: seq<Slot>, ret: int) {
    exists i :: 0 <= i < |back| && back[i] == Slot(ret, false)
  }

  /** One instruction of the verifier: every check fails, every test jumps, predicates are taken to succeed, open
      calls enter their rules, and loops are left at their end. */
  function CheckOp(ins: Instr, pos: seq<nat>, p: int, back: seq<Slot>): Check {
    var dest := p + ins.off;
    match ins.op
    case Check(_) => Backtracked(back)
    case FailTwice => Backtracked(back)
    case Fail(pred) => if pred then Going(p + 1, back) else Backtracked(back)
    case Test(_) => Going(dest, back)
    case Jmp => Going(dest, back)
    case Span(_, _) => Going(p + 1, back)
    case Cap(_, _, _, _) => Going(p + 1, back)
    case Choice(_) => Going(p + 1, [Slot(dest, true)] + back)
    case Call => Going(dest, [Slot(p + 1, false)] + back)
    case OpenCall(rule) =>
      if Pending(back, p + 1) then Ended(LeftRecursive)
      else if rule < |pos| then Going(pos[rule], [Slot(p + 1, false)] + back)
      else Ended(Unexpected)
    case Ret => if back == [] then Ended(Unexpected) else Going(back[0].p, back[1..])
    case Commit => if back == [] then Ended(Unexpected) else Going(dest, back[1..])
    case BackCommit => if back == [] then Ended(Unexpected) else Going(dest, back[1..])
    case PartialCommit =>
      if back == [] then Ended(Unexpected)
      else if ins.off > 0 then Going(dest, back)
      else Going(p + 1, back[1..])
  }

  /** One step of a check that stops at address `e`. */
  function CheckStep(D: Code, pos: seq<nat>, e: int, c: Check): Check {
    if c.Ended? then c
    else if c.p == e then Ended(MatchesEmpty)
    else if !(0 <= c.p < |D|) then Ended(Unexpected)
    else CheckOp(D[c.p], pos, c.p, c.back)
  }

  ghost function CheckIter(D: Code, pos: seq<nat>, e: int, c: Check, k: nat): Check
    decreases k
  {
    if k == 0 then c else CheckIter(D, pos, e, CheckStep(D, pos, e, c), k - 1)
  }

  ghost predicate Comes(D: Code, pos: seq<nat>, e: int, c: Check, c': Check) {
    exists k: nat :: CheckIter(D, pos, e, c, k) == c'
  }

  lemma {:induction false} CheckEnded(D: Code, pos: seq<nat>, e: int, c: Check, k: nat)
    requires c.Ended?
    ensures CheckIter(D, pos, e, c, k) == c
    decreases k
  {
    if k > 0 { CheckEnded(D, pos, e, c, k - 1); }
  }

  lemma {:induction false} CheckAdd(D: Code, pos: seq<nat>, e: int, c: Check, j: nat, k: nat)
    ensures CheckIter(D, pos, e, c, j + k) == CheckIter(D, pos, e, CheckIter(D, pos, e, c, j), k)
    decreases j
  {
    if j > 0 { CheckAdd(D, pos, e, CheckStep(D, pos, e, c), j - 1, k); }
  }

  lemma ComesHere(D: Code, pos: seq<nat>, e: int, c: Check)
    ensures Comes(D, pos, e, c, c)
  {
    assert CheckIter(D, pos, e, c, 0) == c;
  }

  lemma ComesNext(D: Code, pos: seq<nat>, e: int, c: Check)
    ensures Comes(D, pos, e, c, CheckStep(D, pos, e, c))
  {
    assert CheckIter(D, pos, e, c, 1) == CheckStep(D, pos, e, c);
  }

  lemma ComesOn(D: Code, pos: seq<nat>, e: int, c0: Check, c1: Check, c2: Check)
    requires Comes(D, pos, e, c0, c1) && Comes(D, pos, e, c1, c2)
    ensures Comes(D, pos, e, c0, c2)
  {
    var j: nat :| CheckIter(D, pos, e, c0, j) == c1;
    var k: nat :| CheckIter(D, pos, e, c1, k) == c2;
    CheckAdd(D, pos, e, c0, j, k);
  }

  // ----- one instruction of the verifier is one of the machine -----

  /** The machine's stack without its captures, for code that stands at `at`. */
  function SlotsAt(stk: seq<Frame>, at: int): (r: seq<Slot>)
    ensures |r| == |stk| && forall i {:trigger r[i]} :: 0 <= i < |stk| ==> r[i] == Slot(stk[i].p + at, stk[i].Back?)
  {
    seq(|stk|, i requires 0 <= i < |stk| => Slot(stk[i].p + at, stk[i].Back?))
  }

  /** The state of a body at `at`, above the stack `base`; a failure backtracks at once. */
  function CheckOf(st: State, at: int, base: seq<Slot>): Check
    requires !st.Stuck?
  {
    if st.Run? then Going(st.p + at, SlotsAt(st.stk, at) + base) else Backtracked(SlotsAt(st.stk, at) + base)
  }

  /** But for open calls, every instruction does to the verifier's stack what it does to the machine's, with or
      without the table. */
  lemma OpChecks(m: Mode, b: nat, ins: Instr, pos: seq<nat>, p: int, s: int, stk: seq<Frame>, caps: seq<Capture>,
                 at: int, base: seq<Slot>)
    requires !m.Real? && !ins.op.OpenCall?
    requires !Exec(m, b, ins.op, p + 1, p + ins.off, s, stk, caps).Stuck?
    ensures
      CheckOp(ins, pos, p + at, SlotsAt(stk, at) + base) ==
      CheckOf(Exec(m, b, ins.op, p + 1, p + ins.off, s, stk, caps), at, base)
  {
    if IsStackOp(ins.op) { StackChecks(m, ins, pos, p, s, stk, caps, at, base); }
  }

  lemma StackChecks(m: Mode, ins: Instr, pos: seq<nat>, p: int, s: int, stk: seq<Frame>, caps: seq<Capture>,
                    at: int, base: seq<Slot>)
    requires !m.Real? && IsStackOp(ins.op) && !OnStack(m, ins.op, p + 1, p + ins.off, s, stk, caps).Stuck?
    ensures
      CheckOp(ins, pos, p + at, SlotsAt(stk, at) + base) ==
      CheckOf(OnStack(m, ins.op, p + 1, p + ins.off, s, stk, caps), at, base)
  {
    var op := ins.op;
    if op.Choice? {
      PushChecks(Back(p + ins.off, s - op.aux, caps), stk, at, base);
    } else if op.Call? {
      PushChecks(RetTo(p + 1), stk, at, base);
    } else if !op.FailTwice? {
      PopChecks(stk, at, base);
      if op.PartialCommit? && ins.off > 0 { PushChecks(Back(stk[0].p, s, caps), stk[1..], at, base); }
    }
  }

  lemma PushChecks(f: Frame, stk: seq<Frame>, at: int, base: seq<Slot>)
    ensures SlotsAt([f] + stk, at) + base == [Slot(f.p + at, f.Back?)] + (SlotsAt(stk, at) + base)
  {
  }

  lemma PopChecks(stk: seq<Frame>, at: int, base: seq<Slot>)
    requires stk != []
    ensures
      var back := SlotsAt(stk, at) + base;
      back != [] && back[0] == Slot(stk[0].p + at, stk[0].Back?) && back[1..] == SlotsAt(stk[1..], at) + base
  {
  }

  /** Backtracking step by step is backtracking at once. */
  lemma FailChecks(m: Mode, c: Code, b: nat, st: State, at: int, base: seq<Slot>)
    requires st.Failing? && st.stk != []
    ensures CheckOf(Step(m, c, b, st), at, base) == CheckOf(st, at, base)
  {
    PopChecks(st.stk, at, base);
  }

  // ----- a body inside the grammar -----

  /** The body `c` stands at `at` with a return behind it. */
  predicate BodyIn(D: Code, at: nat, c: Code) {
    at + |c| < |D| && D[at..at + |c|] == c && D[at + |c|].op.Ret? && WF(c)
  }

  /** Every step of a body but an open call is a step of the check, or part of one. */
  lemma StepChecks(D: Code, pos: seq<nat>, e: int, at: nat, c: Code, m: Mode, st: State, base: seq<Slot>)
    requires BodyIn(D, at, c) && IsRet(D, e) && !m.Real?
    requires !Halted(c, st) && !AtCall(c, st) && !Step(m, c, 0, st).Stuck?
    ensures
      CheckOf(Step(m, c, 0, st), at, base) ==
      if st.Run? then CheckStep(D, pos, e, CheckOf(st, at, base)) else CheckOf(st, at, base)
  {
    if st.Run? {
      assert InstrOk(c, st.p) && D[at..at + |c|][st.p] == D[at + st.p] == c[st.p];
      OpChecks(m, 0, c[st.p], pos, st.p, st.s, st.stk, st.caps, at, base);
    } else {
      FailChecks(m, c, 0, st, at, base);
    }
  }

  /** All pending entries are choices. */
  predicate AllBack(st: State) {
    !st.Stuck? && forall i {:trigger st.stk[i]} :: 0 <= i < |st.stk| ==> st.stk[i].Back?
  }

  /** A body makes no calls of its own. */
  lemma StepAllBack(m: Mode, c: Code, st: State)
    requires AllOk(c) && AllBack(st) && !Step(m, c, 0, st).Stuck?
    ensures AllBack(Step(m, c, 0, st))
  {
    if st.Run? && 0 <= st.p < |c| { assert InstrOk(c, st.p); }
  }

  // ----- rules whose meaning is known -----

  /** The bodies of the rules `g`, and the draft `D` they stand in. */
  ghost predicate Drafted(g: seq<Expr>, bodies: seq<Code>, D: Code) {
    Bodies(g, bodies) &&
    forall r {:trigger DraftedAt(bodies, D, r)} :: 0 <= r < |bodies| ==> DraftedAt(bodies, D, r)
  }

  predicate DraftedAt(bodies: seq<Code>, D: Code, r: nat)
    requires r < |bodies|
  {
    BodyIn(D, PosOf(bodies, r), bodies[r]) && Refers(bodies[r], |bodies|)
  }

  function EndOf(bodies: seq<Code>, r: nat): nat
    requires r < |bodies|
  {
    PosOf(bodies, r) + |bodies[r]|
  }

  lemma DraftedBody(g: seq<Expr>, bodies: seq<Code>, D: Code, r: nat)
    requires Drafted(g, bodies, D) && r < |bodies|
    ensures BodyIn(D, PosOf(bodies, r), bodies[r]) && Refers(bodies[r], |bodies|)
  {
    assert DraftedAt(bodies, D, r);
  }

  lemma EndsApart(bodies: seq<Code>, q: nat, r: nat)
    requires q < |bodies| && r < |bodies| && q != r
    ensures EndOf(bodies, q) != EndOf(bodies, r)
  {
    if q < r { LaterStart(bodies, q, r); } else { LaterStart(bodies, r, q); }
  }

  /** The pending calls are to rules about which `m` knows nothing. */
  predicate UnknownCalls(D: Code, back: seq<Slot>, m: Mode) {
    m.Table? && forall i {:trigger back[i]} :: 0 <= i < |back| && !back[i].pending ==> UnknownCall(D, back[i].p, m)
  }

  predicate UnknownCall(D: Code, ret: int, m: Mode)
    requires m.Table?
  {
    0 < ret <= |D| && D[ret - 1].op.OpenCall? && D[ret - 1].op.rule !in m.empties
  }

  lemma FewerKnown(D: Code, back: seq<Slot>, m: Mode, m': Mode)
    requires UnknownCalls(D, back, m') && Wider(m, m')
    ensures UnknownCalls(D, back, m)
  {
    forall i | 0 <= i < |back| && !back[i].pending
      ensures UnknownCall(D, back[i].p, m)
    {
      assert UnknownCall(D, back[i].p, m');
    }
  }

  /** Where the check stands when rule `q` is done. */
  function Done(bodies: seq<Code>, q: nat, empty: bool, base: seq<Slot>): Check
    requires q < |bodies|
  {
    if empty then Going(EndOf(bodies, q), base) else Backtracked(base)
  }

  /** A call to a rule that is known comes back behind itself, or backtracks. */
  lemma CallChecks(g: seq<Expr>, bodies: seq<Code>, D: Code, top: nat, d: nat, p: nat, q: nat, back: seq<Slot>)
    requires Drafted(g, bodies, D) && top < |bodies| && q < |bodies| && p < |D| && D[p].op == OpenCall(q)
    requires q in Empties(g, d) && top !in Empties(g, d) && UnknownCalls(D, back, Table(Empties(g, d)))
    ensures
      Comes(D, Positions(bodies), EndOf(bodies, top), Going(p, back),
            if Empties(g, d)[q] then Going(p + 1, back) else Backtracked(back))
    decreases d, 0
  {
    var (pos, e, t) := (Positions(bodies), EndOf(bodies, top), Table(Empties(g, d)));
    var (base, empty) := ([Slot(p + 1, false)] + back, Empties(g, d)[q]);
    EnterCall(g, bodies, D, top, t, p, q, back);
    var d0 := LastUnknown(g, q, d);
    EmptiesWider(g, d0, d);
    UnknownBase(D, back, p, q, Table(Empties(g, d0)), t);
    RuleEnters(g, bodies, D, top, q, d0, base);
    ComesOn(D, pos, e, Going(p, back), Going(PosOf(bodies, q), base), Done(bodies, q, empty, base));
    LeaveCall(g, bodies, D, top, p, q, back, empty);
    var after := if empty then Going(p + 1, back) else Backtracked(back);
    ComesOn(D, pos, e, Going(p, back), Done(bodies, q, empty, base), after);
  }

  lemma UnknownBase(D: Code, back: seq<Slot>, p: nat, q: nat, m: Mode, m': Mode)
    requires UnknownCalls(D, back, m') && Wider(m, m') && p < |D| && D[p].op == OpenCall(q) && q !in m.empties
    ensures UnknownCalls(D, [Slot(p + 1, false)] + back, m)
  {
    FewerKnown(D, back, m, m');
  }

  /** No call to a rule that is known is pending. */
  lemma NotPending(D: Code, m: Mode, p: nat, q: nat, back: seq<Slot>)
    requires UnknownCalls(D, back, m) && p < |D| && D[p].op == OpenCall(q) && q in m.empties
    ensures !Pending(back, p + 1)
  {
    forall i | 0 <= i < |back|
      ensures back[i] != Slot(p + 1, false)
    {
      assert !back[i].pending ==> UnknownCall(D, back[i].p, m);
    }
  }

  /** Nothing is in the way of such a call. */
  lemma EnterCall(g: seq<Expr>, bodies: seq<Code>, D: Code, top: nat, m: Mode, p: nat, q: nat, back: seq<Slot>)
    requires Drafted(g, bodies, D) && top < |bodies| && q < |bodies| && p < |D| && D[p].op == OpenCall(q)
    requires UnknownCalls(D, back, m) && q in m.empties
    ensures
      Comes(D, Positions(bodies), EndOf(bodies, top), Going(p, back),
            Going(PosOf(bodies, q), [Slot(p + 1, false)] + back))
  {
    DraftedBody(g, bodies, D, top);
    NotPending(D, m, p, q, back);
    ComesNext(D, Positions(bodies), EndOf(bodies, top), Going(p, back));
  }

  /** The return of a rule, or its failure, leaves the call. */
  lemma LeaveCall(g: seq<Expr>, bodies: seq<Code>, D: Code, top: nat, p: nat, q: nat, back: seq<Slot>, empty: bool)
    requires Drafted(g, bodies, D) && top < |bodies| && q < |bodies| && q != top
    ensures
      Comes(D, Positions(bodies), EndOf(bodies, top), Done(bodies, q, empty, [Slot(p + 1, false)] + back),
            if empty then Going(p + 1, back) else Backtracked(back))
  {
    var (pos, e, base) := (Positions(bodies), EndOf(bodies, top), [Slot(p + 1, false)] + back);
    assert base[1..] == back;
    EndsApart(bodies, q, top);
    DraftedBody(g, bodies, D, q);
    var c := Done(bodies, q, empty, base);
    if empty { ComesNext(D, pos, e, c); } else { ComesHere(D, pos, e, c); }
  }

  /** The run of a body, with the calls in it, while the rule being checked is `top`. */
  lemma {:induction false} BodyChecks(g: seq<Expr>, bodies: seq<Code>, D: Code, top: nat, q: nat, d: nat,
                                      st: State, k: nat, fin: State, base: seq<Slot>)
    requires Drafted(g, bodies, D) && top < |bodies| && q < |bodies|
    requires top !in Empties(g, d) && UnknownCalls(D, base, Table(Empties(g, d)))
    requires AllBack(st) && Iter(Table(Empties(g, d)), bodies[q], 0, st, k) == fin && !fin.Stuck?
    ensures
      Comes(D, Positions(bodies), EndOf(bodies, top), CheckOf(st, PosOf(bodies, q), base),
            CheckOf(fin, PosOf(bodies, q), base))
    decreases d, 1, k
  {
    var (m, c, at) := (Table(Empties(g, d)), bodies[q], PosOf(bodies, q));
    var (pos, e) := (Positions(bodies), EndOf(bodies, top));
    DraftedBody(g, bodies, D, q);
    DraftedBody(g, bodies, D, top);
    if k == 0 || Halted(c, st) {
      IterHaltedOr(m, c, 0, st, k);
      ComesHere(D, pos, e, CheckOf(st, at, base));
    } else {
      var st1 := Step(m, c, 0, st);
      if st1.Stuck? { IterHalted(m, c, 0, st1, k - 1); }
      if AtCall(c, st) {
        BodyCall(g, bodies, D, top, q, d, st, base);
      } else {
        StepChecks(D, pos, e, at, c, m, st, base);
        var here := CheckOf(st, at, base);
        if st.Run? { ComesNext(D, pos, e, here); } else { ComesHere(D, pos, e, here); }
      }
      StepAllBack(m, c, st);
      BodyChecks(g, bodies, D, top, q, d, st1, k - 1, fin, base);
      ComesOn(D, pos, e, CheckOf(st, at, base), CheckOf(st1, at, base), CheckOf(fin, at, base));
    }
  }

  lemma BodyCall(g: seq<Expr>, bodies: seq<Code>, D: Code, top: nat, q: nat, d: nat, st: State, base: seq<Slot>)
    requires Drafted(g, bodies, D) && top < |bodies| && q < |bodies|
    requires top !in Empties(g, d) && UnknownCalls(D, base, Table(Empties(g, d)))
    requires AllBack(st) && AtCall(bodies[q], st) && !Step(Table(Empties(g, d)), bodies[q], 0, st).Stuck?
    ensures
      Comes(D, Positions(bodies), EndOf(bodies, top), CheckOf(st, PosOf(bodies, q), base),
            CheckOf(Step(Table(Empties(g, d)), bodies[q], 0, st), PosOf(bodies, q), base))
    decreases d, 1, 0
  {
    var (c, at, back) := (bodies[q], PosOf(bodies, q), SlotsAt(st.stk, PosOf(bodies, q)) + base);
    DraftedBody(g, bodies, D, q);
    assert D[at..at + |c|][st.p] == D[at + st.p] == c[st.p];
    assert UnknownCalls(D, back, Table(Empties(g, d)));
    CallChecks(g, bodies, D, top, d, at + st.p, c[st.p].op.rule, back);
  }

  /** Entered with `base` pending, a rule that has a meaning at depth `d` ends as that says. */
  lemma RuleEnters(g: seq<Expr>, bodies: seq<Code>, D: Code, top: nat, q: nat, d: nat, base: seq<Slot>)
    requires Drafted(g, bodies, D) && top < |bodies| && q < |bodies| && !Eval(g[q], Table(Empties(g, d)), 0).Diverge?
    requires top !in Empties(g, d) && UnknownCalls(D, base, Table(Empties(g, d)))
    ensures
      Comes(D, Positions(bodies), EndOf(bodies, top), Going(PosOf(bodies, q), base),
            Done(bodies, q, Eval(g[q], Table(Empties(g, d)), 0).Succ?, base))
    decreases d, 2
  {
    var o := Eval(g[q], Table(Empties(g, d)), 0);
    var k := TableRun(g, bodies, q, Table(Empties(g, d)));
    BodyChecks(g, bodies, D, top, q, d, Run(0, 0, [], []), k, Final(|bodies[q]|, [], [], o), base);
    DoneIs(bodies, q, o, base);
  }

  lemma DoneIs(bodies: seq<Code>, q: nat, o: Out, base: seq<Slot>)
    requires q < |bodies| && !o.Diverge?
    ensures CheckOf(Final(|bodies[q]|, [], [], o), PosOf(bodies, q), base) == Done(bodies, q, o.Succ?, base)
    ensures CheckOf(Run(0, 0, [], []), PosOf(bodies, q), base) == Going(PosOf(bodies, q), base)
  {
    assert SlotsAt([], PosOf(bodies, q)) + base == base;
  }

  /** The run of a body whose meaning is known. */
  lemma TableRun(g: seq<Expr>, bodies: seq<Code>, r: nat, m: Mode) returns (k: nat)
    requires Bodies(g, bodies) && r < |bodies| && m.Table? && !Eval(g[r], m, 0).Diverge?
    ensures Iter(m, bodies[r], 0, Run(0, 0, [], []), k) == Final(|bodies[r]|, [], [], Eval(g[r], m, 0))
  {
    var o := Eval(g[r], m, 0);
    var none: seq<Capture> := [];
    var st, fin := Run(0, 0, [], none), Final(|bodies[r]|, [], none, o);
    assert Beh(m, bodies[r], 0, o) && |none| == 0;
    assert Reach(m, bodies[r], 0, st, fin);
    k :| Iter(m, bodies[r], 0, st, k) == fin;
  }

  // ----- the answer -----

  /** The check of rule `r` after `k` steps. */
  ghost function CheckAt(bodies: seq<Code>, start: nat, r: nat, k: nat): Check
    requires start < |bodies| && r < |bodies|
  {
    CheckIter(Draft(bodies, start), Positions(bodies), EndOf(bodies, r), Going(PosOf(bodies, r), []), k)
  }

  lemma RuleDrafted(bodies: seq<Code>, start: nat, r: nat)
    requires start < |bodies| && r < |bodies| && WF(bodies[r]) && Refers(bodies[r], |bodies|)
    ensures DraftedAt(bodies, Draft(bodies, start), r)
  {
    DraftAt(bodies, start, r);
  }

  lemma DraftDrafted(g: seq<Expr>, bodies: seq<Code>, start: nat)
    requires Compiled(g, bodies) && RulesDefined(bodies) && start < |bodies|
    ensures Drafted(g, bodies, Draft(bodies, start))
  {
    CompiledBodies(g, bodies);
    forall r | 0 <= r < |bodies|
      ensures DraftedAt(bodies, Draft(bodies, start), r)
    {
      RuleDrafted(bodies, start, r);
    }
  }

  /** A rule whose meaning to the verifier is known, at whatever depth of calls, is not called left recursive: the
      check says that it fails, or that it may match the empty string, exactly as its meaning does. */
  lemma CheckMeaning(g: seq<Expr>, bodies: seq<Code>, start: nat, r: nat, d: nat) returns (k: nat)
    requires start < |bodies| && Drafted(g, bodies, Draft(bodies, start)) && r < |bodies| && r in Empties(g, d)
    ensures CheckAt(bodies, start, r, k) == Ended(if Empties(g, d)[r] then MatchesEmpty else Fails)
  {
    var (D, pos, e) := (Draft(bodies, start), Positions(bodies), EndOf(bodies, r));
    var d0 := LastUnknown(g, r, d);
    RuleEnters(g, bodies, D, r, r, d0, []);
    var (first, done) := (Going(PosOf(bodies, r), []), Done(bodies, r, Empties(g, d)[r], []));
    ComesNext(D, pos, e, done);
    ComesOn(D, pos, e, first, done, CheckStep(D, pos, e, done));
    k :| CheckIter(D, pos, e, first, k) == CheckStep(D, pos, e, done);
  }

  /** A check ends at most once. */
  lemma AnswersOnce(D: Code, pos: seq<nat>, e: int, c: Check, j: nat, k: nat)
    requires CheckIter(D, pos, e, c, j).Ended? && CheckIter(D, pos, e, c, k).Ended?
    ensures CheckIter(D, pos, e, c, j) == CheckIter(D, pos, e, c, k)
  {
    if j <= k {
      CheckAdd(D, pos, e, c, j, k - j);
      CheckEnded(D, pos, e, CheckIter(D, pos, e, c, j), k - j);
    } else {
      CheckAdd(D, pos, e, c, k, j - k);
      CheckEnded(D, pos, e, CheckIter(D, pos, e, c, k), j - k);
    }
  }

  /** A rule without calls is checked as a loop body is: the check ends, and whether the rule fails or may match the
      empty string is what the verifier without its table says. */
  lemma PlainRule(g: seq<Expr>, bodies: seq<Code>, start: nat, r: nat) returns (k: nat)
    requires Compiled(g, bodies) && RulesDefined(bodies) && start < |bodies| && r < |bodies| && GrammarFree(g[r])
    ensures !Eval(g[r], Verify, 0).Diverge?
    ensures CheckAt(bodies, start, r, k) == Ended(if Eval(g[r], Verify, 0).Succ? then MatchesEmpty else Fails)
  {
    assert Compile(g[r]) == Built(bodies[r]);
    Defined(g[r], Verify, 0);
    TableAgrees(g[r], Table(Empties(g, 0)), 0);
    assert r in Empties(g, 1);
    DraftDrafted(g, bodies, start);
    k := CheckMeaning(g, bodies, start, r, 1);
  }
}
