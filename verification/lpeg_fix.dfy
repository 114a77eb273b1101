/** Runs of fixed grammars: wherever the rules of a grammar have a result, the machine finds it, with
    tail calls as jumps and jump chains collapsed. */
module LpegFix {
  import opened LpegCode
  import opened LpegSemantics
  import opened LpegMachine
  import opened LpegBehaviour
  import opened LpegRewrite
  import opened LpegCompile
  import opened LpegInvariant
  import opened LpegOptJumps
  import opened LpegMatch
  import opened LpegGrammar

  ghost function Plainly(subj: seq<Byte>): Mode {
    Real(subj, map[])
  }

  /** From `st` the grammar comes to a return, or fails, with stack `T`, as the body's run ends in `fin`. */
  ghost predicate Leaves(P: Code, subj: seq<Byte>, st: State, T: seq<Frame>, fin: State) {
    match fin
    case Run(_, s, _, caps) => exists e :: IsRet(P, e) && Reach(Plainly(subj), P, 0, st, Run(e, s, T, caps))
    case Failing(_) => Reach(Plainly(subj), P, 0, st, Failing(T))
    case Stuck => false
  }

  /** Entered at `q`, a rule leaves with outcome `o`, whatever is on the stack. */
  ghost predicate RuleWorks(P: Code, subj: seq<Byte>, q: int, s: int, o: Out)
    requires !o.Diverge?
  {
    forall T: seq<Frame>, caps: seq<Capture> {:trigger Run(q, s, T, caps)} ::
      Nested(T, caps) ==> Leaves(P, subj, Run(q, s, T, caps), T, Final(0, [], caps, o))
  }

  ghost predicate AllWork(P: Code, m: Mode, pos: seq<nat>) {
    m.Real? &&
    forall r: nat, s: int {:trigger RuleOut(m, r, s)} ::
      r < |pos| && !RuleOut(m, r, s).Diverge? ==> RuleWorks(P, m.subj, pos[r], s, RuleOut(m, r, s))
  }

  /** The body `c` stands at `at` in the grammar `P`, which was fixed from the draft `D`. */
  ghost predicate Stands(P: Code, D: Code, f: seq<nat>, pos: seq<nat>, at: nat, c: Code) {
    && Settles(D, f, pos) && Forward(D) && P == Fixed(D, f, pos, |D|)
    && at + |c| < |D| && D[at..at + |c|] == c && D[at + |c|].op.Ret? && WF(c)
  }

  lemma StandsAt(P: Code, D: Code, f: seq<nat>, pos: seq<nat>, at: nat, c: Code, i: nat)
    requires Stands(P, D, f, pos, at, c) && i < |c|
    ensures D[at + i] == c[i] && InstrOk(c, i) && (!c[i].op.OpenCall? ==> P[at + i] == c[i])
    ensures c[i].op.OpenCall? ==>
      var q := c[i].op.rule;
      q < |pos| && P[at + i] == Instr(if IsRet(D, Target(D, f, at + i + 1)) then Jmp else Call, pos[q] - (at + i))
  {
    assert D[at..at + |c|][i] == D[at + i];
  }

  // ----- steps that are not calls -----

  predicate AtCall(c: Code, st: State) {
    st.Run? && 0 <= st.p < |c| && c[st.p].op.OpenCall?
  }

  /** The code of the body as it stands in the grammar does the same there. */
  lemma SameStep(c: Code, c1: Code, m: Mode, b: nat, st: State)
    requires m.Real? && |c1| == |c| && !AtCall(c, st)
    requires st.Run? && 0 <= st.p < |c| ==> c1[st.p] == c[st.p]
    ensures Step(Plainly(m.subj), c1, b, st) == Step(m, c, b, st)
  {
  }

  /** Everywhere but at an open call, the fixed code does what the body does. */
  lemma OtherStep(P: Code, D: Code, f: seq<nat>, pos: seq<nat>, at: nat, c: Code, m: Mode, b: nat, st: State,
                  T: seq<Frame>)
    requires Stands(P, D, f, pos, at, c) && m.Real? && Prot(0, T) <= b
    requires !Halted(c, st) && !AtCall(c, st) && !Step(m, c, b, st).Stuck?
    ensures Step(Plainly(m.subj), P, 0, Shift(st, at, T)) == Shift(Step(m, c, b, st), at, T)
  {
    var c1 := P[at..at + |c|];
    if st.Run? {
      StandsAt(P, D, f, pos, at, c, st.p);
      assert c1[st.p] == P[at + st.p];
    }
    SameStep(c, c1, m, b, st);
    StepShift(Plainly(m.subj), c1, P, at, b, 0, st, T);
  }

  // ----- calls -----

  /** What an open call makes of the body's state. */
  lemma CallOutcome(c: Code, m: Mode, b: nat, st: State, k: nat, fin: State)
    requires AtCall(c, st) && m.Real? && Iter(m, c, b, st, k) == fin && Halted(c, fin) && !fin.Stuck?
    ensures
      var o := RuleOut(m, c[st.p].op.rule, st.s);
      k > 0 && !o.Diverge? && Iter(m, c, b, Step(m, c, b, st), k - 1) == fin &&
      Step(m, c, b, st) == if o.Succ? then Run(st.p + 1, o.pos, st.stk, st.caps + o.caps) else Failing(st.stk)
  {
    var st1 := Step(m, c, b, st);
    if st1.Stuck? && k > 0 { IterHalted(m, c, b, st1, k - 1); }
  }

  /** A call runs its rule and comes back behind itself, or fails below its return address. */
  lemma CallRun(P: Code, subj: seq<Byte>, p: int, q: int, s: int, o: Out, S: seq<Frame>, caps: seq<Capture>)
    requires 0 <= p < |P| && P[p] == Instr(Call, q - p) && !o.Diverge? && RuleWorks(P, subj, q, s, o) && Nested(S, caps)
    ensures
      Reach(Plainly(subj), P, 0, Run(p, s, S, caps),
            if o.Succ? then Run(p + 1, o.pos, S, caps + o.caps) else Failing(S))
  {
    var m := Plainly(subj);
    var T := [RetTo(p + 1)] + S;
    assert T[1..] == S;
    var st, st1 := Run(p, s, S, caps), Run(q, s, T, caps);
    assert Step(m, P, 0, st) == st1;
    assert Leaves(P, subj, st1, T, Final(0, [], caps, o));
    var last, end;
    if o.Succ? {
      var e :| IsRet(P, e) && Reach(m, P, 0, st1, Run(e, o.pos, T, caps + o.caps));
      last, end := Run(e, o.pos, T, caps + o.caps), Run(p + 1, o.pos, S, caps + o.caps);
    } else {
      last, end := Failing(T), Failing(S);
    }
    assert Step(m, P, 0, last) == end;
    Tick(m, P, 0, last);
    Chain(m, P, 0, st1, last, end);
    TickChain(m, P, 0, st, end);
  }

  /** A chain of jumps to the return behind a body is, in the body, a chain of jumps to its end. */
  lemma {:induction false} JumpsOut(P: Code, D: Code, f: seq<nat>, pos: seq<nat>, at: nat, c: Code, m: Mode, b: nat,
                                    st: State)
    requires Stands(P, D, f, pos, at, c) && st.Run? && 0 <= st.p <= |c| && IsRet(D, Target(D, f, at + st.p))
    ensures Reach(m, c, b, st, Run(|c|, st.s, st.stk, st.caps))
    decreases f[at + st.p]
  {
    if st.p == |c| {
      Stay(m, c, b, st);
    } else {
      StandsAt(P, D, f, pos, at, c, st.p);
      assert D[at + st.p].op.Jmp?;
      assert FallsAt(D, f, at + st.p);
      JumpsOut(P, D, f, pos, at, c, m, b, st.(p := st.p + c[st.p].off));
      TickChain(m, c, b, st, Run(|c|, st.s, st.stk, st.caps));
    }
  }

  /** After a tail call that succeeds, the body's run is at its end with an empty stack. */
  lemma TailEnds(P: Code, D: Code, f: seq<nat>, pos: seq<nat>, at: nat, c: Code, m: Mode, b: nat, st1: State,
                 fin: State)
    requires Stands(P, D, f, pos, at, c) && st1.Run? && 0 <= st1.p <= |c| && IsRet(D, Target(D, f, at + st1.p))
    requires Reach(m, c, b, st1, fin) && Halted(c, fin) && !fin.Stuck? && fin.stk == []
    ensures fin.Run? && fin.s == st1.s && fin.caps == st1.caps && st1.stk == []
  {
    JumpsOut(P, D, f, pos, at, c, m, b, st1);
    Deterministic(m, c, b, st1, Run(|c|, st1.s, st1.stk, st1.caps), fin);
  }

  /** A tail call jumps to its rule, and the rule's return is the caller's. */
  lemma TailRun(P: Code, D: Code, f: seq<nat>, pos: seq<nat>, at: nat, c: Code, m: Mode, b: nat,
                st: State, k: nat, fin: State, T: seq<Frame>, o: Out)
    requires Stands(P, D, f, pos, at, c) && AtCall(c, st) && m.Real? && AllWork(P, m, pos)
    requires Iter(m, c, b, st, k) == fin && Halted(c, fin) && !fin.Stuck? && fin.stk == []
    requires P[at + st.p].op.Jmp? && o == RuleOut(m, c[st.p].op.rule, st.s) && o.Succ?
    requires Nested(ShiftStk(st.stk, at) + T, st.caps)
    ensures Leaves(P, m.subj, Shift(st, at, T), T, fin)
  {
    StandsAt(P, D, f, pos, at, c, st.p);
    CallOutcome(c, m, b, st, k, fin);
    TailEnds(P, D, f, pos, at, c, m, b, Step(m, c, b, st), fin);
    assert ShiftStk([], at) + T == T;
    var q := pos[c[st.p].op.rule];
    assert RuleWorks(P, m.subj, q, st.s, o);
    JumpIn(P, m.subj, at + st.p, q, st.s, o, T, st.caps);
  }

  /** A jump to a rule leaves where the rule leaves. */
  lemma JumpIn(P: Code, subj: seq<Byte>, p: int, q: int, s: int, o: Out, T: seq<Frame>, caps: seq<Capture>)
    requires 0 <= p < |P| && P[p] == Instr(Jmp, q - p) && !o.Diverge? && RuleWorks(P, subj, q, s, o) && Nested(T, caps)
    ensures Leaves(P, subj, Run(p, s, T, caps), T, Final(0, [], caps, o))
  {
    var enter := Run(q, s, T, caps);
    assert Step(Plainly(subj), P, 0, Run(p, s, T, caps)) == enter;
    Tick(Plainly(subj), P, 0, Run(p, s, T, caps));
    assert Leaves(P, subj, enter, T, Final(0, [], caps, o));
    LeavesLater(P, subj, Run(p, s, T, caps), enter, T, Final(0, [], caps, o));
  }

  /** Any other call, and a tail call that fails, ends as the body's open call does. */
  lemma BackRun(P: Code, D: Code, f: seq<nat>, pos: seq<nat>, at: nat, c: Code, m: Mode, b: nat,
                st: State, T: seq<Frame>, o: Out)
    requires Stands(P, D, f, pos, at, c) && AtCall(c, st) && m.Real? && AllWork(P, m, pos)
    requires o == RuleOut(m, c[st.p].op.rule, st.s) && !o.Diverge? && (P[at + st.p].op.Call? || o.Failure?)
    requires Nested(ShiftStk(st.stk, at) + T, st.caps)
    ensures Reach(Plainly(m.subj), P, 0, Shift(st, at, T), Shift(Step(m, c, b, st), at, T))
  {
    StandsAt(P, D, f, pos, at, c, st.p);
    var S, q := ShiftStk(st.stk, at) + T, pos[c[st.p].op.rule];
    assert RuleWorks(P, m.subj, q, st.s, o);
    if P[at + st.p].op.Call? {
      CallRun(P, m.subj, at + st.p, q, st.s, o, S, st.caps);
    } else {
      JumpIn(P, m.subj, at + st.p, q, st.s, o, S, st.caps);
    }
  }

  lemma LeavesLater(P: Code, subj: seq<Byte>, st: State, st1: State, T: seq<Frame>, fin: State)
    requires Reach(Plainly(subj), P, 0, st, st1) && Leaves(P, subj, st1, T, fin)
    ensures Leaves(P, subj, st, T, fin)
  {
    var m := Plainly(subj);
    if fin.Run? {
      var e :| IsRet(P, e) && Reach(m, P, 0, st1, Run(e, fin.s, T, fin.caps));
      Chain(m, P, 0, st, st1, Run(e, fin.s, T, fin.caps));
    } else {
      Chain(m, P, 0, st, st1, Failing(T));
    }
  }

  lemma ReachNested(P: Code, subj: seq<Byte>, st: State, st1: State)
    requires Reach(Plainly(subj), P, 0, st, st1) && NestedState(st)
    ensures NestedState(st1)
  {
    var k: nat :| Iter(Plainly(subj), P, 0, st, k) == st1;
    IterNested(Plainly(subj), P, st, k);
  }

  /** The run of a body inside the grammar. */
  lemma {:induction false} BodyRun(P: Code, D: Code, f: seq<nat>, pos: seq<nat>, at: nat, c: Code, m: Mode, b: nat,
                                   st: State, k: nat, fin: State, T: seq<Frame>)
    requires Stands(P, D, f, pos, at, c) && m.Real? && AllWork(P, m, pos)
    requires Iter(m, c, b, st, k) == fin && Halted(c, fin) && !fin.Stuck? && fin.stk == [] &&
      (fin.Run? ==> fin.p == |c|)
    requires Prot(0, T) <= b && NestedState(Shift(st, at, T))
    ensures Leaves(P, m.subj, Shift(st, at, T), T, fin)
    decreases k
  {
    if Halted(c, st) {
      BodyEnd(P, D, f, pos, at, c, m, b, st, k, fin, T);
    } else {
      var st1 := Step(m, c, b, st);
      if st1.Stuck? { IterHalted(m, c, b, st1, k - 1); }
      if AtCall(c, st) {
        CallOutcome(c, m, b, st, k, fin);
        var o := RuleOut(m, c[st.p].op.rule, st.s);
        StandsAt(P, D, f, pos, at, c, st.p);
        if P[at + st.p].op.Jmp? && o.Succ? {
          TailRun(P, D, f, pos, at, c, m, b, st, k, fin, T, o);
          return;
        }
        BackRun(P, D, f, pos, at, c, m, b, st, T, o);
      } else {
        OtherStep(P, D, f, pos, at, c, m, b, st, T);
        Tick(Plainly(m.subj), P, 0, Shift(st, at, T));
      }
      ReachNested(P, m.subj, Shift(st, at, T), Shift(st1, at, T));
      BodyRun(P, D, f, pos, at, c, m, b, st1, k - 1, fin, T);
      LeavesLater(P, m.subj, Shift(st, at, T), Shift(st1, at, T), T, fin);
    }
  }

  lemma BodyEnd(P: Code, D: Code, f: seq<nat>, pos: seq<nat>, at: nat, c: Code, m: Mode, b: nat,
                st: State, k: nat, fin: State, T: seq<Frame>)
    requires Stands(P, D, f, pos, at, c) && m.Real? && Halted(c, st)
    requires Iter(m, c, b, st, k) == fin && !fin.Stuck? && fin.stk == [] && (fin.Run? ==> fin.p == |c|)
    ensures Leaves(P, m.subj, Shift(st, at, T), T, fin)
  {
    IterHalted(m, c, b, st, k);
    assert ShiftStk([], at) + T == T;
    assert IsRet(P, at + |c|);
    Stay(Plainly(m.subj), P, 0, Shift(st, at, T));
  }

  // ----- all rules -----

  /** Each body computes its rule. */
  ghost predicate Bodies(g: seq<Expr>, bodies: seq<Code>) {
    |g| == |bodies| && forall r {:trigger bodies[r]} :: 0 <= r < |bodies| ==> WF(bodies[r]) && Correct(bodies[r], g[r])
  }

  lemma RuleRuns(P: Code, D: Code, f: seq<nat>, pos: seq<nat>, at: nat, c: Code, m: Mode, s: int, o: Out)
    requires Stands(P, D, f, pos, at, c) && m.Real? && AllWork(P, m, pos)
    requires 0 <= s <= |m.subj| && !o.Diverge? && Beh(m, c, s, o)
    ensures RuleWorks(P, m.subj, at, s, o)
  {
    forall T: seq<Frame>, caps: seq<Capture> | Nested(T, caps)
      ensures Leaves(P, m.subj, Run(at, s, T, caps), T, Final(0, [], caps, o))
    {
      RuleRun(P, D, f, pos, at, c, m, s, o, T, caps);
    }
  }

  lemma RuleRun(P: Code, D: Code, f: seq<nat>, pos: seq<nat>, at: nat, c: Code, m: Mode, s: int, o: Out,
                T: seq<Frame>, caps: seq<Capture>)
    requires Stands(P, D, f, pos, at, c) && m.Real? && AllWork(P, m, pos)
    requires 0 <= s <= |m.subj| && !o.Diverge? && Beh(m, c, s, o) && Nested(T, caps)
    ensures Leaves(P, m.subj, Run(at, s, T, caps), T, Final(0, [], caps, o))
  {
    var st, fin := Run(0, s, [], caps), Final(|c|, [], caps, o);
    var k: nat :| Iter(m, c, |caps|, st, k) == fin;
    ProtBound(T, caps);
    assert ShiftStk([], at) + T == T;
    assert Shift(st, at, T) == Run(at, s, T, caps);
    BodyRun(P, D, f, pos, at, c, m, |caps|, st, k, fin, T);
  }

  /** Every body stands in the draft `D` at its position, with a return behind it. */
  ghost predicate Houses(D: Code, bodies: seq<Code>) {
    forall r {:trigger Housed(D, bodies, r)} :: 0 <= r < |bodies| ==> Housed(D, bodies, r)
  }

  predicate Housed(D: Code, bodies: seq<Code>, r: nat)
    requires r < |bodies|
  {
    var (at, c) := (PosOf(bodies, r), bodies[r]);
    at + |c| < |D| && D[at..at + |c|] == c && D[at + |c|].op.Ret?
  }

  lemma DraftHouses(bodies: seq<Code>, start: nat)
    requires start < |bodies|
    ensures Houses(Draft(bodies, start), bodies)
  {
    forall r | 0 <= r < |bodies|
      ensures Housed(Draft(bodies, start), bodies, r)
    {
      DraftAt(bodies, start, r);
    }
  }

  /** The draft `D` of a grammar and its fixed form `P`. */
  ghost predicate FixedFrom(bodies: seq<Code>, D: Code, f: seq<nat>, P: Code) {
    && Houses(D, bodies) && Settles(D, f, Positions(bodies)) && Forward(D)
    && P == Fixed(D, f, Positions(bodies), |D|)
  }

  lemma BodyStands(bodies: seq<Code>, D: Code, f: seq<nat>, P: Code, r: nat)
    requires FixedFrom(bodies, D, f, P) && r < |bodies| && WF(bodies[r])
    ensures Stands(P, D, f, Positions(bodies), PosOf(bodies, r), bodies[r])
  {
    assert Housed(D, bodies, r);
  }

  lemma NextRuleWorks(g: seq<Expr>, bodies: seq<Code>, D: Code, f: seq<nat>, P: Code, m: Mode, r: nat, s: int)
    requires Bodies(g, bodies) && FixedFrom(bodies, D, f, P) && AllWork(P, m, Positions(bodies))
    requires r < |bodies| && !RuleNext(g, m, r, s).Diverge?
    ensures RuleWorks(P, m.subj, PosOf(bodies, r), s, RuleNext(g, m, r, s))
  {
    var c := bodies[r];
    assert Beh(m, c, s, Eval(g[r], m, s));
    BodyStands(bodies, D, f, P, r);
    RuleRuns(P, D, f, Positions(bodies), PosOf(bodies, r), c, m, s, Eval(g[r], m, s));
  }

  lemma NoneWork(P: Code, subj: seq<Byte>, pos: seq<nat>)
    ensures AllWork(P, Real(subj, map[]), pos)
  {
    forall r: nat, s: int
      ensures RuleOut(Real(subj, map[]), r, s).Diverge?
    {
    }
  }

  lemma MoreWork(g: seq<Expr>, bodies: seq<Code>, D: Code, f: seq<nat>, P: Code, m: Mode, m': Mode)
    requires Bodies(g, bodies) && FixedFrom(bodies, D, f, P) && AllWork(P, m, Positions(bodies)) && StepUp(g, m, m')
    ensures AllWork(P, m', Positions(bodies))
  {
    forall r: nat, s: int | r < |bodies| && !RuleOut(m', r, s).Diverge?
      ensures RuleWorks(P, m'.subj, PosOf(bodies, r), s, RuleOut(m', r, s))
    {
      NextRuleWorks(g, bodies, D, f, P, m, r, s);
    }
  }

  /** At every depth, the rules of the grammar do what the bodies say. */
  lemma {:induction false} RulesWork(g: seq<Expr>, bodies: seq<Code>, D: Code, f: seq<nat>, P: Code, ms: seq<Mode>,
                                     n: nat)
    requires Bodies(g, bodies) && FixedFrom(bodies, D, f, P) && Tower(g, ms) && n < |ms|
    ensures AllWork(P, ms[n], Positions(bodies))
    decreases n
  {
    if n == 0 {
      NoneWork(P, ms[0].subj, Positions(bodies));
    } else {
      RulesWork(g, bodies, D, f, P, ms, n - 1);
      assert StepUpAt(g, ms, n - 1);
      MoreWork(g, bodies, D, f, P, ms[n - 1], ms[n]);
    }
  }

  /** The initial call and the jump behind it. */
  lemma StartRuns(P: Code, subj: seq<Byte>, q: int, s: int, o: Out)
    requires |P| >= 2 && P[0] == Instr(Call, q) && P[1] == Instr(Jmp, |P| - 1) && !o.Diverge? &&
      RuleWorks(P, subj, q, s, o)
    ensures Reach(Plainly(subj), P, 0, Run(0, s, [], []), Final(|P|, [], [], o))
  {
    var m := Plainly(subj);
    var none: seq<Capture> := [];
    CallRun(P, subj, 0, q, s, o, [], none);
    if o.Succ? {
      var back := Run(1, o.pos, [], none + o.caps);
      assert Step(m, P, 0, back) == Final(|P|, [], none, o);
      Tick(m, P, 0, back);
      Chain(m, P, 0, Run(0, s, [], none), back, Final(|P|, [], none, o));
    }
  }

  // ----- collapsing jumps in a grammar -----

  lemma RetargetReach(m: Mode, c: Code, f: seq<nat>, i: nat, st: State, fin: State)
    requires m.Real? && Falls(c, f) && i < |c| && IsJmp(c[i].op) && st.Run? && st.stk == []
    requires Halted(c, fin) && (fin.Stuck? || fin.stk == [])
    ensures Reach(m, c, 0, st, fin) <==> Reach(m, Retarget(c, f, i), 0, st, fin)
    ensures forall d :: Grows(m, c, 0, st, d) <==> Grows(m, Retarget(c, f, i), 0, st, d)
    decreases f[i + c[i].off]
  {
    var t := i + c[i].off;
    if t < |c| && c[t].op.Jmp? {
      assert FallsAt(c, f, t);
      if c[i].op.Jmp? { assert FallsAt(c, f, i); }
      HopReach(m, c, i, 0, st, fin);
      forall d
        ensures Grows(m, c, 0, st, d) <==> Grows(m, Hop(c, i), 0, st, d)
      {
        HopDeep(m, c, i, 0, st, d);
      }
      RetargetHop(c, f, i);
      RetargetReach(m, Hop(c, i), f, i, st, fin);
    } else {
      assert Retarget(c, f, i) == c;
    }
  }

  /** `optimizejumps` keeps how every run ends, and how deep its stack gets. */
  lemma {:induction false} OptJumpsReach(m: Mode, c: Code, f: seq<nat>, i: nat, st: State, fin: State)
    requires m.Real? && Falls(c, f) && st.Run? && st.stk == []
    requires Halted(c, fin) && (fin.Stuck? || fin.stk == [])
    ensures Reach(m, c, 0, st, fin) <==> Reach(m, OptJumps(c, f, i), 0, st, fin)
    ensures forall d :: Grows(m, c, 0, st, d) <==> Grows(m, OptJumps(c, f, i), 0, st, d)
    decreases |c| - i
  {
    if i < |c| {
      if IsJmp(c[i].op) {
        RetargetReach(m, c, f, i, st, fin);
        OptJumpsReach(m, Retarget(c, f, i), f, i + 1, st, fin);
      } else {
        OptJumpsReach(m, c, f, i + 1, st, fin);
      }
    }
  }
}
