/** The two elementary rewrites of code behind the optimizers: moving a capture across a check, and
    letting a jump skip an unconditional jump.  Both keep the end of every run. */
module LpegRewrite {
  import opened LpegCode
  import opened LpegSemantics
  import opened LpegMachine
  import opened LpegBehaviour

  predicate NoTarget(c: Code, q: int) {
    forall i :: 0 <= i < |c| && IsJmp(c[i].op) ==> i + c[i].off != q
  }

  predicate FramesAvoid(stk: seq<Frame>, q: int) {
    forall i :: 0 <= i < |stk| ==> stk[i].p != q
  }

  predicate Avoids(st: State, q: int) {
    match st
    case Run(p, _, stk, _) => p != q && FramesAvoid(stk, q)
    case Failing(stk) => FramesAvoid(stk, q)
    case Stuck => true
  }

  lemma StepAvoids(m: Mode, c: Code, b: nat, st: State, q: int)
    requires NoTarget(c, q) && Avoids(st, q)
    requires st.Run? ==> st.p + 1 != q
    ensures Avoids(Step(m, c, b, st), q)
  {
    if st.Run? && 0 <= st.p < |c| {
      assert IsJmp(c[st.p].op) ==> st.p + c[st.p].off != q;
    }
  }

  // ----- a capture moves across a check -----

  predicate CanSwap(c: Code, i: int) {
    0 <= i && i + 1 < |c| && IsMovable(c[i].op) && c[i + 1].op.Check? && NoTarget(c, i + 1)
  }

  /** A capture instruction that now runs `n` bytes later. */
  function Later(ins: Instr, n: nat): Instr
    requires ins.op.Cap?
  {
    ins.(op := ins.op.(n := ins.op.n + n))
  }

  /** Instructions `i` (a capture) and `i + 1` (a check) change places. */
  function Swap(c: Code, i: int): (r: Code)
    requires CanSwap(c, i)
    ensures |r| == |c|
  {
    c[i := c[i + 1]][i + 1 := Later(c[i], StepOf(c[i + 1].op.k))]
  }

  lemma SwapBlock(m: Mode, c: Code, i: int, b: nat, st: State)
    requires CanSwap(c, i) && st.Run? && st.p == i
    requires !Step(m, c, b, st).Stuck? && !Step(m, c, b, Step(m, c, b, st)).Stuck?
    ensures
      var c' := Swap(c, i);
      var fin := Step(m, c, b, Step(m, c, b, st));
      fin == Step(m, c', b, st) || fin == Step(m, c', b, Step(m, c', b, st))
    ensures Step(m, c, b, st).Run? && Step(m, c, b, st).p == i + 1
    ensures
      var fin := Step(m, c, b, Step(m, c, b, st));
      fin == Failing(st.stk) || (fin.Run? && fin.p == i + 2 && fin.stk == st.stk)
  {
    var c' := Swap(c, i);
    var step := StepOf(c[i + 1].op.k);
    assert c'[i] == c[i + 1] && c'[i + 1] == Later(c[i], step);
    var op := c[i].op;
    var prot := Prot(b, st.stk);
    assert DoCap(op.(n := op.n + step), prot, st.s + step, st.caps) == DoCap(op, prot, st.s, st.caps);
  }

  lemma SwapBlockReach(m: Mode, c: Code, i: int, b: nat, st: State, fin: State)
    requires CanSwap(c, i) && st.Run? && st.p == i
    requires !Step(m, c, b, st).Stuck? && !Step(m, c, b, Step(m, c, b, st)).Stuck?
    requires Reach(m, Swap(c, i), b, Step(m, c, b, Step(m, c, b, st)), fin)
    ensures Reach(m, Swap(c, i), b, st, fin)
  {
    var c' := Swap(c, i);
    var st2 := Step(m, c, b, Step(m, c, b, st));
    SwapBlock(m, c, i, b, st);
    if st2 != Step(m, c', b, st) {
      TickChain(m, c', b, Step(m, c', b, st), fin);
    }
    TickChain(m, c', b, st, fin);
  }

  lemma SwapOther(m: Mode, c: Code, i: int, b: nat, st: State)
    requires CanSwap(c, i) && Avoids(st, i + 1) && !(st.Run? && st.p == i)
    ensures Step(m, Swap(c, i), b, st) == Step(m, c, b, st) && Avoids(Step(m, c, b, st), i + 1)
  {
    StepAvoids(m, c, b, st, i + 1);
    if st.Run? && 0 <= st.p < |c| {
      assert Swap(c, i)[st.p] == c[st.p];
    }
  }

  /** A capture does not end a run. */
  lemma AfterCapture(m: Mode, c: Code, i: int, b: nat, st: State)
    requires CanSwap(c, i) && st.Run? && st.p == i && !Step(m, c, b, st).Stuck?
    ensures !Halted(c, Step(m, c, b, st))
  {
  }

  lemma SwapRun(m: Mode, c: Code, i: int, b: nat, st: State, k: nat)
    requires CanSwap(c, i) && Avoids(st, i + 1)
    requires Halted(c, Iter(m, c, b, st, k)) && !Iter(m, c, b, st, k).Stuck?
    ensures Reach(m, Swap(c, i), b, st, Iter(m, c, b, st, k))
    decreases k
  {
    var fin := Iter(m, c, b, st, k);
    if Halted(c, st) {
      IterHalted(m, c, b, st, k);
      Stay(m, Swap(c, i), b, st);
    } else {
      var st1 := Step(m, c, b, st);
      if st1.Stuck? { IterHalted(m, c, b, st1, k - 1); }
      if st.Run? && st.p == i {
        AfterCapture(m, c, i, b, st);
        var st2 := Step(m, c, b, st1);
        assert fin == Iter(m, c, b, st2, k - 2);
        if st2.Stuck? { IterHalted(m, c, b, st2, k - 2); }
        SwapBlock(m, c, i, b, st);
        SwapRun(m, c, i, b, st2, k - 2);
        SwapBlockReach(m, c, i, b, st, fin);
      } else {
        SwapOther(m, c, i, b, st);
        SwapRun(m, c, i, b, st1, k - 1);
        TickChain(m, Swap(c, i), b, st, fin);
      }
    }
  }

  /** Where the rewritten fragment ends, the original ends too, unless its capture or its check is stuck. */
  lemma {:induction false} SwapBack(m: Mode, c: Code, i: int, b: nat, st: State, k: nat, fin: State)
    requires CanSwap(c, i) && Avoids(st, i + 1)
    requires Iter(m, Swap(c, i), b, st, k) == fin && Halted(c, fin) && !fin.Stuck?
    ensures Reach(m, c, b, st, fin) || Reach(m, c, b, st, Stuck)
    decreases k
  {
    var c', st1 := Swap(c, i), Step(m, c, b, st);
    if Halted(c, st) {
      IterHalted(m, c', b, st, k);
      Stay(m, c, b, st);
    } else if st.Run? && st.p == i {
      var st2 := Step(m, c, b, st1);
      Tick(m, c, b, st);
      Tick(m, c, b, st1);
      Chain(m, c, b, st, st1, st2);
      if !st1.Stuck? && !st2.Stuck? {
        SwapBlock(m, c, i, b, st);
        var n := if st2 == Step(m, c', b, st) then 1 else 2;
        assert Iter(m, c', b, st2, k - n) == fin;
        SwapBack(m, c, i, b, st2, k - n, fin);
        SwapBackChain(m, c, b, st, st2, fin);
      }
    } else {
      SwapOther(m, c, i, b, st);
      SwapBack(m, c, i, b, st1, k - 1, fin);
      Tick(m, c, b, st);
      SwapBackChain(m, c, b, st, st1, fin);
    }
  }

  lemma SwapBackChain(m: Mode, c: Code, b: nat, st: State, st1: State, fin: State)
    requires Reach(m, c, b, st, st1) && (Reach(m, c, b, st1, fin) || Reach(m, c, b, st1, Stuck))
    ensures Reach(m, c, b, st, fin) || Reach(m, c, b, st, Stuck)
  {
    if Reach(m, c, b, st1, fin) { Chain(m, c, b, st, st1, fin); } else { Chain(m, c, b, st, st1, Stuck); }
  }

  /** The rewritten fragment ends as the original does, and ends only where the original does or is stuck. */
  lemma SwapReach(m: Mode, c: Code, i: int, b: nat, st: State, fin: State)
    requires CanSwap(c, i) && Avoids(st, i + 1) && Halted(c, fin) && !fin.Stuck?
    ensures Reach(m, c, b, st, fin) ==> Reach(m, Swap(c, i), b, st, fin)
    ensures Reach(m, Swap(c, i), b, st, fin) ==> Reach(m, c, b, st, fin) || Reach(m, c, b, st, Stuck)
  {
    if Reach(m, c, b, st, fin) {
      var k: nat :| Iter(m, c, b, st, k) == fin;
      SwapRun(m, c, i, b, st, k);
    }
    if Reach(m, Swap(c, i), b, st, fin) {
      var k: nat :| Iter(m, Swap(c, i), b, st, k) == fin;
      SwapBack(m, c, i, b, st, k, fin);
    }
  }

  // ----- a jump skips an unconditional jump -----

  predicate CanHop(c: Code, j: int) {
    0 <= j < |c| && IsJmp(c[j].op) &&
    var t := j + c[j].off;
    0 <= t < |c| && t != j && c[t].op.Jmp?
  }

  /** The verifier looks at the direction of a partial commit, so only a real run may skip there. */
  predicate HopMode(m: Mode, c: Code, j: int) {
    m.Real? || (0 <= j < |c| && !c[j].op.PartialCommit?)
  }

  /** Instruction `j` jumps straight to where its target jumps. */
  function Hop(c: Code, j: int): (r: Code)
    requires CanHop(c, j)
    ensures |r| == |c|
  {
    var t := j + c[j].off;
    c[j := Instr(c[j].op, c[j].off + c[t].off)]
  }

  /** Equal addresses, except that the second may already be past the jump at `t`. */
  predicate HopPc(p: int, p': int, t: int, t': int) {
    p' == p || (p == t && p' == t')
  }

  predicate HopFrames(stk: seq<Frame>, stk': seq<Frame>, t: int, t': int) {
    |stk| == |stk'| &&
    forall i :: 0 <= i < |stk| ==>
      HopPc(stk[i].p, stk'[i].p, t, t') && stk'[i] == stk[i].(p := stk'[i].p)
  }

  predicate HopRel(st: State, st': State, t: int, t': int) {
    match st
    case Run(p, s, stk, caps) =>
      st'.Run? && HopPc(p, st'.p, t, t') && st'.s == s && st'.caps == caps && HopFrames(stk, st'.stk, t, t')
    case Failing(stk) => st'.Failing? && HopFrames(stk, st'.stk, t, t')
    case Stuck => st' == Stuck
  }

  lemma HopProt(b: nat, stk: seq<Frame>, stk': seq<Frame>, t: int, t': int)
    requires HopFrames(stk, stk', t, t')
    ensures Prot(b, stk) == Prot(b, stk')
  {
    if stk != [] {
      assert stk'[0] == stk[0].(p := stk'[0].p);
      HopProt(b, stk[1..], stk'[1..], t, t');
    }
  }

  lemma HopOnStack(m: Mode, op: Op, next: int, dest: int, dest': int, s: int,
                   stk: seq<Frame>, stk': seq<Frame>, caps: seq<Capture>, t: int, t': int)
    requires IsStackOp(op) && HopFrames(stk, stk', t, t') && HopPc(dest, dest', t, t')
    requires op.PartialCommit? && !m.Real? ==> dest == dest'
    ensures HopRel(OnStack(m, op, next, dest, s, stk, caps), OnStack(m, op, next, dest', s, stk', caps), t, t')
  {
    if stk != [] {
      assert stk'[0] == stk[0].(p := stk'[0].p);
      assert HopFrames(stk[1..], stk'[1..], t, t');
    }
  }

  lemma HopExec(m: Mode, b: nat, op: Op, next: int, dest: int, dest': int, s: int,
                stk: seq<Frame>, stk': seq<Frame>, caps: seq<Capture>, t: int, t': int)
    requires HopFrames(stk, stk', t, t') && HopPc(dest, dest', t, t')
    requires op.PartialCommit? && !m.Real? ==> dest == dest'
    ensures HopRel(Exec(m, b, op, next, dest, s, stk, caps), Exec(m, b, op, next, dest', s, stk', caps), t, t')
  {
    if IsStackOp(op) {
      HopOnStack(m, op, next, dest, dest', s, stk, stk', caps, t, t');
    } else {
      HopProt(b, stk, stk', t, t');
    }
  }

  lemma HopStepFailing(m: Mode, c: Code, j: int, b: nat, st: State, st': State)
    requires CanHop(c, j) && st.Failing? && st.stk != []
    requires var t := j + c[j].off; HopRel(st, st', t, t + c[t].off)
    ensures var t := j + c[j].off; HopRel(Step(m, c, b, st), Step(m, Hop(c, j), b, st'), t, t + c[t].off)
  {
    var t := j + c[j].off;
    assert st'.stk[0] == st.stk[0].(p := st'.stk[0].p);
    assert HopFrames(st.stk[1..], st'.stk[1..], t, t + c[t].off);
  }

  lemma StepIsExec(m: Mode, c: Code, b: nat, st: State, op: Op, dest: int)
    requires st.Run? && 0 <= st.p < |c| && c[st.p].op == op && st.p + c[st.p].off == dest
    ensures Step(m, c, b, st) == Exec(m, b, op, st.p + 1, dest, st.s, st.stk, st.caps)
  {
  }

  lemma HopDest(c: Code, j: int, p: int)
    requires CanHop(c, j) && 0 <= p < |c|
    ensures
      var c', t := Hop(c, j), j + c[j].off;
      c'[p].op == c[p].op && HopPc(p + c[p].off, p + c'[p].off, t, t + c[t].off) &&
      (p != j ==> c'[p] == c[p])
  {
  }

  /** Both are at the same instruction. */
  lemma HopSame(m: Mode, c: Code, c': Code, b: nat, st: State, st': State, t: int, t': int)
    requires |c'| == |c| && st.Run? && st'.Run? && st.p == st'.p && 0 <= st.p < |c| && HopRel(st, st', t, t')
    requires c'[st.p].op == c[st.p].op && HopPc(st.p + c[st.p].off, st.p + c'[st.p].off, t, t')
    requires c[st.p].op.PartialCommit? && !m.Real? ==> c'[st.p] == c[st.p]
    ensures HopRel(Step(m, c, b, st), Step(m, c', b, st'), t, t')
  {
    var p, op := st.p, c[st.p].op;
    var dest, dest' := p + c[p].off, p + c'[p].off;
    HopExec(m, b, op, p + 1, dest, dest', st.s, st.stk, st'.stk, st.caps, t, t');
    StepIsExec(m, c, b, st, op, dest);
    StepIsExec(m, c', b, st', op, dest');
  }

  lemma HopStepSame(m: Mode, c: Code, j: int, b: nat, st: State, st': State, t: int, t': int)
    requires CanHop(c, j) && HopMode(m, c, j) && t == j + c[j].off && t' == t + c[t].off
    requires st.Run? && 0 <= st.p < |c| && st'.Run? && st.p == st'.p && HopRel(st, st', t, t')
    ensures HopRel(Step(m, c, b, st), Step(m, Hop(c, j), b, st'), t, t')
  {
    HopDest(c, j, st.p);
    HopSame(m, c, Hop(c, j), b, st, st', t, t');
  }

  /** The original is at the jump that the rewritten fragment has skipped. */
  lemma HopStepSkip(m: Mode, c: Code, j: int, b: nat, st: State, st': State)
    requires CanHop(c, j) && st.Run? && st'.Run? && st.p != st'.p
    requires var t := j + c[j].off; HopRel(st, st', t, t + c[t].off)
    ensures var t := j + c[j].off; HopRel(Step(m, c, b, st), st', t, t + c[t].off)
  {
  }

  /** One step of the original is one step of the rewritten fragment, or the jump it has skipped. */
  lemma HopStep(m: Mode, c: Code, j: int, b: nat, st: State, st': State, t: int, t': int)
    requires CanHop(c, j) && HopMode(m, c, j) && t == j + c[j].off && t' == t + c[t].off
    requires HopRel(st, st', t, t') && !Halted(c, st)
    ensures
      if Skipping(st, st') then HopRel(Step(m, c, b, st), st', t, t') && !Skipping(Step(m, c, b, st), st')
      else !Halted(Hop(c, j), st') && HopRel(Step(m, c, b, st), Step(m, Hop(c, j), b, st'), t, t')
  {
    if st.Failing? {
      HopStepFailing(m, c, j, b, st, st');
    } else if st.p == st'.p {
      HopStepSame(m, c, j, b, st, st', t, t');
    } else {
      HopStepSkip(m, c, j, b, st, st');
    }
  }

  /** The original is still at the jump. */
  predicate Skipping(st: State, st': State) {
    st.Run? && st'.Run? && st.p != st'.p
  }

  /** Where the original has ended with nothing pending, or is stuck, so is the rewritten fragment. */
  lemma HopHalted(c: Code, j: int, st: State, st': State, t: int, t': int)
    requires CanHop(c, j) && t == j + c[j].off && t' == t + c[t].off && HopRel(st, st', t, t') && Halted(c, st)
    ensures Halted(Hop(c, j), st') && !Skipping(st, st')
    ensures st.Stuck? || st.stk == [] || (!st'.Stuck? && st'.stk == []) ==> st' == st
  {
  }

  lemma {:induction false} HopRun(m: Mode, c: Code, j: int, b: nat, st: State, st': State, t: int, t': int, k: nat,
                                  fin: State)
    requires CanHop(c, j) && HopMode(m, c, j) && t == j + c[j].off && t' == t + c[t].off && HopRel(st, st', t, t')
    requires Iter(m, c, b, st, k) == fin && Halted(c, fin) && (fin.Stuck? || fin.stk == [])
    ensures Reach(m, Hop(c, j), b, st', fin)
    decreases k
  {
    if Halted(c, st) {
      IterHalted(m, c, b, st, k);
      HopHalted(c, j, st, st', t, t');
      Stay(m, Hop(c, j), b, st');
    } else {
      var st1 := Step(m, c, b, st);
      HopStep(m, c, j, b, st, st', t, t');
      if Skipping(st, st') {
        HopRun(m, c, j, b, st1, st', t, t', k - 1, fin);
      } else {
        HopRun(m, c, j, b, st1, Step(m, Hop(c, j), b, st'), t, t', k - 1, fin);
        TickChain(m, Hop(c, j), b, st', fin);
      }
    }
  }

  /** Every state of the rewritten run stands for a state of the original one. */
  lemma {:induction false} HopVisits(m: Mode, c: Code, j: int, b: nat, st: State, st': State, t: int, t': int, n: nat)
    returns (k: nat)
    requires CanHop(c, j) && HopMode(m, c, j) && t == j + c[j].off && t' == t + c[t].off && HopRel(st, st', t, t')
    ensures HopRel(Iter(m, c, b, st, k), Iter(m, Hop(c, j), b, st', n), t, t')
    ensures !Skipping(Iter(m, c, b, st, k), Iter(m, Hop(c, j), b, st', n))
    decreases n, Skipping(st, st')
  {
    var c', st1 := Hop(c, j), Step(m, c, b, st);
    if Halted(c, st) {
      HopHalted(c, j, st, st', t, t');
      IterHalted(m, c', b, st', n);
      k := 0;
    } else if Skipping(st, st') {
      HopStep(m, c, j, b, st, st', t, t');
      k := HopVisits(m, c, j, b, st1, st', t, t', n);
      k := k + 1;
    } else if n == 0 {
      k := 0;
    } else {
      HopStep(m, c, j, b, st, st', t, t');
      k := HopVisits(m, c, j, b, st1, Step(m, c', b, st'), t, t', n - 1);
      k := k + 1;
    }
  }

  /** Every state of the original run is stood for by one of the rewritten run. */
  lemma {:induction false} HopVisited(m: Mode, c: Code, j: int, b: nat, st: State, st': State, t: int, t': int, k: nat)
    returns (n: nat)
    requires CanHop(c, j) && HopMode(m, c, j) && t == j + c[j].off && t' == t + c[t].off && HopRel(st, st', t, t')
    ensures HopRel(Iter(m, c, b, st, k), Iter(m, Hop(c, j), b, st', n), t, t')
    decreases k
  {
    var c', st1 := Hop(c, j), Step(m, c, b, st);
    if k == 0 || Halted(c, st) {
      IterHaltedOr(m, c, b, st, k);
      n := 0;
    } else {
      HopStep(m, c, j, b, st, st', t, t');
      if Skipping(st, st') {
        n := HopVisited(m, c, j, b, st1, st', t, t', k - 1);
      } else {
        n := HopVisited(m, c, j, b, st1, Step(m, c', b, st'), t, t', k - 1);
        n := n + 1;
      }
    }
  }

  /** The rewritten fragment ends as the original does, and ends only where the original does. */
  lemma HopReach(m: Mode, c: Code, j: int, b: nat, st: State, fin: State)
    requires CanHop(c, j) && HopMode(m, c, j) && (st.Run? || st.Failing?) && st.stk == []
    requires Halted(c, fin) && (fin.Stuck? || fin.stk == [])
    ensures Reach(m, c, b, st, fin) <==> Reach(m, Hop(c, j), b, st, fin)
  {
    var c', t, t' := Hop(c, j), j + c[j].off, j + c[j].off + c[j + c[j].off].off;
    if Reach(m, c, b, st, fin) {
      var k: nat :| Iter(m, c, b, st, k) == fin;
      HopRun(m, c, j, b, st, st, t, t', k, fin);
    }
    if Reach(m, c', b, st, fin) {
      var n: nat :| Iter(m, c', b, st, n) == fin;
      var k := HopVisits(m, c, j, b, st, st, t, t', n);
      assert Iter(m, c, b, st, k) == fin;
    }
  }

  /** Both need the same room on the stack. */
  lemma HopDeep(m: Mode, c: Code, j: int, b: nat, st: State, d: nat)
    requires CanHop(c, j) && HopMode(m, c, j)
    ensures Grows(m, c, b, st, d) <==> Grows(m, Hop(c, j), b, st, d)
  {
    var c', t, t' := Hop(c, j), j + c[j].off, j + c[j].off + c[j + c[j].off].off;
    if Grows(m, c, b, st, d) {
      var k: nat :| Depth(Iter(m, c, b, st, k)) >= d;
      var n := HopVisited(m, c, j, b, st, st, t, t', k);
      assert Depth(Iter(m, c', b, st, n)) >= d;
    }
    if Grows(m, c', b, st, d) {
      var n: nat :| Depth(Iter(m, c', b, st, n)) >= d;
      var k := HopVisits(m, c, j, b, st, st, t, t', n);
      assert Depth(Iter(m, c, b, st, k)) >= d;
    }
  }
}
