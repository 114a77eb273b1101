/** What holds in every state of every run of a pattern the constructors have built: no assertion of the
    machine fails, positions stay in the subject, and capture lists stay well nested. */
module LpegSafety {
  import opened LpegCode
  import opened LpegCaptures
  import opened LpegSemantics
  import opened LpegMachine
  import opened LpegBehaviour
  import opened LpegCompile
  import opened LpegInvariant
  import opened LpegBasic
  import opened LpegUnion
  import opened LpegCompiler
  import opened LpegMatch

  predicate FrameSound(m: Mode, f: Frame) {
    f.Back? ==> CanRead(m, f.s) && WellNested(f.caps)
  }

  predicate FramesSound(m: Mode, stk: seq<Frame>) {
    forall i {:trigger stk[i]} :: 0 <= i < |stk| ==> FrameSound(m, stk[i])
  }

  /** Positions, here and in every pending choice, lie in the subject, and capture lists are well nested. */
  predicate Sound(m: Mode, st: State) {
    match st
    case Run(_, s, stk, caps) => CanRead(m, s) && WellNested(caps) && FramesSound(m, stk)
    case Failing(stk) => FramesSound(m, stk)
    case Stuck => false
  }

  lemma CapSound(op: Op, prot: nat, s: int, caps: seq<Capture>)
    requires op.Cap? && op.n <= MAXOFF && WellNested(caps)
    ensures var r := DoCap(op, prot, s, caps); r.NewCaps? ==> WellNested(r.caps)
  {
    var r := DoCap(op, prot, s, caps);
    if r.NewCaps? {
      if |r.caps| > |caps| {
        WaitingOne(caps, r.caps[|caps|]);
      } else {
        var last := caps[|caps| - 1];
        WaitingOne(caps[..|caps| - 1], last.(siz := s - op.n - last.s + 1));
      }
    }
  }

  lemma PlainSound(m: Mode, prot: nat, op: Op, s: int, caps: seq<Capture>)
    requires !IsStackOp(op) && (op.Cap? ==> op.n <= MAXOFF) && CanRead(m, s) && WellNested(caps)
    ensures var r := Plain(m, prot, op, s, caps); r.Next? || r.Dest? ==> CanRead(m, r.s) && WellNested(r.caps)
  {
    if op.Cap? {
      CapSound(op, prot, s, caps);
    } else if op.OpenCall? && CallOut(m, op.rule, s).Succ? {
      WellNestedConcat(caps, CallOut(m, op.rule, s).caps);
    }
  }

  lemma StackSound(m: Mode, op: Op, next: int, dest: int, s: int, stk: seq<Frame>, caps: seq<Capture>)
    requires IsStackOp(op) && CanRead(m, s) && WellNested(caps) && FramesSound(m, stk)
    ensures var r := OnStack(m, op, next, dest, s, stk, caps); r.Stuck? || Sound(m, r)
  {
    assert stk != [] ==> FrameSound(m, stk[0]);
  }

  /** No capture instruction has an offset above the largest. */
  predicate SmallOffsets(c: Code) {
    forall i {:trigger c[i]} :: 0 <= i < |c| && c[i].op.Cap? ==> c[i].op.n <= MAXOFF
  }

  lemma StepSound(m: Mode, c: Code, b: nat, st: State)
    requires Sound(m, st) && SmallOffsets(c)
    ensures Step(m, c, b, st).Stuck? || Sound(m, Step(m, c, b, st))
  {
    match st
    case Run(p, s, stk, caps) =>
      if 0 <= p < |c| {
        var op := c[p].op;
        if IsStackOp(op) {
          StackSound(m, op, p + 1, p + c[p].off, s, stk, caps);
        } else {
          PlainSound(m, Prot(b, stk), op, s, caps);
        }
      }
    case Failing(stk) => assert stk != [] ==> FrameSound(m, stk[0]);
  }

  lemma {:induction false} RunSound(m: Mode, c: Code, b: nat, st: State, n: nat)
    requires Sound(m, st) && SmallOffsets(c)
    ensures Iter(m, c, b, st, n).Stuck? || Sound(m, Iter(m, c, b, st, n))
    decreases n
  {
    if n > 0 {
      StepSound(m, c, b, st);
      var st1 := Step(m, c, b, st);
      if st1.Stuck? { IterHalted(m, c, b, st1, n - 1); } else { RunSound(m, c, b, st1, n - 1); }
    }
  }

  /** A run whose code has a result never gets stuck, and is sound from its first to its last state. */
  lemma CodeSafe(c: Code, subj: seq<Byte>, start: nat, o: Out, n: nat)
    requires SmallOffsets(c) && start <= |subj| && RunsTo(c, subj, start, o)
    ensures Sound(Real(subj, map[]), StateAt(c, subj, start, n))
    ensures Halted(c, StateAt(c, subj, start, n)) ==> StateAt(c, subj, start, n) == Final(|c|, [], [], o)
  {
    var m := Real(subj, map[]);
    var fin, k := EndOfRun(c, subj, start, o);
    assert [] + (if o.Succ? then o.caps else []) == (if o.Succ? then o.caps else []);
    StateLive(c, subj, start, n, k, fin);
    RunSound(m, c, 0, Run(0, start, [], []), n);
  }

  lemma OkOffsets(c: Code)
    requires AllOk(c)
    ensures SmallOffsets(c)
  {
    forall i | 0 <= i < |c| && c[i].op.Cap?
      ensures c[i].op.n <= MAXOFF
    {
      assert InstrOk(c, i);
    }
  }

  /** Over all runs of an accepted grammar-free pattern: a commit finds a choice on top of the stack,
      a closing capture finds an opener that no pending choice still needs, every read is inside the
      subject or at its final NUL, and the run ends with an empty stack. */
  lemma PatternSafe(e: Expr, subj: seq<Byte>, start: nat, n: nat)
    requires Narrow(e) && GrammarFree(e) && Compile(e).Built? && start <= |subj|
    ensures
      var st := StateAt(Compile(e).code, subj, start, n);
      Sound(Real(subj, map[]), st) && (Halted(Compile(e).code, st) ==> st.stk == [])
  {
    var c, m := Compile(e).code, Real(subj, map[]);
    CompileGood(e);
    GoodBasics(c, e);
    Defined(e, m, start);
    assert Beh(m, c, start, Eval(e, m, start));
    BehRuns(c, subj, start, Eval(e, m, start));
    OkOffsets(c);
    CodeSafe(c, subj, start, Eval(e, m, start), n);
  }
}
