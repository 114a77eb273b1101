/** Stack discipline over all runs, grammars included, whether they end or not: the machine's control and stack,
    with the outcome of every check left open. */
module LpegStack {
  import opened LpegCode
  import opened LpegSemantics
  import opened LpegMachine
  import opened LpegBehaviour
  import opened LpegCompile
  import opened LpegInvariant
  import opened LpegBasic
  import opened LpegUnion
  import opened LpegLoops
  import opened LpegVerify
  import opened LpegCompiler
  import opened LpegMatch
  import opened LpegHeights

  // ----- control and stack -----

  datatype Config = At(p: int, stk: seq<Slot>) | Losing(stk: seq<Slot>)

  /** The newest slot is a pending choice. */
  predicate OnChoice(stk: seq<Slot>) {
    stk != [] && stk[0].pending
  }

  /** The newest slot is a return address. */
  predicate OnCall(stk: seq<Slot>) {
    stk != [] && !stk[0].pending
  }

  /** What one instruction may make of the stack; no move where the machine's assertion would fail. */
  predicate OpMoves(op: Op, next: int, dest: int, stk: seq<Slot>, b: Config) {
    match op
    case Check(_) => b == At(next, stk) || b == Losing(stk)
    case Test(_) => b == At(next, stk) || b == At(dest, stk)
    case Span(_, _) => b == At(next, stk)
    case Cap(_, _, _, _) => b == At(next, stk)
    case OpenCall(_) => b == At(next, stk) || b == Losing(stk)
    case Jmp => b == At(dest, stk)
    case Choice(_) => b == At(next, [Slot(dest, true)] + stk)
    case Call => b == At(dest, [Slot(next, false)] + stk)
    case Ret => OnCall(stk) && b == At(stk[0].p, stk[1..])
    case Commit => OnChoice(stk) && b == At(dest, stk[1..])
    case PartialCommit => OnChoice(stk) && b == At(dest, stk)
    case BackCommit => OnChoice(stk) && b == At(dest, stk[1..])
    case FailTwice => OnChoice(stk) && b == Losing(stk[1..])
    case Fail(_) => b == Losing(stk)
  }

  predicate Moves(P: Code, a: Config, b: Config) {
    match a
    case At(p, stk) => 0 <= p < |P| && OpMoves(P[p].op, p + 1, p + P[p].off, stk, b)
    case Losing(stk) => stk != [] && b == if stk[0].pending then At(stk[0].p, stk[1..]) else Losing(stk[1..])
  }

  /** What the machine's assertions ask for: a commit finds a choice on top, a return finds a call, and the end
      is reached with nothing left. */
  predicate Ready(P: Code, a: Config) {
    a.At? ==>
      && 0 <= a.p <= |P| && (a.p == |P| ==> a.stk == [])
      && (a.p < |P| ==>
            var op := P[a.p].op;
            && (op.Commit? || op.PartialCommit? || op.BackCommit? || op.FailTwice? ==> OnChoice(a.stk))
            && (op.Ret? ==> OnCall(a.stk)))
  }

  // ----- the machine's steps are such moves -----

  function SlotsOf(stk: seq<Frame>): (r: seq<Slot>)
    ensures |r| == |stk| && forall i {:trigger r[i]} :: 0 <= i < |stk| ==> r[i] == SlotOf(stk[i])
  {
    seq(|stk|, i requires 0 <= i < |stk| => SlotOf(stk[i]))
  }

  function ConfigOf(st: State): Config
    requires !st.Stuck?
  {
    if st.Run? then At(st.p, SlotsOf(st.stk)) else Losing(SlotsOf(st.stk))
  }

  /** Every step of the machine on a subject is a move, unless it is a second failure that drops a return
      address, which no stack of a compiled pattern allows. */
  lemma StepMoves(m: Mode, P: Code, b: nat, st: State)
    requires m.Real? && !Halted(P, st) && !Step(m, P, b, st).Stuck? && Ready(P, ConfigOf(st))
    ensures Moves(P, ConfigOf(st), ConfigOf(Step(m, P, b, st)))
  {
    if st.Run? {
      var (op, stk, dest) := (P[st.p].op, st.stk, st.p + P[st.p].off);
      if IsStackOp(op) {
        StackMoves(m, op, st.p + 1, dest, st.s, stk, st.caps);
      }
    } else {
      assert SlotsOf(st.stk[1..]) == SlotsOf(st.stk)[1..];
    }
  }

  lemma StackMoves(m: Mode, op: Op, next: int, dest: int, s: int, stk: seq<Frame>, caps: seq<Capture>)
    requires m.Real? && IsStackOp(op) && !OnStack(m, op, next, dest, s, stk, caps).Stuck?
    requires op.FailTwice? ==> OnChoice(SlotsOf(stk))
    ensures OpMoves(op, next, dest, SlotsOf(stk), ConfigOf(OnStack(m, op, next, dest, s, stk, caps)))
  {
    if op.Choice? {
      assert SlotsOf([Back(dest, s - op.aux, caps)] + stk) == [Slot(dest, true)] + SlotsOf(stk);
    } else if op.Call? {
      assert SlotsOf([RetTo(next)] + stk) == [Slot(next, false)] + SlotsOf(stk);
    } else if op.PartialCommit? {
      assert SlotsOf([Back(stk[0].p, s, caps)] + stk[1..]) == SlotsOf(stk);
    } else {
      assert SlotsOf(stk[1..]) == SlotsOf(stk)[1..];
    }
  }

  // ----- programs with fixed heights -----

  /** Address `j` belongs to the same activation as `i`, `d` choices up. */
  predicate Same(h: seq<nat>, main: seq<bool>, i: nat, j: int, d: int) {
    0 <= i < |h| == |main| && 0 <= j < |h| && main[j] == main[i] && h[j] == h[i] + d
  }

  predicate PlacedAt(P: Code, h: seq<nat>, main: seq<bool>, i: nat)
    requires i < |P| && |h| == |main| == |P| + 1
  {
    var t := i + P[i].off;
    match P[i].op
    case Choice(_) => Same(h, main, i, i + 1, 1) && Same(h, main, i, t, 0)
    case Test(_) => Same(h, main, i, i + 1, 0) && Same(h, main, i, t, 0)
    case Jmp => Same(h, main, i, t, 0)
    case Commit => Same(h, main, i, t, -1)
    case BackCommit => Same(h, main, i, t, -1)
    case PartialCommit => h[i] > 0 && Same(h, main, i, t, 0)
    case FailTwice => h[i] > 0
    case Fail(_) => true
    case Call => Same(h, main, i, i + 1, 0) && 0 <= t <= |P| && h[t] == 0 && !main[t]
    case Ret => h[i] == 0 && !main[i]
    case _ => Same(h, main, i, i + 1, 0)
  }

  /** `main` tells the addresses of the pattern itself from those of the rules it calls. */
  ghost predicate Program(P: Code, h: seq<nat>, main: seq<bool>) {
    && |h| == |main| == |P| + 1 && main[0] && main[|P|] && h[0] == 0 && h[|P|] == 0
    && forall i {:trigger PlacedAt(P, h, main, i)} :: 0 <= i < |P| ==> PlacedAt(P, h, main, i)
  }

  /** The stack below an address: `k` choices of its own activation, then its return address, and so on. */
  predicate Fits(h: seq<nat>, main: seq<bool>, stk: seq<Slot>, k: nat, top: bool)
    decreases stk
  {
    |h| == |main| &&
    if k > 0 then
      stk != [] && stk[0].pending && 0 <= stk[0].p < |h| && h[stk[0].p] == k - 1 && main[stk[0].p] == top &&
      Fits(h, main, stk[1..], k - 1, top)
    else if top then stk == []
    else
      stk != [] && !stk[0].pending && 0 <= stk[0].p < |h| &&
      Fits(h, main, stk[1..], h[stk[0].p], main[stk[0].p])
  }

  ghost predicate FitsConfig(h: seq<nat>, main: seq<bool>, a: Config) {
    match a
    case At(p, stk) => 0 <= p < |h| == |main| && Fits(h, main, stk, h[p], main[p])
    case Losing(stk) => exists k: nat, top: bool :: Fits(h, main, stk, k, top)
  }

  lemma FitsReady(P: Code, h: seq<nat>, main: seq<bool>, a: Config)
    requires Program(P, h, main) && FitsConfig(h, main, a)
    ensures Ready(P, a)
  {
    if a.At? && a.p < |P| { assert PlacedAt(P, h, main, a.p); }
  }

  lemma OpFits(P: Code, h: seq<nat>, main: seq<bool>, p: nat, stk: seq<Slot>, b: Config)
    requires Program(P, h, main) && p < |P| && Fits(h, main, stk, h[p], main[p])
    requires OpMoves(P[p].op, p + 1, p + P[p].off, stk, b)
    ensures FitsConfig(h, main, b)
  {
    assert PlacedAt(P, h, main, p);
    var (op, t) := (P[p].op, p + P[p].off);
    if op.Choice? {
      assert ([Slot(t, true)] + stk)[1..] == stk;
    } else if op.Call? {
      assert ([Slot(p + 1, false)] + stk)[1..] == stk;
    }
  }

  lemma MovesFits(P: Code, h: seq<nat>, main: seq<bool>, a: Config, b: Config)
    requires Program(P, h, main) && FitsConfig(h, main, a) && Moves(P, a, b)
    ensures FitsConfig(h, main, b)
  {
    match a
    case At(p, stk) => OpFits(P, h, main, p, stk, b);
    case Losing(stk) =>
      var k: nat, top: bool :| Fits(h, main, stk, k, top);
      assert Fits(h, main, stk[1..], if k > 0 then k - 1 else h[stk[0].p], if k > 0 then top else main[stk[0].p]);
  }

  /** With such a stack the machine's own stack instructions do not get stuck. */
  lemma StackOpWorks(m: Mode, P: Code, b: nat, st: State)
    requires m.Real? && st.Run? && 0 <= st.p < |P| && Ready(P, ConfigOf(st))
    requires IsStackOp(P[st.p].op) && !P[st.p].op.Choice?
    ensures !Step(m, P, b, st).Stuck?
  {
    assert |SlotsOf(st.stk)| == |st.stk|;
  }

  /** The state is stuck, or its stack fits. */
  ghost predicate FitsState(h: seq<nat>, main: seq<bool>, st: State) {
    st.Stuck? || FitsConfig(h, main, ConfigOf(st))
  }

  lemma StepFits(P: Code, h: seq<nat>, main: seq<bool>, m: Mode, b: nat, st: State)
    requires Program(P, h, main) && m.Real? && FitsState(h, main, st)
    ensures FitsState(h, main, Step(m, P, b, st))
  {
    if !st.Stuck? {
      FitsReady(P, h, main, ConfigOf(st));
      var st1 := Step(m, P, b, st);
      if !Halted(P, st) && !st1.Stuck? {
        StepMoves(m, P, b, st);
        MovesFits(P, h, main, ConfigOf(st), ConfigOf(st1));
      }
    }
  }

  lemma {:induction false} IterFits(P: Code, h: seq<nat>, main: seq<bool>, m: Mode, b: nat, st: State, n: nat)
    requires Program(P, h, main) && m.Real? && FitsState(h, main, st)
    ensures FitsState(h, main, Iter(m, P, b, st, n))
    decreases n
  {
    if n > 0 {
      StepFits(P, h, main, m, b, st);
      IterFits(P, h, main, m, b, Step(m, P, b, st), n - 1);
    }
  }

  lemma StartFits(P: Code, h: seq<nat>, main: seq<bool>, s: int, caps: seq<Capture>)
    requires Program(P, h, main)
    ensures FitsState(h, main, Run(0, s, [], caps))
  {
  }

  /** Where a run with fixed heights has ended, nothing is pending. */
  lemma EndFits(P: Code, h: seq<nat>, main: seq<bool>, st: State)
    requires Program(P, h, main) && FitsState(h, main, st) && Halted(P, st)
    ensures st.Stuck? || (st.stk == [] && (st.Run? ==> st.p == |P|))
  {
    if !st.Stuck? {
      FitsReady(P, h, main, ConfigOf(st));
      assert |SlotsOf(st.stk)| == |st.stk|;
    }
  }

  /** Whatever the subject, after any number of steps no stack instruction of the machine but a choice gets
      stuck, and a run that has ended has nothing pending. */
  lemma RunReady(P: Code, h: seq<nat>, main: seq<bool>, subj: seq<Byte>, s: int, n: nat)
    requires Program(P, h, main)
    ensures StackSafe(P, subj, StateAt(P, subj, s, n))
  {
    var (m, st0) := (Real(subj, map[]), Run(0, s, [], []));
    StartFits(P, h, main, s, []);
    IterFits(P, h, main, m, 0, st0, n);
    var st := StateAt(P, subj, s, n);
    if Halted(P, st) {
      EndFits(P, h, main, st);
    } else {
      FitsReady(P, h, main, ConfigOf(st));
      if st.Run? && IsStackOp(P[st.p].op) && !P[st.p].op.Choice? { StackOpWorks(m, P, 0, st); }
    }
  }

  ghost predicate StackSafe(P: Code, subj: seq<Byte>, st: State) {
    && (st.Run? && 0 <= st.p < |P| && IsStackOp(P[st.p].op) && !P[st.p].op.Choice? ==>
          !Step(Real(subj, map[]), P, 0, st).Stuck?)
    && (Halted(P, st) && !st.Stuck? ==> st.stk == [] && (st.Run? ==> st.p == |P|))
  }

  // ----- patterns -----

  lemma LoopCodeLevel(c: Code, n: nat, loop: Code)
    requires Level(c) && Level(loop)
    ensures Level(OptimizeLoop(Times(c, n) + loop))
  {
    LoopLevel(c, n, loop);
  }

  lemma SpanLevel(c: Code, n: nat, cs: Charset)
    requires Level(c)
    ensures Level(RepeatCharset(cs, c, n))
  {
    OneLevel(Instr(Span(cs, 0 in cs), 0));
    TimesLevel(c, n);
    ConcatLevel(Times(c, n), [Instr(Span(cs, 0 in cs), 0)]);
  }

  lemma HeadRepLevel(c: Code, n: nat)
    requires Level(c) && IsHeadFail(c)
    ensures Level(OptimizeLoop(RepeatHeadFail(c, n)))
  {
    HeadLoopLevel(c);
    LoopCodeLevel(c, n, HeadLoop(c));
    assert RepeatHeadFail(c, n) == Times(c, n) + HeadLoop(c);
  }

  lemma ChoiceRepLevel(c: Code, n: nat)
    requires Level(c)
    ensures Level(OptimizeLoop(Repeats(c, n)))
  {
    ChoiceLoopLevel(c);
    LoopCodeLevel(c, n, ChoiceLoop(c));
    assert Repeats(c, n) == Times(c, n) + ChoiceLoop(c);
  }

  lemma RepLevel(c: Code, n: int)
    requires WF(c) && Level(c) && RepCode(c, n).Built?
    ensures Level(RepCode(c, n).code)
  {
    if n < 0 {
      AtMostLevel(c, -n);
    } else {
      SpanLevel(c, n, if ToCharset(c).IsCharset? then ToCharset(c).cs else {});
      ChoiceRepLevel(c, n);
      if IsHeadFail(c) { HeadRepLevel(c, n); }
    }
  }

  lemma AtMostLevel(c: Code, n: nat)
    requires WF(c) && Level(c) && n > 0
    ensures Level(AtMost(c, n))
  {
    if IsHeadFail(c) { OptionalHeadFailLevel(c, n); } else { OptionalsLevel(c, n); }
  }

  lemma SeqLevel(c1: Code, c2: Code)
    requires Level(c1) && Level(c2)
    ensures Level(SeqCode(c1, c2))
  {
    if IsAny(c1) && IsAny(c2) {
      AnyLevel(c1[0].op.k.n + c2[0].op.k.n);
    } else {
      ConcatLevel(c1, c2);
      OptCapsLevel(c1 + c2);
    }
  }

  lemma {:induction false} AnyLevel(n: nat)
    ensures Level(AnyCode(n))
    decreases n
  {
    AnyChecks(n);
    ChecksLevel(AnyCode(n));
  }

  lemma {:induction false} AnyChecks(n: nat)
    ensures forall i {:trigger AnyCode(n)[i]} :: 0 <= i < |AnyCode(n)| ==> AnyCode(n)[i].op.Check?
    decreases n
  {
    if n > UCHAR_MAX { AnyChecks(n - UCHAR_MAX); }
  }

  lemma {:induction false} LitChecks(bytes: seq<Byte>)
    ensures forall i {:trigger LitCode(bytes)[i]} :: 0 <= i < |LitCode(bytes)| ==> LitCode(bytes)[i].op.Check?
    decreases |bytes|
  {
    if bytes != [] { LitChecks(bytes[1..]); }
  }

  lemma NumLevel(n: int)
    ensures Level(NumCode(n))
  {
    if n == 0 {
      NoneLevel();
    } else if n > 0 {
      AnyLevel(n);
    } else {
      NumLackLevel(-n);
    }
  }

  lemma NumLackLevel(n: int)
    requires n >= 1
    ensures Level(NumCode(-n))
  {
    if n <= UCHAR_MAX {
      var c := NumCode(-n);
      assert HeightAt(c, [0, 0, 0], 0) && HeightAt(c, [0, 0, 0], 1);
      assert Leveled(c, [0, 0, 0]);
    } else {
      AnyLevel(n - UCHAR_MAX);
      BigLackLevel(AnyCode(n - UCHAR_MAX));
      BigLackIs(n);
    }
  }

  function BigLack(a: Code): Code {
    [Instr(Test(KAny(UCHAR_MAX)), |a| + 3), Instr(Choice(UCHAR_MAX), |a| + 2)] + a + [Instr(FailTwice, 0)]
  }

  lemma BigLackIs(n: int)
    requires n > UCHAR_MAX
    ensures NumCode(-n) == BigLack(AnyCode(n - UCHAR_MAX))
  {
  }

  lemma BigLackLevel(a: Code)
    requires Level(a)
    ensures Level(BigLack(a))
  {
    var ha: seq<nat> :| Leveled(a, ha);
    LackLeveled(BigLack(a), [0, 0] + Up(ha, 1) + [0], a, ha);
  }

  lemma LackLeveled(P: Code, h: seq<nat>, a: Code, ha: seq<nat>)
    requires Leveled(a, ha) && |P| == |a| + 3 && |h| == |P| + 1
    requires P[0].op.Test? && P[0].off == |a| + 3 && P[1].op.Choice? && P[1].off == |a| + 2 && P[|a| + 2].op.FailTwice?
    requires forall i {:trigger a[i]} :: 0 <= i < |a| ==> P[2 + i] == a[i]
    requires h[0] == 0 && h[1] == 0 && h[|P|] == 0 && forall j {:trigger ha[j]} :: 0 <= j <= |a| ==>
      h[2 + j] == ha[j] + 1
    ensures Leveled(P, h)
  {
    Placed(P, h, 2, a, ha, 1, 0, |a|);
    assert h[2 + 0] == ha[0] + 1 && h[2 + |a|] == ha[|a|] + 1;
    assert HeightAt(P, h, 0) && HeightAt(P, h, 1) && HeightAt(P, h, |a| + 2);
  }

  lemma CaptureLevel(c: Code, kind: PattKind, idx: int)
    requires Level(c)
    ensures Level(CaptureCode(c, kind, idx))
  {
    var (cnt, n) := SkipChecks(c, 0, MAXOFF);
    if cnt == |c| {
      OneLevel(Instr(Cap(Full, kind, idx, n), 0));
      ConcatLevel(c, [Instr(Cap(Full, kind, idx, n), 0)]);
    } else {
      var open, close := Instr(Cap(Open, kind, idx, 0), 0), Instr(Cap(Close, CCLOSE, 0, 0), 0);
      OneLevel(open);
      OneLevel(close);
      ConcatLevel([open], c);
      ConcatLevel([open] + c, [close]);
      OptCapsLevel([open] + c + [close]);
    }
  }

  /** Every pattern the constructors build has fixed heights. */
  lemma {:induction false} CompileLevel(e: Expr)
    requires Narrow(e) && Compile(e).Built?
    ensures Level(Compile(e).code)
    decreases e
  {
    match e
    case Lit(bytes) =>
      LitChecks(bytes);
      ChecksLevel(LitCode(bytes));
    case Num(n) => NumLevel(n);
    case Never => OneLevel(Instr(Fail(false), 0));
    case CharSet(cs) => OneLevel(Instr(Check(SetCheck(cs)), 0));
    case NonTerm(r) => OneLevel(Instr(OpenCall(r), 0));
    case Mark(kind, idx) => OneLevel(Instr(Cap(Empty, kind, idx, 0), 0));
    case Seq(e1, e2) =>
      CompileLevel(e1);
      CompileLevel(e2);
      SeqLevel(Compile(e1).code, Compile(e2).code);
    case Alt(e1, e2) =>
      CompileLevel(e1);
      CompileLevel(e2);
      CompileGood(e1);
      CompileGood(e2);
      UnionLevel(Compile(e1).code, e1, Compile(e2).code, e2);
    case Diff(e1, e2) =>
      CompileLevel(e1);
      CompileLevel(e2);
      CompileGood(e1);
      CompileGood(e2);
      GoodBasics(Compile(e1).code, e1);
      GoodBasics(Compile(e2).code, e2);
      DiffLevel(Compile(e1).code, Compile(e2).code);
    case And(e1) =>
      CompileLevel(e1);
      AndLevel(Compile(e1).code);
    case Rep(e1, n) =>
      CompileLevel(e1);
      CompileGood(e1);
      GoodBasics(Compile(e1).code, e1);
      RepLevel(Compile(e1).code, n);
    case Grab(e1, kind, idx) =>
      CompileLevel(e1);
      CaptureLevel(Compile(e1).code, kind, idx);
  }

  lemma PatternProgram(c: Code, h: seq<nat>)
    requires Leveled(c, h)
    ensures Program(c, h, seq(|h|, _ => true))
  {
    var main := seq(|h|, _ => true);
    forall i | 0 <= i < |c|
      ensures PlacedAt(c, h, main, i)
    {
      assert HeightAt(c, h, i);
    }
  }

  /** On every subject, over all runs of a compiled pattern, no stack assertion of the machine fails. */
  lemma PatternReady(e: Expr, subj: seq<Byte>, s: int, n: nat)
    requires Narrow(e) && Compile(e).Built?
    ensures StackSafe(Compile(e).code, subj, StateAt(Compile(e).code, subj, s, n))
  {
    var c := Compile(e).code;
    CompileLevel(e);
    var h: seq<nat> :| Leveled(c, h);
    PatternProgram(c, h);
    RunReady(c, h, seq(|h|, _ => true), subj, s, n);
  }
}
