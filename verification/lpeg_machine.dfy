/** The matching machine as a step function on one fragment of code (lib/lpeg.c:410-634).

    A fragment halts when the program counter leaves it, when it fails with no entry left on
    the stack, or when it is `Stuck`: one of the machine's assertions fails, a byte outside the
    subject and its final NUL is read, or the in-place merge of a closing capture touches an entry
    that a pending choice still needs.  `b` is the number of entries the context of the fragment
    needs.  A pending choice keeps the whole capture list; LpegMatch shows that keeping its
    length is enough. */
module LpegMachine {
  import opened LpegCode
  import opened LpegCaptures
  import opened LpegSemantics

  datatype Frame = Back(p: int, s: int, caps: seq<Capture>) | RetTo(p: int)

  datatype State = Run(p: int, s: int, stk: seq<Frame>, caps: seq<Capture>)
                 | Failing(stk: seq<Frame>)
                 | Stuck

  /** How many captures the innermost pending choice will restore. */
  function Prot(b: nat, stk: seq<Frame>): nat {
    if stk == [] then b
    else if stk[0].Back? then |stk[0].caps|
    else Prot(b, stk[1..])
  }

  predicate CanRead(m: Mode, s: int) {
    m.Real? ==> 0 <= s <= |m.subj|
  }

  /** The byte at a readable position of a NUL-terminated subject. */
  function ByteAt(subj: seq<Byte>, s: int): Byte
    requires 0 <= s <= |subj|
  {
    if s < |subj| then subj[s] else 0
  }

  /** Whether a check passes; the plain set opcode does not look at the subject's end. */
  predicate Passes(m: Mode, k: CheckKind, s: int)
    requires CanRead(m, s)
  {
    m.Real? &&
    match k
    case KAny(n) => n <= |m.subj| - s
    case KChar(c) => ByteAt(m.subj, s) == c && s < |m.subj|
    case KSet(cs, nul) => ByteAt(m.subj, s) in cs && (nul ==> s < |m.subj|)
  }

  function SpanEnd(subj: seq<Byte>, cs: Charset, s: int): (t: int)
    requires 0 <= s <= |subj|
    ensures s <= t <= |subj|
    ensures t < |subj| ==> subj[t] !in cs
    ensures forall i :: s <= i < t ==> subj[i] in cs
    decreases |subj| - s
  {
    if s < |subj| && subj[s] in cs then SpanEnd(subj, cs, s + 1) else s
  }

  /** The effect of a capture instruction on the capture list, if it is allowed. */
  datatype CapResult = NewCaps(caps: seq<Capture>) | BadCap

  function DoCap(op: Op, prot: nat, s: int, caps: seq<Capture>): CapResult
    requires op.Cap?
  {
    if (op.kind == CCLOSE) != op.form.Close? then BadCap
    else
    match op.form
    case Full => NewCaps(caps + [Capture(s - op.n, op.idx, op.kind, op.n + 1)])
    case Empty => NewCaps(caps + [Capture(s - op.n, op.idx, op.kind, 1)])
    case Open => NewCaps(caps + [Capture(s - op.n, op.idx, op.kind, 0)])
    case Close =>
      if Waiting(caps) == 0 then BadCap
      else
        var last := caps[|caps| - 1];
        if last.siz == 0 && s - op.n - last.s < UCHAR_MAX then
          if |caps| <= prot || s - op.n < last.s then BadCap
          else NewCaps(caps[..|caps| - 1] + [last.(siz := s - op.n - last.s + 1)])
        else NewCaps(caps + [Capture(s - op.n, op.idx, op.kind, 1)])
  }

  predicate IsStackOp(op: Op) {
    op.Choice? || op.Call? || op.Ret? || op.Commit? || op.PartialCommit? || op.BackCommit? || op.FailTwice?
  }

  /** The effect of an instruction that leaves the stack alone. */
  datatype Move = Next(s: int, caps: seq<Capture>) | Dest(s: int, caps: seq<Capture>) | Lose | Wrong

  function Plain(m: Mode, prot: nat, op: Op, s: int, caps: seq<Capture>): Move
    requires !IsStackOp(op)
  {
    match op
    case Check(k) =>
      if !CanRead(m, s) then Wrong
      else if !Passes(m, k, s) then Lose
      else if CanRead(m, s + StepOf(k)) then Next(s + StepOf(k), caps)
      else Wrong
    case Test(k) =>
      if !CanRead(m, s) then Wrong
      else if !Passes(m, k, s) then Dest(s, caps)
      else if CanRead(m, s + StepOf(k)) then Next(s + StepOf(k), caps)
      else Wrong
    case Span(cs, nul) =>
      if !m.Real? then Next(s, caps)
      else if !CanRead(m, s) then Wrong
      else
        var t := SpanEnd(m.subj, cs, s);
        if !nul && t == |m.subj| && 0 in cs then Wrong else Next(t, caps)
    case Jmp => Dest(s, caps)
    case OpenCall(r) =>
      var o := CallOut(m, r, s);
      if o.Succ? then Next(o.pos, caps + o.caps)
      else if o.Failure? then Lose
      else Wrong
    case Fail(pred) => if !m.Real? && pred then Next(s, caps) else Lose
    case Cap(_, _, _, _) =>
      var r := DoCap(op, prot, s, caps);
      if r.NewCaps? then Next(s, r.caps) else Wrong
  }

  /** An instruction that works on the stack. */
  function OnStack(m: Mode, op: Op, next: int, dest: int, s: int, stk: seq<Frame>, caps: seq<Capture>): State
    requires IsStackOp(op)
  {
    match op
    case Choice(aux) => if CanRead(m, s - aux) then Run(next, s, [Back(dest, s - aux, caps)] + stk, caps) else Stuck
    case Call => Run(dest, s, [RetTo(next)] + stk, caps)
    case Ret => if stk != [] && stk[0].RetTo? then Run(stk[0].p, s, stk[1..], caps) else Stuck
    case Commit => if stk != [] && stk[0].Back? then Run(dest, s, stk[1..], caps) else Stuck
    case PartialCommit =>
      if m.Verify? && dest < next then Stuck  // without its table the verifier never gets to the end of a loop
      else if m.Table? && dest < next then
        if stk != [] && stk[0].Back? then Run(next, s, stk[1..], caps) else Stuck
      else if stk != [] && stk[0].Back? then Run(dest, s, [Back(stk[0].p, s, caps)] + stk[1..], caps)
      else Stuck
    case BackCommit => if stk != [] && stk[0].Back? then Run(dest, stk[0].s, stk[1..], caps) else Stuck
    case FailTwice =>
      if !m.Real? then Failing(stk)
      else if stk == [] then Stuck
      else Failing(stk[1..])
  }

  /** One instruction, given the addresses of the next one and of its jump target. */
  function Exec(m: Mode, b: nat, op: Op, next: int, dest: int, s: int, stk: seq<Frame>, caps: seq<Capture>): State {
    if IsStackOp(op) then OnStack(m, op, next, dest, s, stk, caps)
    else
      match Plain(m, Prot(b, stk), op, s, caps)
      case Next(s1, caps1) => Run(next, s1, stk, caps1)
      case Dest(s1, caps1) => Run(dest, s1, stk, caps1)
      case Lose => Failing(stk)
      case Wrong => Stuck
  }

  predicate Halted(c: Code, st: State) {
    match st
    case Run(p, _, _, _) => !(0 <= p < |c|)
    case Failing(stk) => stk == []
    case Stuck => true
  }

  function Step(m: Mode, c: Code, b: nat, st: State): State {
    match st
    case Stuck => Stuck
    case Failing(stk) =>
      if stk == [] then st
      else if stk[0].Back? then Run(stk[0].p, stk[0].s, stk[1..], stk[0].caps)
      else Failing(stk[1..])
    case Run(p, s, stk, caps) =>
      if 0 <= p < |c| then Exec(m, b, c[p].op, p + 1, p + c[p].off, s, stk, caps) else st
  }

  ghost function Iter(m: Mode, c: Code, b: nat, st: State, k: nat): State
    decreases k
  {
    if k == 0 then st else Iter(m, c, b, Step(m, c, b, st), k - 1)
  }

  ghost predicate Reach(m: Mode, c: Code, b: nat, st: State, st': State) {
    exists k: nat :: Iter(m, c, b, st, k) == st'
  }

  function Depth(st: State): nat {
    if st.Stuck? then 0 else |st.stk|
  }

  /** At some point of its run the code has `d` entries or more on the stack. */
  ghost predicate Grows(m: Mode, c: Code, b: nat, st: State, d: nat) {
    exists n: nat :: Depth(Iter(m, c, b, st, n)) >= d
  }

  lemma IterHalted(m: Mode, c: Code, b: nat, st: State, k: nat)
    requires Halted(c, st)
    ensures Iter(m, c, b, st, k) == st
    decreases k
  {
  }

  lemma IterAdd(m: Mode, c: Code, b: nat, st: State, j: nat, k: nat)
    ensures Iter(m, c, b, st, j + k) == Iter(m, c, b, Iter(m, c, b, st, j), k)
    decreases j
  {
    if j > 0 {
      IterAdd(m, c, b, Step(m, c, b, st), j - 1, k);
    }
  }

  lemma Tick(m: Mode, c: Code, b: nat, st: State)
    ensures Reach(m, c, b, st, Step(m, c, b, st))
  {
    assert Iter(m, c, b, st, 1) == Step(m, c, b, st);
  }

  lemma Stay(m: Mode, c: Code, b: nat, st: State)
    ensures Reach(m, c, b, st, st)
  {
    assert Iter(m, c, b, st, 0) == st;
  }

  lemma Chain(m: Mode, c: Code, b: nat, s0: State, s1: State, s2: State)
    requires Reach(m, c, b, s0, s1) && Reach(m, c, b, s1, s2)
    ensures Reach(m, c, b, s0, s2)
  {
    var j: nat :| Iter(m, c, b, s0, j) == s1;
    var k: nat :| Iter(m, c, b, s1, k) == s2;
    IterAdd(m, c, b, s0, j, k);
    assert Iter(m, c, b, s0, j + k) == s2;
  }

  /** One step, then a run. */
  lemma TickChain(m: Mode, c: Code, b: nat, st: State, st': State)
    requires Reach(m, c, b, Step(m, c, b, st), st')
    ensures Reach(m, c, b, st, st')
  {
    Tick(m, c, b, st);
    Chain(m, c, b, st, Step(m, c, b, st), st');
  }

  /** A run has at most one end. */
  lemma Deterministic(m: Mode, c: Code, b: nat, st: State, s1: State, s2: State)
    requires Reach(m, c, b, st, s1) && Reach(m, c, b, st, s2)
    requires Halted(c, s1) && Halted(c, s2)
    ensures s1 == s2
  {
    var j: nat :| Iter(m, c, b, st, j) == s1;
    var k: nat :| Iter(m, c, b, st, k) == s2;
    if j <= k {
      IterAdd(m, c, b, st, j, k - j);
      IterHalted(m, c, b, s1, k - j);
    } else {
      IterAdd(m, c, b, st, k, j - k);
      IterHalted(m, c, b, s2, j - k);
    }
  }

  /** What is left of a run to its end after its first step. */
  lemma AfterStep(m: Mode, c: Code, b: nat, st: State, fin: State)
    requires Reach(m, c, b, st, fin) && Halted(c, fin)
    ensures Reach(m, c, b, Step(m, c, b, st), fin)
  {
    var k: nat :| Iter(m, c, b, st, k) == fin;
    if k == 0 {
      assert Step(m, c, b, st) == st;
    } else {
      assert Iter(m, c, b, Step(m, c, b, st), k - 1) == fin;
    }
  }

  // ----- moving a fragment -----

  function ShiftFrame(f: Frame, at: int): Frame {
    if f.Back? then f.(p := f.p + at) else RetTo(f.p + at)
  }

  function ShiftStk(stk: seq<Frame>, at: int): (r: seq<Frame>)
    ensures |r| == |stk| && forall i :: 0 <= i < |stk| ==> r[i] == ShiftFrame(stk[i], at)
  {
    seq(|stk|, i requires 0 <= i < |stk| => ShiftFrame(stk[i], at))
  }

  /** The state of a fragment as a state of the code that holds it at `at`, above the stack `base`. */
  function Shift(st: State, at: int, base: seq<Frame>): State {
    match st
    case Stuck => Stuck
    case Failing(stk) => Failing(ShiftStk(stk, at) + base)
    case Run(p, s, stk, caps) => Run(p + at, s, ShiftStk(stk, at) + base, caps)
  }

  lemma ProtShift(b: nat, bP: nat, stk: seq<Frame>, at: int, base: seq<Frame>)
    requires Prot(bP, base) <= b
    ensures Prot(bP, ShiftStk(stk, at) + base) <= Prot(b, stk)
    ensures Prot(bP, base) == b ==> Prot(bP, ShiftStk(stk, at) + base) == Prot(b, stk)
  {
    var t := ShiftStk(stk, at) + base;
    if stk == [] {
      assert t == base;
    } else if stk[0].Back? {
      assert t[0] == ShiftFrame(stk[0], at);
    } else {
      assert t[1..] == ShiftStk(stk[1..], at) + base;
      ProtShift(b, bP, stk[1..], at, base);
    }
  }

  lemma PushShift(f: Frame, stk: seq<Frame>, at: int, base: seq<Frame>)
    ensures [ShiftFrame(f, at)] + (ShiftStk(stk, at) + base) == ShiftStk([f] + stk, at) + base
  {
  }

  lemma PopShift(stk: seq<Frame>, at: int, base: seq<Frame>)
    requires stk != []
    ensures
      var t := ShiftStk(stk, at) + base;
      t != [] && t[0] == ShiftFrame(stk[0], at) && t[1..] == ShiftStk(stk[1..], at) + base
  {
  }

  lemma OnStackShift(m: Mode, op: Op, next: int, dest: int, s: int, stk: seq<Frame>, caps: seq<Capture>,
                     at: int, base: seq<Frame>)
    requires IsStackOp(op)
    ensures
      var r := OnStack(m, op, next, dest, s, stk, caps);
      (!r.Stuck? || base == []) ==>
        OnStack(m, op, next + at, dest + at, s, ShiftStk(stk, at) + base, caps) == Shift(r, at, base)
  {
    if op.Choice? {
      PushShift(Back(dest, s - op.aux, caps), stk, at, base);
    } else if op.Call? {
      PushShift(RetTo(next), stk, at, base);
    } else if stk == [] {
      assert ShiftStk(stk, at) + base == base;
    } else {
      PopShift(stk, at, base);
      if op.PartialCommit? && stk[0].Back? {
        PushShift(Back(stk[0].p, s, caps), stk[1..], at, base);
      }
    }
  }

  /** A closing capture that may run under more protection may run under less. */
  lemma PlainProt(m: Mode, prot: nat, prot': nat, op: Op, s: int, caps: seq<Capture>)
    requires !IsStackOp(op) && prot' <= prot
    ensures !Plain(m, prot, op, s, caps).Wrong? ==> Plain(m, prot', op, s, caps) == Plain(m, prot, op, s, caps)
  {
  }

  lemma PlainShift(m: Mode, b: nat, bP: nat, op: Op, next: int, dest: int, s: int, stk: seq<Frame>, caps: seq<Capture>,
                   at: int, base: seq<Frame>, stk': seq<Frame>)
    requires !IsStackOp(op) && stk' == ShiftStk(stk, at) + base && Prot(bP, stk') <= Prot(b, stk)
    requires !Plain(m, Prot(b, stk), op, s, caps).Wrong? || Prot(bP, stk') == Prot(b, stk)
    ensures Exec(m, bP, op, next + at, dest + at, s, stk', caps) ==
      Shift(Exec(m, b, op, next, dest, s, stk, caps), at, base)
  {
    PlainProt(m, Prot(b, stk), Prot(bP, stk'), op, s, caps);
  }

  lemma ExecShift(m: Mode, b: nat, bP: nat, op: Op, next: int, dest: int, s: int, stk: seq<Frame>, caps: seq<Capture>,
                  at: int, base: seq<Frame>)
    requires Prot(bP, base) <= b
    ensures
      var r := Exec(m, b, op, next, dest, s, stk, caps);
      (!r.Stuck? || (base == [] && bP == b)) ==>
        Exec(m, bP, op, next + at, dest + at, s, ShiftStk(stk, at) + base, caps) == Shift(r, at, base)
  {
    ProtShift(b, bP, stk, at, base);
    if IsStackOp(op) {
      OnStackShift(m, op, next, dest, s, stk, caps, at, base);
    } else {
      var r := Exec(m, b, op, next, dest, s, stk, caps);
      if !r.Stuck? || (base == [] && bP == b) {
        PlainShift(m, b, bP, op, next, dest, s, stk, caps, at, base, ShiftStk(stk, at) + base);
      }
    }
  }

  lemma StepShift(m: Mode, r: Code, P: Code, at: int, b: nat, bP: nat, st: State, base: seq<Frame>)
    requires 0 <= at && at + |r| <= |P| && P[at..at + |r|] == r
    requires Prot(bP, base) <= b
    requires !Halted(r, st)
    requires !Step(m, r, b, st).Stuck? || (base == [] && bP == b)
    ensures Step(m, P, bP, Shift(st, at, base)) == Shift(Step(m, r, b, st), at, base)
  {
    match st
    case Run(p, s, stk, caps) =>
      assert P[at + p] == P[at..at + |r|][p];
      ExecShift(m, b, bP, r[p].op, p + 1, p + r[p].off, s, stk, caps, at, base);
      assert p + 1 + at == (p + at) + 1 && p + r[p].off + at == (p + at) + r[p].off;
    case Failing(stk) =>
      var t := ShiftStk(stk, at) + base;
      assert t[0] == ShiftFrame(stk[0], at);
      assert t[1..] == ShiftStk(stk[1..], at) + base;
  }

  /** A run of a fragment is a run of any code that holds it. */
  lemma Embed(m: Mode, r: Code, P: Code, at: int, b: nat, bP: nat, st: State, k: nat, base: seq<Frame>)
    requires 0 <= at && at + |r| <= |P| && P[at..at + |r|] == r
    requires Prot(bP, base) <= b
    requires !Iter(m, r, b, st, k).Stuck?
    ensures Reach(m, P, bP, Shift(st, at, base), Shift(Iter(m, r, b, st, k), at, base))
    decreases k
  {
    if k == 0 || Halted(r, st) {
      IterHaltedOr(m, r, b, st, k);
      Stay(m, P, bP, Shift(st, at, base));
    } else {
      var st1 := Step(m, r, b, st);
      if st1.Stuck? { IterHalted(m, r, b, st1, k - 1); }
      StepShift(m, r, P, at, b, bP, st, base);
      Embed(m, r, P, at, b, bP, st1, k - 1, base);
      TickChain(m, P, bP, Shift(st, at, base), Shift(Iter(m, r, b, st, k), at, base));
    }
  }

  lemma IterHaltedOr(m: Mode, c: Code, b: nat, st: State, k: nat)
    requires k == 0 || Halted(c, st)
    ensures Iter(m, c, b, st, k) == st
  {
    if Halted(c, st) { IterHalted(m, c, b, st, k); }
  }
}
