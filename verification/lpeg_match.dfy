/** `match`: the machine as the program runs it, with a fixed stack array, capture entries in a growing
    array, and capture levels instead of saved lists (lib/lpeg.c:410-634). */
module LpegMatch {
  import opened LpegCode
  import opened LpegSemantics
  import opened LpegMachine
  import opened LpegBehaviour
  import opened LpegCompile

  const GIVEUP: int := -1
  const IMAXCAPTURES: nat := 600

  /** An entry of the backtrack stack: a pending alternative, or a return address (whose `s` is NULL). */
  datatype Entry = Pending(p: int, s: int, caplevel: nat) | Return(p: int)

  datatype MatchResult =
    | Matched(end: int, caps: seq<Capture>)
    | NoMatch
    | TooManyPending  // "too many pending calls/choices"

  function EntryOf(f: Frame): Entry {
    if f.Back? then Pending(f.p, f.s, |f.caps|) else Return(f.p)
  }

  /** The stack array for the frames of the machine, above the give-up entry. */
  function Entries(stk: seq<Frame>, start: int): (r: seq<Entry>)
    ensures |r| == |stk| + 1
  {
    if stk == [] then [Pending(GIVEUP, start, 0)] else Entries(stk[1..], start) + [EntryOf(stk[0])]
  }

  /** Every pending choice saved a prefix of what is captured now, and of what later choices saved. */
  predicate Nested(stk: seq<Frame>, caps: seq<Capture>) {
    stk == [] ||
    if stk[0].Back? then stk[0].caps <= caps && Nested(stk[1..], stk[0].caps) else Nested(stk[1..], caps)
  }

  ghost predicate NestedState(st: State) {
    match st
    case Run(_, _, stk, caps) => Nested(stk, caps)
    case Failing(stk) => exists caps: seq<Capture> :: Nested(stk, caps)
    case Stuck => true
  }

  lemma NestedLonger(stk: seq<Frame>, caps: seq<Capture>, caps': seq<Capture>)
    requires Nested(stk, caps) && caps <= caps'
    ensures Nested(stk, caps')
  {
  }

  lemma NestedTail(stk: seq<Frame>, caps: seq<Capture>)
    requires Nested(stk, caps) && stk != []
    ensures Nested(stk[1..], caps)
  {
    if stk[0].Back? { NestedLonger(stk[1..], stk[0].caps, caps); }
  }

  /** A list that agrees with another up to what the innermost choice saved is nested as well. */
  lemma NestedProt(stk: seq<Frame>, caps: seq<Capture>, caps': seq<Capture>)
    requires Nested(stk, caps)
    requires Prot(0, stk) <= |caps'| && (forall i :: 0 <= i < Prot(0, stk) && i < |caps| ==> caps'[i] == caps[i])
    ensures Nested(stk, caps')
  {
    if stk != [] {
      if stk[0].Back? {
        assert stk[0].caps <= caps';
      } else {
        NestedProt(stk[1..], caps, caps');
      }
    }
  }

  lemma NestedPlain(m: Mode, op: Op, s: int, stk: seq<Frame>, caps: seq<Capture>)
    requires !IsStackOp(op) && Nested(stk, caps)
    ensures
      var r := Plain(m, Prot(0, stk), op, s, caps);
      (r.Next? || r.Dest?) ==> Nested(stk, r.caps)
  {
    var prot := Prot(0, stk);
    var r := Plain(m, prot, op, s, caps);
    if r.Next? || r.Dest? {
      if op.Cap? && op.form.Close? && |r.caps| == |caps| {
        ProtBound(stk, caps);
        NestedProt(stk, caps, r.caps);
      } else {
        assert caps <= r.caps;
        NestedLonger(stk, caps, r.caps);
      }
    }
  }

  lemma ProtBound(stk: seq<Frame>, caps: seq<Capture>)
    requires Nested(stk, caps)
    ensures Prot(0, stk) <= |caps|
  {
  }

  lemma NestedOnStack(m: Mode, op: Op, next: int, dest: int, s: int, stk: seq<Frame>, caps: seq<Capture>)
    requires IsStackOp(op) && Nested(stk, caps)
    ensures NestedState(OnStack(m, op, next, dest, s, stk, caps))
  {
    match op
    case Choice(aux) => assert ([Back(dest, s - aux, caps)] + stk)[1..] == stk;
    case Call => assert ([RetTo(next)] + stk)[1..] == stk;
    case PartialCommit =>
      if stk != [] && stk[0].Back? {
        assert ([Back(stk[0].p, s, caps)] + stk[1..])[1..] == stk[1..];
        NestedLonger(stk[1..], stk[0].caps, caps);
      }
    case Commit => if stk != [] && stk[0].Back? { NestedLonger(stk[1..], stk[0].caps, caps); }
    case BackCommit => if stk != [] && stk[0].Back? { NestedLonger(stk[1..], stk[0].caps, caps); }
    case FailTwice => if stk != [] && stk[0].Back? { assert Nested(stk[1..], stk[0].caps); }
    case Ret =>
  }

  /** Keeping only the number of captures loses nothing: every step keeps the saved lists prefixes. */
  lemma NestedStep(m: Mode, c: Code, st: State)
    requires NestedState(st)
    ensures NestedState(Step(m, c, 0, st))
  {
    match st
    case Run(p, s, stk, caps) =>
      if 0 <= p < |c| {
        if IsStackOp(c[p].op) {
          NestedOnStack(m, c[p].op, p + 1, p + c[p].off, s, stk, caps);
        } else {
          NestedPlain(m, c[p].op, s, stk, caps);
        }
      }
    case Failing(stk) =>
      var caps: seq<Capture> :| Nested(stk, caps);
      if stk != [] && stk[0].RetTo? { assert Nested(stk[1..], caps); }
    case Stuck =>
  }

  lemma IterNested(m: Mode, c: Code, st: State, n: nat)
    requires NestedState(st)
    ensures NestedState(Iter(m, c, 0, st, n))
    decreases n
  {
    if n > 0 {
      NestedStep(m, c, st);
      IterNested(m, c, Step(m, c, 0, st), n - 1);
    }
  }

  // ----- reading the subject -----

  /** One check against the NUL-terminated subject, as the four opcodes do it. */
  method TestInput(subj: seq<Byte>, k: CheckKind, s: int) returns (ok: bool)
    requires 0 <= s <= |subj|
    ensures ok == Passes(Real(subj, map[]), k, s)
  {
    match k
    case KAny(n) => ok := !(n > |subj| - s);
    case KChar(c) => ok := !(ByteAt(subj, s) != c || s >= |subj|);
    case KSet(cs, nul) =>
      if nul {
        ok := !(ByteAt(subj, s) !in cs || s >= |subj|);
      } else {
        ok := ByteAt(subj, s) in cs;
      }
  }

  /** The plain loop relies on the final NUL, the checked one on the subject's end. */
  method SpanInput(subj: seq<Byte>, cs: Charset, nul: bool, s: int) returns (t: int)
    requires 0 <= s <= |subj| && (nul || !(SpanEnd(subj, cs, s) == |subj| && 0 in cs))
    ensures t == SpanEnd(subj, cs, s)
  {
    t := s;
    if nul {
      while t < |subj|
        invariant s <= t <= |subj| && SpanEnd(subj, cs, t) == SpanEnd(subj, cs, s)
      {
        if ByteAt(subj, t) !in cs { break; }
        t := t + 1;
      }
    } else {
      while true
        invariant s <= t <= |subj| && SpanEnd(subj, cs, t) == SpanEnd(subj, cs, s)
        decreases |subj| - t
      {
        if ByteAt(subj, t) !in cs { break; }
        t := t + 1;
      }
    }
  }

  // ----- the capture array -----

  /** Adds an entry; a full array is replaced by one of twice its size. */
  method PushCapture(capture: array<Capture>, captop: nat, c: Capture) returns (capture': array<Capture>, captop': nat)
    requires captop < capture.Length
    modifies capture
    ensures captop' == captop + 1 < capture'.Length
    ensures capture'[..captop'] == old(capture[..captop]) + [c]
    ensures capture' == capture || fresh(capture')
  {
    capture[captop] := c;
    captop' := captop + 1;
    capture' := capture;
    if captop' >= capture.Length {
      capture' := new Capture[2 * captop'](i requires 0 <= i < 2 * captop' reads capture =>
        if i < capture.Length then capture[i] else c);
      assert capture'[..captop'] == capture[..captop'];
    }
  }

  /** A closing capture: a short one whose opening is the last entry is merged into it. */
  method CloseCapture(capture: array<Capture>, captop: nat, op: Op, s: int, ghost prot: nat)
    returns (capture': array<Capture>, captop': nat)
    requires op.Cap? && op.form == Close && captop < capture.Length
    requires DoCap(op, prot, s, capture[..captop]).NewCaps?
    modifies capture
    ensures captop' < capture'.Length
    ensures capture'[..captop'] == DoCap(op, prot, s, old(capture[..captop])).caps
    ensures capture' == capture || fresh(capture')
  {
    var s1 := s - op.n;
    assert captop > 0;
    var last := capture[captop - 1];
    ghost var before := capture[..captop];
    assert before[captop - 1] == last;
    if last.siz == 0 && s1 - last.s < UCHAR_MAX {
      capture[captop - 1] := last.(siz := s1 - last.s + 1);
      capture', captop' := capture, captop;
      assert capture[..captop] == before[..captop - 1] + [last.(siz := s1 - last.s + 1)];
    } else {
      capture', captop' := PushCapture(capture, captop, Capture(s1, op.idx, op.kind, 1));
    }
  }

  method RunCapture(capture: array<Capture>, captop: nat, op: Op, s: int, ghost prot: nat)
    returns (capture': array<Capture>, captop': nat)
    requires op.Cap? && captop < capture.Length
    requires DoCap(op, prot, s, capture[..captop]).NewCaps?
    modifies capture
    ensures captop' < capture'.Length
    ensures capture'[..captop'] == DoCap(op, prot, s, old(capture[..captop])).caps
    ensures capture' == capture || fresh(capture')
  {
    match op.form
    case Close => capture', captop' := CloseCapture(capture, captop, op, s, prot);
    case Empty => capture', captop' := PushCapture(capture, captop, Capture(s - op.n, op.idx, op.kind, 1));
    case Open => capture', captop' := PushCapture(capture, captop, Capture(s - op.n, op.idx, op.kind, 0));
    case Full => capture', captop' := PushCapture(capture, captop, Capture(s - op.n, op.idx, op.kind, op.n + 1));
  }

  // ----- the machine -----

  function ResultOf(o: Out): MatchResult
    requires !o.Diverge?
  {
    if o.Succ? then Matched(o.pos, o.caps) else NoMatch
  }

  ghost function StateAt(code: Code, subj: seq<Byte>, start: int, n: nat): State {
    Iter(Real(subj, map[]), code, 0, Run(0, start, [], []), n)
  }

  /** At some point the run has more calls and choices pending than the stack array holds. */
  ghost predicate TooDeep(code: Code, subj: seq<Byte>, start: int) {
    Grows(Real(subj, map[]), code, 0, Run(0, start, [], []), MAXBACK)
  }

  /** Addresses stay in the code when all its jumps do. */
  lemma {:induction false} IterInside(m: Mode, c: Code, st: State, n: nat)
    requires InRange(c) && From(st, 0)
    ensures From(Iter(m, c, 0, st, n), 0)
    decreases n
  {
    if n > 0 {
      StepFrom(m, c, 0, st, 0);
      IterInside(m, c, Step(m, c, 0, st), n - 1);
    }
  }

  lemma StateNext(code: Code, subj: seq<Byte>, start: int, n: nat)
    requires InRange(code)
    ensures From(StateAt(code, subj, start, n), 0)
    ensures StateAt(code, subj, start, n + 1) == Step(Real(subj, map[]), code, 0, StateAt(code, subj, start, n))
    ensures NestedState(StateAt(code, subj, start, n))
  {
    var m := Real(subj, map[]);
    IterAdd(m, code, 0, Run(0, start, [], []), n, 1);
    IterNested(m, code, Run(0, start, [], []), n);
    IterInside(m, code, Run(0, start, [], []), n);
  }

  /** Before its end, a run that ends well is neither halted nor stuck. */
  lemma StateLive(code: Code, subj: seq<Byte>, start: int, n: nat, k: nat, fin: State)
    requires StateAt(code, subj, start, k) == fin && Halted(code, fin) && !fin.Stuck?
    ensures !StateAt(code, subj, start, n).Stuck?
    ensures Halted(code, StateAt(code, subj, start, n)) ==> StateAt(code, subj, start, n) == fin
    ensures k <= n ==> StateAt(code, subj, start, n) == fin
  {
    var m := Real(subj, map[]);
    var st := StateAt(code, subj, start, n);
    if n <= k {
      IterAdd(m, code, 0, Run(0, start, [], []), n, k - n);
      if Halted(code, st) { IterHalted(m, code, 0, st, k - n); }
    } else {
      IterAdd(m, code, 0, Run(0, start, [], []), k, n - k);
      IterHalted(m, code, 0, fin, n - k);
    }
  }

  /** After its end nothing changes, so a run that stayed shallow is shallow. */
  lemma StayedShallow(code: Code, subj: seq<Byte>, start: int, k: nat)
    requires Halted(code, StateAt(code, subj, start, k))
    requires Shallow(code, subj, start, k)
    ensures !TooDeep(code, subj, start)
  {
    var (m, st) := (Real(subj, map[]), Run(0, start, [], []));
    if TooDeep(code, subj, start) {
      var n: nat :| Depth(Iter(m, code, 0, st, n)) >= MAXBACK;
      assert StateAt(code, subj, start, n) == Iter(m, code, 0, st, n);
      if n > k {
        IterAdd(m, code, 0, st, k, n - k);
        IterHalted(m, code, 0, StateAt(code, subj, start, k), n - k);
      }
    }
  }

  /** The machine after `n` steps is at `p`, `s` with this stack and these captures. */
  ghost predicate At(code: Code, subj: seq<Byte>, start: int, n: nat, p: int, s: int, entries: seq<Entry>,
                     caps: seq<Capture>) {
    if p == GIVEUP then StateAt(code, subj, start, n) == Failing([])
    else
      exists stk: seq<Frame> ::
        StateAt(code, subj, start, n) == Run(p, s, stk, caps) && entries == Entries(stk, start)
  }

  ghost predicate Shallow(code: Code, subj: seq<Byte>, start: int, n: nat) {
    forall i: nat :: i <= n ==> Depth(StateAt(code, subj, start, i)) < MAXBACK
  }

  lemma NextShallow(code: Code, subj: seq<Byte>, start: int, n: nat)
    requires Shallow(code, subj, start, n) && Depth(StateAt(code, subj, start, n + 1)) < MAXBACK
    ensures Shallow(code, subj, start, n + 1)
  {
  }

  /** The pending alternative on top of the stack is where the machine goes on. */
  lemma Resume(code: Code, subj: seq<Byte>, start: int, n: nat, stk: seq<Frame>, caps: seq<Capture>, e: Entry)
    requires InRange(code)
    requires StateAt(code, subj, start, n) == Failing(stk) && Nested(stk, caps) && Shallow(code, subj, start, n)
    requires e == Entries(stk, start)[|stk|] && e.Pending?
    ensures e.caplevel <= |caps|
    ensures
      var n' := if stk == [] then n else n + 1;
      At(code, subj, start, n', e.p, e.s, Entries(stk, start)[..|stk|], caps[..e.caplevel]) &&
        Shallow(code, subj, start, n')
  {
    if stk != [] {
      StateNext(code, subj, start, n);
      NextShallow(code, subj, start, n);
      assert stk[0].p >= 0;
      assert Entries(stk, start)[..|stk|] == Entries(stk[1..], start);
      assert caps[..e.caplevel] == stk[0].caps;
    }
  }

  /** Drops return addresses, and takes the pending alternative below them. */
  method Backtrack(stack: array<Entry>, top: nat, code: Code, subj: seq<Byte>, start: int,
                   ghost n: nat, ghost stk: seq<Frame>, ghost caps: seq<Capture>)
    returns (p: int, s: int, top': nat, captop: nat, ghost n': nat)
    requires InRange(code)
    requires 0 < top <= stack.Length && stack[..top] == Entries(stk, start) && Nested(stk, caps)
    requires StateAt(code, subj, start, n) == Failing(stk) && Shallow(code, subj, start, n)
    ensures top' < top && captop <= |caps| && (p != GIVEUP ==> 0 < top')
    ensures n <= n' && Shallow(code, subj, start, n') && (n == n' || !Halted(code, StateAt(code, subj, start, n' - 1)))
    ensures At(code, subj, start, n', p, s, stack[..top'], caps[..captop])
  {
    top', n' := top - 1, n;
    ghost var stk' := stk;
    assert stack[top'] == stack[..top][top'];
    while stack[top'].Return?
      invariant 0 <= top' < top && stack[..top' + 1] == Entries(stk', start) && Nested(stk', caps)
      invariant n <= n' && StateAt(code, subj, start, n') == Failing(stk') && Shallow(code, subj, start, n')
      invariant n == n' || !Halted(code, StateAt(code, subj, start, n' - 1))
      decreases top'
    {
      assert stack[top'] == stack[..top' + 1][top'];
      StateNext(code, subj, start, n');
      NextShallow(code, subj, start, n');
      assert stack[..top'] == stack[..top' + 1][..top'];
      top', n', stk' := top' - 1, n' + 1, stk'[1..];
    }
    assert stack[top'] == stack[..top' + 1][top'];
    Resume(code, subj, start, n', stk', caps, stack[top']);
    assert stack[..top'] == stack[..top' + 1][..top'];
    p, s, captop := stack[top'].p, stack[top'].s, stack[top'].caplevel;
    n' := if stk' == [] then n' else n' + 1;
  }

  /** The instructions that work on the stack. */
  method StackOp(stack: array<Entry>, top: nat, op: Op, next: int, dest: int, s: int, captop: nat, start: int,
                 ghost m: Mode, ghost stk: seq<Frame>, ghost caps: seq<Capture>)
    returns (p': int, s': int, top': nat, fail: bool, full: bool)
    requires IsStackOp(op) && m.Real? && !OnStack(m, op, next, dest, s, stk, caps).Stuck?
    requires 0 < top <= stack.Length == MAXBACK && stack[..top] == Entries(stk, start) && captop == |caps|
    modifies stack
    ensures full ==> |OnStack(m, op, next, dest, s, stk, caps).stk| >= MAXBACK
    ensures !full ==>
      var r := OnStack(m, op, next, dest, s, stk, caps);
      0 < top' <= MAXBACK && stack[..top'] == Entries(r.stk, start) &&
      if fail then r == Failing(r.stk) else r == Run(p', s', r.stk, caps)
  {
    p', s', top', fail, full := next, s, top, false, false;
    ghost var before := stack[..top];
    match op {
      case Choice(aux) =>
        if top >= MAXBACK {
          full := true;
        } else {
          stack[top] := Pending(dest, s - aux, captop);
          top' := top + 1;
          assert stack[..top'] == before + [Pending(dest, s - aux, captop)];
          assert ([Back(dest, s - aux, caps)] + stk)[1..] == stk;
        }
      case Call =>
        if top >= MAXBACK {
          full := true;
        } else {
          stack[top] := Return(next);
          top', p' := top + 1, dest;
          assert stack[..top'] == before + [Return(next)];
          assert ([RetTo(next)] + stk)[1..] == stk;
        }
      case Ret =>
        assert stack[top - 1] == before[top - 1] && stack[top - 1].Return?;
        top', p' := top - 1, stack[top - 1].p;
        assert stack[..top'] == before[..top'];
      case Commit =>
        assert stack[top - 1] == before[top - 1] && stack[top - 1].Pending?;
        top', p' := top - 1, dest;
        assert stack[..top'] == before[..top'];
      case PartialCommit =>
        assert stack[top - 1] == before[top - 1] && stack[top - 1].Pending?;
        stack[top - 1] := stack[top - 1].(s := s, caplevel := captop);
        p' := dest;
        assert stack[..top] == before[..top - 1] + [stack[top - 1]];
        assert ([Back(stk[0].p, s, caps)] + stk[1..])[1..] == stk[1..];
      case BackCommit =>
        assert stack[top - 1] == before[top - 1] && stack[top - 1].Pending?;
        top', s', p' := top - 1, stack[top - 1].s, dest;
        assert stack[..top'] == before[..top'];
      case FailTwice =>
        top', fail := top - 1, true;
        assert stack[..top'] == before[..top'];
    }
  }

  /** The other instructions. */
  method PlainOp(capture: array<Capture>, captop: nat, op: Op, next: int, dest: int, subj: seq<Byte>, s: int,
                 ghost prot: nat)
    returns (p': int, s': int, capture': array<Capture>, captop': nat, fail: bool)
    requires !IsStackOp(op) && captop < capture.Length
    requires !Plain(Real(subj, map[]), prot, op, s, capture[..captop]).Wrong?
    modifies capture
    ensures captop' < capture'.Length && (capture' == capture || fresh(capture'))
    ensures
      match Plain(Real(subj, map[]), prot, op, s, old(capture[..captop]))
      case Next(s1, caps1) => !fail && p' == next && s' == s1 && capture'[..captop'] == caps1
      case Dest(s1, caps1) => !fail && p' == dest && s' == s1 && capture'[..captop'] == caps1
      case Lose => fail && capture'[..captop'] == old(capture[..captop])
      case Wrong => true
  {
    p', s', capture', captop', fail := next, s, capture, captop, false;
    match op {
      case Check(k) =>
        var ok := TestInput(subj, k, s);
        if ok { s' := s + StepOf(k); } else { fail := true; }
      case Test(k) =>
        var ok := TestInput(subj, k, s);
        if ok { s' := s + StepOf(k); } else { p' := dest; }
      case Span(cs, nul) => s' := SpanInput(subj, cs, nul, s);
      case Jmp => p' := dest;
      case Fail(_) => fail := true;
      case Cap(_, _, _, _) => capture', captop' := RunCapture(capture, captop, op, s, prot);
      case OpenCall(_) => assert false;
    }
  }

  lemma OpNext(code: Code, subj: seq<Byte>, start: int, n: nat, p: int, s: int, stk: seq<Frame>, caps: seq<Capture>)
    requires InRange(code) && StateAt(code, subj, start, n) == Run(p, s, stk, caps) && 0 <= p < |code|
    ensures Nested(stk, caps)
    ensures
      var st1 := StateAt(code, subj, start, n + 1);
      From(st1, 0) && st1 == Exec(Real(subj, map[]), 0, code[p].op, p + 1, p + code[p].off, s, stk, caps)
  {
    StateNext(code, subj, start, n);
    StateNext(code, subj, start, n + 1);
  }

  /** One instruction; when it fails, the stack and the captures are still those before it. */
  method ExecOp(stack: array<Entry>, top: nat, capture: array<Capture>, captop: nat, code: Code, subj: seq<Byte>,
                start: int, p: int, s: int, ghost n: nat, ghost stk: seq<Frame>, ghost caps: seq<Capture>)
    returns (p': int, s': int, top': nat, capture': array<Capture>, captop': nat, fail: bool, full: bool,
        ghost stk': seq<Frame>)
    requires InRange(code) && 0 < top <= stack.Length == MAXBACK && captop < capture.Length && 0 <= p < |code|
    requires StateAt(code, subj, start, n) == Run(p, s, stk, caps) && stack[..top] == Entries(stk, start) &&
      capture[..captop] == caps
    requires !StateAt(code, subj, start, n + 1).Stuck?
    modifies stack, capture
    ensures capture' == capture || fresh(capture')
    ensures full ==> Depth(StateAt(code, subj, start, n + 1)) >= MAXBACK
    ensures !full ==>
      && 0 < top' <= MAXBACK && captop' < capture'.Length && stack[..top'] == Entries(stk', start)
      && StateAt(code, subj, start, n + 1) == (if fail then Failing(stk') else Run(p', s', stk', capture'[..captop']))
      && (fail ==> Nested(stk', caps) && capture'[..captop'] == caps) && (!fail ==> p' >= 0)
  {
    OpNext(code, subj, start, n, p, s, stk, caps);
    var op, next, dest := code[p].op, p + 1, p + code[p].off;
    ghost var m := Real(subj, map[]);
    top', capture', captop', full, stk' := top, capture, captop, false, stk;
    if IsStackOp(op) {
      p', s', top', fail, full := StackOp(stack, top, op, next, dest, s, captop, start, m, stk, caps);
      stk' := OnStack(m, op, next, dest, s, stk, caps).stk;
      if fail { NestedTail(stk, caps); }
    } else {
      p', s', capture', captop', fail := PlainOp(capture, captop, op, next, dest, subj, s, Prot(0, stk));
    }
  }

  /** One instruction, with the backtracking it may cause. */
  method Round(stack: array<Entry>, top: nat, capture: array<Capture>, captop: nat, code: Code, subj: seq<Byte>,
               start: int, p: int, s: int, ghost n: nat)
    returns (p': int, s': int, top': nat, capture': array<Capture>, captop': nat, full: bool, ghost n': nat)
    requires InRange(code)
    requires 0 < top <= stack.Length == MAXBACK && captop < capture.Length && 0 <= p < |code|
    requires At(code, subj, start, n, p, s, stack[..top], capture[..captop]) && Shallow(code, subj, start, n)
    requires !StateAt(code, subj, start, n + 1).Stuck?
    modifies stack, capture
    ensures capture' == capture || fresh(capture')
    ensures full ==> TooDeep(code, subj, start)
    ensures !full ==>
      && top' <= MAXBACK && captop' < capture'.Length
      && At(code, subj, start, n', p', s', stack[..top'], capture'[..captop']) && Shallow(code, subj, start, n')
      && n < n' && !Halted(code, StateAt(code, subj, start, n' - 1)) && (p' != GIVEUP ==> 0 < top')
  {
    ghost var caps := capture[..captop];
    ghost var stk: seq<Frame> :| StateAt(code, subj, start, n) == Run(p, s, stk, caps) &&
      stack[..top] == Entries(stk, start);
    var fail;
    p', s', top', capture', captop', fail, full,
      stk := ExecOp(stack, top, capture, captop, code, subj, start, p, s, n, stk, caps);
    n' := n + 1;
    if full { return; }
    assert |Entries(stk, start)| == |stk| + 1;
    NextShallow(code, subj, start, n);
    if fail {
      p', s', top', captop', n' := Backtrack(stack, top', code, subj, start, n', stk, caps);
    }
  }

  /** What a halted machine reports. */
  ghost function ReportOf(fin: State): MatchResult {
    if fin.Run? then Matched(fin.s, fin.caps) else NoMatch
  }

  /** The run comes, within `k` steps, to the end of the code, fails, or needs more than the stack array holds. */
  ghost predicate Stops(code: Code, subj: seq<Byte>, start: int, k: nat) {
    var st := StateAt(code, subj, start, k);
    !st.Stuck? && (Depth(st) >= MAXBACK || st == Failing([]) || (st.Run? && st.p == |code|))
  }

  /** Up to there the run is live, and after its end nothing changes. */
  lemma StopsLive(code: Code, subj: seq<Byte>, start: int, n: nat, k: nat)
    requires Stops(code, subj, start, k) && Shallow(code, subj, start, n) && n <= k
    ensures Halted(code, StateAt(code, subj, start, n)) ==>
      StateAt(code, subj, start, k) == StateAt(code, subj, start, n) && !TooDeep(code, subj, start)
    ensures !Halted(code, StateAt(code, subj, start, n)) ==> n < k && !StateAt(code, subj, start, n + 1).Stuck?
  {
    var (m, st, st0) := (Real(subj, map[]), StateAt(code, subj, start, n), Run(0, start, [], []));
    IterAdd(m, code, 0, st0, n, k - n);
    if Halted(code, st) {
      IterHalted(m, code, 0, st, k - n);
      StayedShallow(code, subj, start, n);
    } else if n < k {
      IterAdd(m, code, 0, st0, n + 1, k - n - 1);
      var st1 := StateAt(code, subj, start, n + 1);
      if st1.Stuck? { IterHalted(m, code, 0, st1, k - n - 1); }
    }
  }

  lemma AtEnd(code: Code, subj: seq<Byte>, start: int, n: nat, k: nat, p: int, s: int, entries: seq<Entry>,
              caps: seq<Capture>)
    requires At(code, subj, start, n, p, s, entries, caps) && Shallow(code, subj, start, n)
    requires Stops(code, subj, start, k) && n <= k
    ensures p == |code| ==> ReportOf(StateAt(code, subj, start, k)) == Matched(s, caps) && !TooDeep(code, subj, start)
    ensures p == GIVEUP ==> ReportOf(StateAt(code, subj, start, k)) == NoMatch && !TooDeep(code, subj, start)
    ensures p != |code| && p != GIVEUP ==> 0 <= p < |code| && n < k && !StateAt(code, subj, start, n + 1).Stuck?
  {
    StopsLive(code, subj, start, n, k);
  }

  /** A round that stays shallow ends within the `k` steps. */
  lemma RoundInTime(code: Code, subj: seq<Byte>, start: int, n: nat, k: nat)
    requires Stops(code, subj, start, k) && 0 < n && Shallow(code, subj, start, n)
    requires !Halted(code, StateAt(code, subj, start, n - 1))
    ensures n <= k
  {
    if n > k {
      var (m, st0) := (Real(subj, map[]), Run(0, start, [], []));
      IterAdd(m, code, 0, st0, k, n - 1 - k);
      IterHalted(m, code, 0, StateAt(code, subj, start, k), n - 1 - k);
    }
  }

  /** The main loop. */
  method RunLoop(stack: array<Entry>, capture0: array<Capture>, code: Code, subj: seq<Byte>, start: nat, ghost k: nat)
    returns (r: MatchResult)
    requires InRange(code) && stack.Length == MAXBACK && capture0.Length > 0 && Stops(code, subj, start, k)
    modifies stack, capture0
    ensures r.TooManyPending? <==> TooDeep(code, subj, start)
    ensures !r.TooManyPending? ==> r == ReportOf(StateAt(code, subj, start, k))
  {
    stack[0] := Pending(GIVEUP, start, 0);
    var capture, top: nat, captop: nat := capture0, 1, 0;
    var p, s, full := 0, start, false;
    ghost var n := 0;
    assert stack[..1] == Entries([], start) && capture[..0] == [];
    while !full
      invariant capture == capture0 || fresh(capture)
      invariant full ==> TooDeep(code, subj, start)
      invariant !full ==>
        top <= MAXBACK && captop < capture.Length && (p != GIVEUP ==> 0 < top) && n <= k &&
        Shallow(code, subj, start, n) && At(code, subj, start, n, p, s, stack[..top], capture[..captop])
      decreases !full, k - n
    {
      AtEnd(code, subj, start, n, k, p, s, stack[..top], capture[..captop]);
      if p == |code| { return Matched(s, capture[..captop]); }
      if p == GIVEUP { return NoMatch; }
      p, s, top, capture, captop, full, n := Round(stack, top, capture, captop, code, subj, start, p, s, n);
      if !full { RoundInTime(code, subj, start, n, k); }
    }
    return TooManyPending;
  }

  /** Run on its own from a position of the subject, the code ends with outcome `o`. */
  ghost predicate RunsTo(code: Code, subj: seq<Byte>, start: int, o: Out) {
    !o.Diverge? && Reach(Real(subj, map[]), code, 0, Run(0, start, [], []), Final(|code|, [], [], o))
  }

  lemma BehRuns(code: Code, subj: seq<Byte>, start: int, o: Out)
    requires !o.Diverge? && Beh(Real(subj, map[]), code, start, o)
    ensures RunsTo(code, subj, start, o)
  {
    var none: seq<Capture> := [];
    assert |none| == 0;
    assert Reach(Real(subj, map[]), code, |none|, Run(0, start, [], none), Final(|code|, [], none, o));
  }

  /** Runs a pattern on a subject from a position.  It returns whenever the run ends or outgrows the stack. */
  method Match(code: Code, subj: seq<Byte>, start: nat, ghost k: nat) returns (r: MatchResult)
    requires InRange(code) && start <= |subj| && Stops(code, subj, start, k)
    ensures r.TooManyPending? <==> TooDeep(code, subj, start)
    ensures !r.TooManyPending? ==> r == ReportOf(StateAt(code, subj, start, k))
  {
    var stack := new Entry[MAXBACK](_ => Return(0));
    var capture := new Capture[IMAXCAPTURES](_ => Capture(0, 0, 0, 0));
    r := RunLoop(stack, capture, code, subj, start, k);
  }

  lemma EndOfRun(code: Code, subj: seq<Byte>, start: int, o: Out) returns (fin: State, k: nat)
    requires RunsTo(code, subj, start, o)
    ensures fin == (if o.Succ? then Run(|code|, o.pos, [], o.caps) else Failing([]))
    ensures StateAt(code, subj, start, k) == fin && Stops(code, subj, start, k) && ReportOf(fin) == ResultOf(o)
  {
    fin := Final(|code|, [], [], o);
    assert o.Succ? ==> [] + o.caps == o.caps;
    k :| Iter(Real(subj, map[]), code, 0, Run(0, start, [], []), k) == fin;
  }
}
