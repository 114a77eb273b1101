/** The verifier of loop bodies (lib/lpeg.c:646-757, called without a position table): it runs the body
    in `Verify` mode on a stack of `MAXBACK` slots and answers whether that run fails. */
module LpegVerify {
  import opened LpegCode
  import opened LpegSemantics
  import opened LpegMachine
  import opened LpegBehaviour
  import opened LpegCompile

  datatype Verdict = Accepted | MayBeEmpty | TooManyCalls

  /** A slot of the stack; `pending` tells a choice from a return address. */
  datatype Slot = Slot(p: int, pending: bool)

  function SlotOf(f: Frame): Slot {
    Slot(f.p, f.Back?)
  }

  /** The machine's stack as the verifier keeps it, oldest slot first and without captures. */
  function Slots(stk: seq<Frame>): (r: seq<Slot>)
    ensures |r| == |stk|
  {
    if stk == [] then [] else Slots(stk[1..]) + [SlotOf(stk[0])]
  }

  ghost function Seen(c: Code, n: nat): State {
    Iter(Verify, c, 0, Run(0, 0, [], []), n)
  }

  /** At some point the verifier's run needs more slots than there are. */
  ghost predicate VerifyTooDeep(c: Code) {
    exists n: nat :: Depth(Seen(c, n)) > MAXBACK
  }

  /** The verifier's run over a loop body ends in failure. */
  ghost predicate VerifyAccepts(c: Code) {
    Reach(Verify, c, 0, Run(0, 0, [], []), Failing([]))
  }

  ghost predicate Low(c: Code, n: nat) {
    forall i: nat :: i <= n ==> Depth(Seen(c, i)) <= MAXBACK
  }

  lemma SeenNext(c: Code, n: nat)
    ensures Seen(c, n + 1) == Step(Verify, c, 0, Seen(c, n))
  {
    IterAdd(Verify, c, 0, Run(0, 0, [], []), n, 1);
  }

  /** Before its end a run that ends well is neither halted nor stuck. */
  lemma SeenLive(c: Code, n: nat, k: nat, fin: State)
    requires Seen(c, k) == fin && Halted(c, fin) && !fin.Stuck?
    ensures !Seen(c, n).Stuck?
    ensures Halted(c, Seen(c, n)) ==> Seen(c, n) == fin
    ensures k <= n ==> Seen(c, n) == fin
  {
    var st0 := Run(0, 0, [], []);
    if n <= k {
      IterAdd(Verify, c, 0, st0, n, k - n);
      if Halted(c, Seen(c, n)) { IterHalted(Verify, c, 0, Seen(c, n), k - n); }
    } else {
      IterAdd(Verify, c, 0, st0, k, n - k);
      IterHalted(Verify, c, 0, fin, n - k);
    }
  }

  lemma StayedLow(c: Code, k: nat)
    requires Halted(c, Seen(c, k)) && Low(c, k)
    ensures !VerifyTooDeep(c)
  {
    forall n: nat
      ensures Depth(Seen(c, n)) <= MAXBACK
    {
      if n > k {
        IterAdd(Verify, c, 0, Run(0, 0, [], []), k, n - k);
        IterHalted(Verify, c, 0, Seen(c, k), n - k);
      }
    }
  }

  /** One instruction. */
  method VerifyOp(back: array<Slot>, top: nat, op: Op, next: int, dest: int,
                  ghost s: int, ghost stk: seq<Frame>, ghost caps: seq<Capture>)
    returns (p': int, top': nat, fail: bool, full: bool)
    requires top <= back.Length == MAXBACK && back[..top] == Slots(stk)
    requires !Exec(Verify, 0, op, next, dest, s, stk, caps).Stuck?
    modifies back
    ensures full ==> Depth(Exec(Verify, 0, op, next, dest, s, stk, caps)) > MAXBACK
    ensures !full ==>
      var r := Exec(Verify, 0, op, next, dest, s, stk, caps);
      top' <= MAXBACK && back[..top'] == Slots(r.stk) && fail == r.Failing? && (!fail ==> r.p == p')
  {
    p', top', fail, full := next, top, false, false;
    ghost var before := back[..top];
    match op {
      case Ret =>
        assert back[top - 1] == before[top - 1];
        top', p' := top - 1, back[top - 1].p;
        assert back[..top'] == before[..top'];
      case Choice(_) =>
        if top >= MAXBACK {
          full := true;
        } else {
          back[top] := Slot(dest, true);
          top' := top + 1;
          assert back[..top'] == before + [Slot(dest, true)];
          assert ([Back(dest, s - op.aux, caps)] + stk)[1..] == stk;
        }
      case Call =>
        if top >= MAXBACK {
          full := true;
        } else {
          back[top] := Slot(next, false);
          top', p' := top + 1, dest;
          assert back[..top'] == before + [Slot(next, false)];
          assert ([RetTo(next)] + stk)[1..] == stk;
        }
      case Commit =>
        top', p' := top - 1, dest;
        assert back[..top'] == before[..top'];
      case BackCommit =>
        top', p' := top - 1, dest;
        assert back[..top'] == before[..top'];
      case PartialCommit =>
        p' := dest;
        assert ([Back(stk[0].p, s, caps)] + stk[1..])[1..] == stk[1..];
      case Test(_) => p' := dest;
      case Jmp => p' := dest;
      case OpenCall(_) => fail := true;
      case Check(_) => fail := true;
      case FailTwice => fail := true;
      case Fail(pred) => fail := !pred;
      case Span(_, _) =>
      case Cap(_, _, _, _) =>
    }
  }

  lemma LowNext(c: Code, n: nat)
    requires Low(c, n) && Depth(Seen(c, n + 1)) <= MAXBACK
    ensures Low(c, n + 1)
  {
  }

  lemma FailNext(c: Code, n: nat, stk: seq<Frame>)
    requires Seen(c, n) == Failing(stk) && stk != [] && Low(c, n)
    ensures Low(c, n + 1)
    ensures Seen(c, n + 1) == if stk[0].Back? then Run(stk[0].p, stk[0].s, stk[1..], stk[0].caps) else Failing(stk[1..])
  {
    SeenNext(c, n);
    LowNext(c, n);
  }

  /** The verifier stands at instruction `p` with these slots. */
  ghost predicate Stands(c: Code, n: nat, p: int, slots: seq<Slot>) {
    Seen(c, n).Run? && Seen(c, n).p == p && Slots(Seen(c, n).stk) == slots
  }

  /** Backtracks to the newest pending choice; `done` when there is none. */
  method VerifyFail(back: array<Slot>, top: nat, c: Code, ghost n: nat, ghost stk: seq<Frame>)
    returns (done: bool, p: int, top': nat, ghost n': nat)
    requires top <= back.Length && back[..top] == Slots(stk) && Seen(c, n) == Failing(stk) && Low(c, n)
    ensures n <= n' && Low(c, n')
    ensures n < n' ==> !Halted(c, Seen(c, n' - 1))
    ensures done ==> Seen(c, n') == Failing([])
    ensures !done ==> n < n' && top' < top && Stands(c, n', p, back[..top'])
  {
    top', n', done, p := top, n, false, 0;
    ghost var rest := stk;
    while true
      invariant top' <= top && back[..top'] == Slots(rest) && Seen(c, n') == Failing(rest) && Low(c, n')
      invariant n <= n' && (n < n' ==> !Halted(c, Seen(c, n' - 1)))
      decreases top'
    {
      if top' == 0 { return true, 0, 0, n'; }
      FailNext(c, n', rest);
      assert back[..top'][top' - 1] == back[top' - 1];
      assert back[..top' - 1] == back[..top'][..top' - 1];
      top', n', rest := top' - 1, n' + 1, rest[1..];
      if back[top'].pending { return false, back[top'].p, top', n'; }
    }
  }

  lemma {:induction false} SeenInside(c: Code, st: State, n: nat)
    requires InRange(c) && From(st, 0)
    ensures From(Iter(Verify, c, 0, st, n), 0)
    decreases n
  {
    if n > 0 {
      StepFrom(Verify, c, 0, st, 0);
      SeenInside(c, Step(Verify, c, 0, st), n - 1);
    }
  }

  /** Inside the code, the next state is what the instruction makes of this one. */
  lemma OpSeen(c: Code, n: nat, k: nat, fin: State)
    requires InRange(c) && Seen(c, k) == fin && Halted(c, fin) && !fin.Stuck?
    requires Seen(c, n).Run? && Seen(c, n).p != |c| && (fin.Run? ==> fin.p == |c|)
    ensures n < k
    ensures
      var st := Seen(c, n);
      0 <= st.p < |c| && !Seen(c, n + 1).Stuck? &&
      Seen(c, n + 1) == Exec(Verify, 0, c[st.p].op, st.p + 1, st.p + c[st.p].off, st.s, st.stk, st.caps)
  {
    SeenInside(c, Run(0, 0, [], []), n);
    SeenLive(c, n, k, fin);
    SeenLive(c, n + 1, k, fin);
    SeenNext(c, n);
  }

  /** The end of the run decides the verdict. */
  lemma Decided(c: Code, n: nat, k: nat, fin: State)
    requires Seen(c, k) == fin && Halted(c, fin) && !fin.Stuck?
    requires Low(c, n) && Halted(c, Seen(c, n))
    ensures Seen(c, n) == fin && !VerifyTooDeep(c)
  {
    SeenLive(c, n, k, fin);
    StayedLow(c, n);
  }

  /** One instruction, with the backtracking it may cause. */
  method VerifyRound(back: array<Slot>, top: nat, c: Code, p: int, ghost n: nat, ghost k: nat, ghost fin: State)
    returns (done: bool, full: bool, p': int, top': nat, ghost n': nat)
    requires InRange(c) && Seen(c, k) == fin && Halted(c, fin) && !fin.Stuck? && (fin.Run? ==> fin.p == |c|)
    requires top <= back.Length == MAXBACK && n <= k && Low(c, n) && Stands(c, n, p, back[..top]) && p != |c|
    modifies back
    ensures full ==> VerifyTooDeep(c)
    ensures done && !full ==> fin == Failing([]) && !VerifyTooDeep(c)
    ensures !done && !full ==>
      n < n' <= k && top' <= MAXBACK && Low(c, n') && Stands(c, n', p', back[..top'])
  {
    ghost var st := Seen(c, n);
    OpSeen(c, n, k, fin);
    var fail;
    p', top', fail, full := VerifyOp(back, top, c[p].op, p + 1, p + c[p].off, st.s, st.stk, st.caps);
    n', done := n + 1, false;
    if full { return; }
    LowNext(c, n);
    if fail {
      done, p', top', n' := VerifyFail(back, top', c, n', Seen(c, n').stk);
      if done {
        Decided(c, n', k, fin);
      } else {
        SeenLive(c, n' - 1, k, fin);
      }
    }
  }

  /** Runs the verifier over a body whose run ends with outcome `o`. */
  method VerifyBody(c: Code, ghost o: Out) returns (v: Verdict)
    requires InRange(c) && !o.Diverge? && Beh(Verify, c, 0, o)
    ensures v.TooManyCalls? <==> VerifyTooDeep(c)
    ensures !v.TooManyCalls? ==> (v.Accepted? <==> o.Failure?)
  {
    ghost var fin, k := EndSeen(c, o);
    var back := new Slot[MAXBACK](_ => Slot(0, false));
    var p, top: nat := 0, 0;
    ghost var n := 0;
    assert back[..0] == Slots([]);
    while p != |c|
      invariant top <= MAXBACK && n <= k && Low(c, n) && Stands(c, n, p, back[..top])
      decreases k - n
    {
      var done, full;
      done, full, p, top, n := VerifyRound(back, top, c, p, n, k, fin);
      if full { return TooManyCalls; }
      if done { return Accepted; }
    }
    Decided(c, n, k, fin);
    assert top == 0;
    return MayBeEmpty;
  }

  lemma EndSeen(c: Code, o: Out) returns (fin: State, k: nat)
    requires !o.Diverge? && Beh(Verify, c, 0, o)
    ensures Seen(c, k) == fin && Halted(c, fin) && !fin.Stuck?
    ensures if o.Succ? then fin.Run? && fin.p == |c| && fin.stk == [] else fin == Failing([])
  {
    var none: seq<Capture> := [];
    fin := Final(|c|, [], none, o);
    assert |none| == 0;
    assert Reach(Verify, c, |none|, Run(0, 0, [], none), fin);
    k :| Iter(Verify, c, 0, Run(0, 0, [], none), k) == fin;
  }
}
