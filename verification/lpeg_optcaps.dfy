/** `optimizecaptures` keeps everything a pattern satisfies: each capture group that crosses a group
    of checks does so by elementary swaps of one capture and one check. */
module LpegOptCaps {
  import opened LpegCode
  import opened LpegSemantics
  import opened LpegMachine
  import opened LpegBehaviour
  import opened LpegRewrite
  import opened LpegCompile
  import opened LpegInvariant
  import opened LpegBasic

  /** A swap that keeps the capture's offset in its four bits. */
  predicate SwapOk(c: Code, i: int) {
    CanSwap(c, i) && c[i].op.n + StepOf(c[i + 1].op.k) <= MAXOFF
  }

  lemma FirstPartSwap(c: Code, i: int)
    requires CanSwap(c, i)
    ensures FirstPart(Swap(c, i)) == FirstPart(c)
    ensures FirstPart(c) > 0 ==> 1 <= i && (i + 1 < FirstPart(c) - 1 || FirstPart(c) <= i)
  {
  }

  lemma WFSwap(c: Code, i: int)
    requires WF(c) && SwapOk(c, i)
    ensures WF(Swap(c, i))
  {
    var c' := Swap(c, i);
    forall j | 0 <= j < |c'|
      ensures InstrOk(c', j)
    {
      assert InstrOk(c, j) && InstrOk(c, i) && InstrOk(c, i + 1);
    }
    FirstPartSwap(c, i);
    if NoZero(c) {
      assert forall j :: 0 <= j < |c'| && IsJmp(c'[j].op) ==> c'[j] == c[j];
      assert NoZero(c');
    }
  }

  lemma CorrectSwap(c: Code, e: Expr, i: int)
    requires Correct(c, e) && CanSwap(c, i)
    ensures Correct(Swap(c, i), e)
  {
    forall m: Mode, s: int | ValidPos(m, s)
      ensures Beh(m, Swap(c, i), s, Eval(e, m, s))
    {
      var o := Eval(e, m, s);
      assert Beh(m, c, s, o);
      if !o.Diverge? {
        forall caps: seq<Capture>
          ensures Reach(m, Swap(c, i), |caps|, Run(0, s, [], caps), Final(|c|, [], caps, o))
        {
          SwapReach(m, c, i, |caps|, Run(0, s, [], caps), Final(|c|, [], caps, o));
        }
      }
    }
  }

  lemma EndsSwap(m: Mode, x: Code, commit: bool, s: int, caps: seq<Capture>, pe: PartEnd, i: int)
    requires CanSwap(x, i) && EndsAt(m, x, commit, s, caps, pe)
    ensures EndsAt(m, Swap(x, i), commit, s, caps, pe)
  {
    var st := Run(0, s, [], caps);
    match pe
    case Thru(s1, d) =>
      if commit {
        var f: Frame :| f.Back? && Reach(m, x, |caps|, st, Run(|x|, s1, [f], caps + d));
        SwapReach(m, x, i, |caps|, st, Run(|x|, s1, [f], caps + d));
      } else {
        SwapReach(m, x, i, |caps|, st, Run(|x|, s1, [], caps + d));
      }
    case Other(s1, d) => SwapReach(m, x, i, |caps|, st, Run(|x| + 1, s1, [], caps + d));
    case Lost => SwapReach(m, x, i, |caps|, st, Failing([]));
  }

  lemma EmptySetSwap(c: Code, i: int)
    requires CanSwap(c, i)
    ensures HasEmptySet(c) ==> HasEmptySet(Swap(c, i))
  {
    if HasEmptySet(c) {
      var j :| 0 <= j < |c| && EmptyAt(c, j);
      assert EmptyAt(Swap(c, i), if j == i + 1 then i else j);
    }
  }

  /** What a part asks of its instructions survives a swap. */
  lemma PartShapeSwap(c: Code, sp: nat, i: int)
    requires 0 < sp <= |c| && OneByte(c, sp) && PartJumps(c, sp)
    requires CanSwap(c, i) && 1 <= i && i + 1 < sp - 1
    ensures OneByte(Swap(c, i), sp) && PartJumps(Swap(c, i), sp)
    ensures !NoFail(c[..sp]) && !NoFail(Swap(c, i)[..sp])
  {
    var c' := Swap(c, i);
    assert !IsNoFail(c[..sp][i + 1].op) && !IsNoFail(c'[..sp][i].op);
    EmptySetSwap(c, i);
  }

  /** A swap inside the first alternative. */
  lemma PartSwap(c: Code, sp: nat, e: Expr, et: Expr, i: int)
    requires 0 < sp <= |c| && Part(c, sp, e, et)
    requires CanSwap(c, i) && 1 <= i && i + 1 < sp - 1
    ensures Part(Swap(c, i), sp, e, et)
  {
    var c' := Swap(c, i);
    var x, x' := c[..sp - 1], c'[..sp - 1];
    assert CanSwap(x, i) && x' == Swap(x, i) by {
      assert forall j :: 0 <= j < |x| ==> x[j] == c[j];
    }
    PartShapeSwap(c, sp, i);
    forall m: Mode, s: int | ValidPos(m, s)
      ensures PartRuns(m, c', sp, e, et, s)
    {
      assert PartRuns(m, c, sp, e, et, s);
      if !Eval(e, m, s).Diverge? {
        forall caps: seq<Capture>
          ensures PartRun(m, c', sp, e, et, s, caps)
        {
          assert PartRun(m, c, sp, e, et, s, caps);
          var pe: PartEnd :| PartCond(m, c, sp, e, et, s, pe) && EndsAt(m, x, c[sp - 1].op.Commit?, s, caps, pe);
          EndsSwap(m, x, c[sp - 1].op.Commit?, s, caps, pe, i);
          assert PartCond(m, c', sp, e, et, s, pe);
        }
      }
    }
  }

  /** A part depends only on its own instructions. */
  lemma PartLocal(c: Code, c': Code, sp: nat, e: Expr, et: Expr)
    requires 0 < sp <= |c| && sp <= |c'| && c[..sp] == c'[..sp] && Part(c, sp, e, et)
    requires HasEmptySet(c) ==> HasEmptySet(c')
    ensures Part(c', sp, e, et)
  {
    assert c'[..sp - 1] == c'[..sp][..sp - 1] == c[..sp - 1];
    assert forall j :: 0 <= j < sp ==> c'[j] == c'[..sp][j] == c[j];
    forall m: Mode, s: int | ValidPos(m, s)
      ensures PartRuns(m, c', sp, e, et, s)
    {
      assert PartRuns(m, c, sp, e, et, s);
      PartRunsLocal(m, c, c', sp, e, et, s);
    }
  }

  lemma PartRunsLocal(m: Mode, c: Code, c': Code, sp: nat, e: Expr, et: Expr, s: int)
    requires 0 < sp <= |c| && sp <= |c'| && c'[..sp - 1] == c[..sp - 1] && c'[..sp] == c[..sp]
    requires c'[0] == c[0] && c'[sp - 1] == c[sp - 1] && ValidPos(m, s) && PartRuns(m, c, sp, e, et, s)
    ensures PartRuns(m, c', sp, e, et, s)
  {
    if !Eval(e, m, s).Diverge? {
      forall caps: seq<Capture>
        ensures PartRun(m, c', sp, e, et, s, caps)
      {
        assert PartRun(m, c, sp, e, et, s, caps);
        var pe: PartEnd :|
          PartCond(m, c, sp, e, et, s, pe) && EndsAt(m, c[..sp - 1], c[sp - 1].op.Commit?, s, caps, pe);
        assert PartCond(m, c', sp, e, et, s, pe);
      }
    }
  }

  lemma InvSwap(c: Code, es: seq<Expr>, i: int)
    requires Inv(c, es) && SwapOk(c, i)
    ensures Inv(Swap(c, i), es)
    decreases |c|
  {
    var c' := Swap(c, i);
    var sp := FirstPart(c);
    WFSwap(c, i);
    CorrectSwap(c, es[0], i);
    FirstPartSwap(c, i);
    if sp > 0 {
      if i < sp {
        assert c'[sp..] == c[sp..];
        PartSwap(c, sp, es[0], es[1], i);
      } else {
        assert c'[..sp] == c[..sp];
        EmptySetSwap(c, i);
        PartLocal(c, c', sp, es[0], es[1]);
        var r := c[sp..];
        assert SwapOk(r, i - sp) by {
          forall j | 0 <= j < |r| && IsJmp(r[j].op)
            ensures j + r[j].off != i - sp + 1
          {
            assert r[j] == c[sp + j];
          }
        }
        assert c'[sp..] == Swap(r, i - sp);
        InvSwap(r, es[1..], i - sp);
      }
    }
  }

  // ----- a group of captures crosses a group of checks -----

  predicate NoTargetIn(c: Code, lo: int, hi: int) {
    forall q :: lo < q <= hi ==> NoTarget(c, q)
  }

  lemma SwapNoTargetIn(c: Code, i: int, lo: int, hi: int)
    requires CanSwap(c, i) && NoTargetIn(c, lo, hi)
    ensures NoTargetIn(Swap(c, i), lo, hi)
  {
    var c' := Swap(c, i);
    forall q | lo < q <= hi
      ensures NoTarget(c', q)
    {
      assert NoTarget(c, q);
      assert forall j :: 0 <= j < |c'| && IsJmp(c'[j].op) ==> c'[j] == c[j];
    }
  }

  /** The captures `start..i` and the check at `i + 1` change places. */
  function CheckFirst(c: Code, start: nat, i: nat): (r: Code)
    requires start <= i && i + 1 < |c| && c[i + 1].op.Check?
    requires forall j {:trigger c[j]} :: start <= j <= i ==> c[j].op.Cap?
    ensures |r| == |c|
  {
    var n := StepOf(c[i + 1].op.k);
    c[..start] + [c[i + 1]] + seq(i + 1 - start,
      j requires 0 <= j < i + 1 - start => Later(c[start + j], n)) + c[i + 2..]
  }

  lemma InvCheckFirst(c: Code, es: seq<Expr>, start: nat, i: nat, hi: nat)
    requires Inv(c, es) && start <= i < hi < |c| && c[i + 1].op.Check?
    requires forall j {:trigger c[j]} :: start <= j <= i ==>
      c[j].op.Cap? && c[j].op.form != Full && c[j].op.n + StepOf(c[i + 1].op.k) <= MAXOFF
    requires NoTargetIn(c, start, hi)
    ensures Inv(CheckFirst(c, start, i), es)
    ensures NoTargetIn(CheckFirst(c, start, i), start, hi)
    decreases i
  {
    var c1 := Swap(c, i);
    assert SwapOk(c, i) by { assert NoTarget(c, i + 1); }
    InvSwap(c, es, i);
    SwapNoTargetIn(c, i, start, hi);
    if start == i {
      assert CheckFirst(c, start, i) == c1;
    } else {
      CheckFirstStep(c, start, i);
      InvCheckFirst(c1, es, start, i - 1, hi);
    }
  }

  /** The check crosses the last capture of the group, and then the others. */
  lemma CheckFirstStep(c: Code, start: nat, i: nat)
    requires start < i && i + 1 < |c| && c[i + 1].op.Check? && CanSwap(c, i)
    requires forall j {:trigger c[j]} :: start <= j <= i ==> c[j].op.Cap?
    ensures
      var c1 := Swap(c, i);
      && c1[i] == c[i + 1] && (forall j {:trigger c1[j]} :: start <= j <= i - 1 ==> c1[j] == c[j])
      && CheckFirst(c, start, i) == CheckFirst(c1, start, i - 1)
  {
    var c1 := Swap(c, i);
    assert c1[i] == c[i + 1];
    assert forall j {:trigger c1[j]} :: start <= j <= i - 1 ==> c1[j] == c[j];
  }

  lemma DelayedSplit(g: Code, g1: Code, st: nat, n: nat)
    requires |g| == |g1| && st <= n && forall j {:trigger g[j]} :: 0 <= j < |g| ==>
      g[j].op.Cap? && g[j].op.n + n <= MAXOFF
    requires forall j {:trigger g1[j]} :: 0 <= j < |g| ==> g1[j].op.Cap? && g1[j] == Later(g[j], st)
    ensures Delayed(g, n) == Delayed(g1, n - st)
  {
    var d, d1 := Delayed(g, n), Delayed(g1, n - st);
    forall j | 0 <= j < |g|
      ensures d[j] == d1[j]
    {
      assert g1[j] == Later(g[j], st);
    }
  }

  lemma MoveGroupStep(c: Code, start: nat, i: nat, cnt: nat, n: nat)
    requires start <= i && i + cnt < |c| && cnt > 0 && c[i + 1].op.Check?
    requires forall j {:trigger c[j]} :: start <= j <= i ==> c[j].op.Cap? && c[j].op.n + n <= MAXOFF
    requires StepOf(c[i + 1].op.k) <= n
    ensures
      var st := StepOf(c[i + 1].op.k);
      var c1 := CheckFirst(c, start, i);
      && (forall j {:trigger c1[j]} :: start + 1 <= j <= i + 1 ==> c1[j].op.Cap?)
      && MoveGroup(c, start, i, cnt, n) == MoveGroup(c1, start + 1, i + 1, cnt - 1, n - st)
  {
    var st := StepOf(c[i + 1].op.k);
    var c1 := CheckFirst(c, start, i);
    CheckFirstAt(c, start, i);
    var g, g1 := c[start..i + 1], c1[start + 1..i + 2];
    assert forall j {:trigger g[j]} :: 0 <= j < |g| ==> g[j] == c[start + j];
    assert forall j {:trigger g1[j]} :: 0 <= j < |g| ==> g1[j] == c1[start + 1 + j];
    DelayedSplit(g, g1, st, n);
    MoveGroupParts(c, c1, start, i, cnt);
  }

  /** The other parts of the code before and after the first check has moved. */
  lemma MoveGroupParts(c: Code, c1: Code, start: nat, i: nat, cnt: nat)
    requires start <= i && i + cnt < |c| == |c1| && cnt > 0
    requires c1[..start] == c[..start] && c1[start] == c[i + 1] && c1[i + 2..] == c[i + 2..]
    ensures c[..start] + c[i + 1..i + 1 + cnt] == c1[..start + 1] + c1[i + 2..i + 1 + cnt]
    ensures c1[i + 1 + cnt..] == c[i + 1 + cnt..]
  {
    assert c1[..start + 1] == c[..start] + [c[i + 1]];
    assert c1[i + 2..i + 1 + cnt] == c1[i + 2..][..cnt - 1] == c[i + 2..i + 1 + cnt];
    assert c[i + 1..i + 1 + cnt] == [c[i + 1]] + c[i + 2..i + 1 + cnt];
    assert c1[i + 1 + cnt..] == c1[i + 2..][cnt - 1..] == c[i + 1 + cnt..];
  }

  function Bytes(c: Code, i: nat, cnt: nat): nat
    requires i + cnt <= |c| && forall j {:trigger c[j]} :: i <= j < i + cnt ==> c[j].op.Check?
    decreases cnt
  {
    if cnt == 0 then 0 else StepOf(c[i].op.k) + Bytes(c, i + 1, cnt - 1)
  }

  lemma BytesLocal(c: Code, c1: Code, i: nat, cnt: nat)
    requires |c| == |c1| && i + cnt <= |c|
    requires forall j {:trigger c[j]} :: i <= j < i + cnt ==> c[j].op.Check?
    requires forall j {:trigger c1[j]} :: i <= j < i + cnt ==> c1[j] == c[j]
    ensures Bytes(c, i, cnt) == Bytes(c1, i, cnt)
    decreases cnt
  {
    if cnt > 0 {
      assert c1[i] == c[i];
      BytesLocal(c, c1, i + 1, cnt - 1);
    }
  }

  /** What is left to move after the first check has gone in front. */
  lemma StillMovable(c: Code, start: nat, i: nat, cnt: nat, n: nat)
    requires start <= i && i + cnt < |c| && cnt > 0
    requires forall j {:trigger c[j]} :: start <= j <= i ==>
      c[j].op.Cap? && c[j].op.form != Full && c[j].op.n + n <= MAXOFF
    requires forall j {:trigger c[j]} :: i + 1 <= j < i + 1 + cnt ==> c[j].op.Check?
    requires n == Bytes(c, i + 1, cnt)
    ensures
      var c1, n1 := CheckFirst(c, start, i), n - StepOf(c[i + 1].op.k);
      && (forall j {:trigger c1[j]} :: start + 1 <= j <= i + 1 ==>
        c1[j].op.Cap? && c1[j].op.form != Full && c1[j].op.n + n1 <= MAXOFF)
      && (forall j {:trigger c1[j]} :: i + 2 <= j < i + 1 + cnt ==> c1[j].op.Check?)
      && n1 == Bytes(c1, i + 2, cnt - 1)
  {
    CheckFirstAt(c, start, i);
    BytesLocal(c, CheckFirst(c, start, i), i + 2, cnt - 1);
  }

  /** Captures `start..i` with room for `n` more bytes, and `cnt` checks of `n` bytes behind them. */
  predicate Movable(c: Code, start: nat, i: nat, cnt: nat, n: nat) {
    && start <= i && i + cnt < |c|
    && (forall j {:trigger c[j]} :: start <= j <= i ==> c[j].op.Cap? && c[j].op.form != Full && c[j].op.n + n <= MAXOFF)
    && (forall j {:trigger c[j]} :: i + 1 <= j < i + 1 + cnt ==> c[j].op.Check?)
    && n == Bytes(c, i + 1, cnt)
  }

  /** One check crosses the group; the rest is a smaller move. */
  lemma MoveOneCheck(c: Code, es: seq<Expr>, start: nat, i: nat, cnt: nat, n: nat) returns (c1: Code, n1: nat)
    requires Inv(c, es) && Movable(c, start, i, cnt, n) && cnt > 0 && NoTargetIn(c, start, i + cnt)
    ensures Inv(c1, es) && Movable(c1, start + 1, i + 1, cnt - 1, n1) && NoTargetIn(c1, start, i + cnt)
    ensures MoveGroup(c, start, i, cnt, n) == MoveGroup(c1, start + 1, i + 1, cnt - 1, n1)
  {
    c1, n1 := CheckFirst(c, start, i), n - StepOf(c[i + 1].op.k);
    InvCheckFirst(c, es, start, i, i + cnt);
    MoveGroupStep(c, start, i, cnt, n);
    StillMovable(c, start, i, cnt, n);
  }

  lemma InvMoveGroup(c: Code, es: seq<Expr>, start: nat, i: nat, cnt: nat, n: nat)
    requires Inv(c, es) && Movable(c, start, i, cnt, n) && NoTargetIn(c, start, i + cnt)
    ensures Inv(MoveGroup(c, start, i, cnt, n), es)
    decreases cnt
  {
    if cnt == 0 {
      MoveGroupNone(c, start, i);
    } else {
      var c1, n1 := MoveOneCheck(c, es, start, i, cnt, n);
      assert NoTargetIn(c1, start + 1, i + 1 + (cnt - 1));
      InvMoveGroup(c1, es, start + 1, i + 1, cnt - 1, n1);
    }
  }

  lemma MoveGroupNone(c: Code, start: nat, i: nat)
    requires start <= i < |c|
    requires forall j {:trigger c[j]} :: start <= j <= i ==> c[j].op.Cap? && c[j].op.n <= MAXOFF
    ensures MoveGroup(c, start, i, 0, 0) == c
  {
    var g := c[start..i + 1];
    forall j | 0 <= j < |g|
      ensures Delayed(g, 0)[j] == g[j]
    {
      assert g[j] == c[start + j];
    }
    assert Delayed(g, 0) == g;
  }

  lemma CheckFirstAt(c: Code, start: nat, i: nat)
    requires start <= i && i + 1 < |c| && c[i + 1].op.Check?
    requires forall j {:trigger c[j]} :: start <= j <= i ==> c[j].op.Cap?
    ensures
      var c1 := CheckFirst(c, start, i);
      && (forall j {:trigger c1[j]} :: start + 1 <= j <= i + 1 ==> c1[j] == Later(c[j - 1], StepOf(c[i + 1].op.k)))
      && (forall j {:trigger c1[j]} :: i + 2 <= j < |c| ==> c1[j] == c[j])
      && c1[..start] == c[..start] && c1[start] == c[i + 1] && c1[i + 2..] == c[i + 2..]
  {
  }

  lemma SkipChecksBytes(c: Code, i: nat, room: nat)
    requires i <= |c|
    ensures SkipChecks(c, i, room).1 == Bytes(c, i, SkipChecks(c, i, room).0)
    decreases |c| - i
  {
    if i < |c| && c[i].op.Check? && StepOf(c[i].op.k) <= room {
      SkipChecksBytes(c, i + 1, room - StepOf(c[i].op.k));
    }
  }

  /** All jumps in front of `i` go below `limit`. */
  predicate JumpsBelow(c: Code, i: int, limit: int) {
    forall j :: 0 <= j < i && j < |c| && IsJmp(c[j].op) ==> j + c[j].off < limit
  }

  /** No jump goes into a group of captures and checks behind `limit`. */
  lemma GroupNoTarget(c: Code, start: nat, i: nat, cnt: nat, limit: nat)
    requires AllOk(c) && limit <= start <= i && i + cnt < |c|
    requires forall j {:trigger c[j]} :: start <= j <= i ==> c[j].op.Cap?
    requires forall j {:trigger c[j]} :: i + 1 <= j < i + 1 + cnt ==> c[j].op.Check?
    requires JumpsBelow(c, i, limit)
    ensures NoTargetIn(c, start, i + cnt)
  {
    forall q | start < q <= i + cnt
      ensures NoTarget(c, q)
    {
      assert (c[q].op.Cap? || c[q].op.Check?) && (c[q - 1].op.Cap? || c[q - 1].op.Check?);
      forall j | 0 <= j < |c| && IsJmp(c[j].op)
        ensures j + c[j].off != q
      {
        assert InstrOk(c, j);
      }
    }
  }

  lemma JumpsBelowMove(c: Code, start: nat, i: nat, cnt: nat, n: nat, limit: int)
    requires start <= i && i + cnt < |c|
    requires forall j {:trigger c[j]} :: start <= j <= i ==> c[j].op.Cap?
    requires forall j {:trigger c[j]} :: i + 1 <= j < i + 1 + cnt ==> c[j].op.Check?
    requires JumpsBelow(c, i, limit)
    ensures JumpsBelow(MoveGroup(c, start, i, cnt, n), i + cnt + 1, limit)
  {
    var r := MoveGroup(c, start, i, cnt, n);
    forall j | 0 <= j < i + cnt + 1
      ensures IsJmp(r[j].op) ==> j + r[j].off < limit
    {
      if j < start {
        assert r[j] == c[j];
      } else if j < start + cnt {
        assert r[j] == c[i + 1 + (j - start)];
      } else {
        assert r[j].op.Cap?;
      }
    }
  }

  lemma MoveInv(c: Code, es: seq<Expr>, start: nat, i: nat, cnt: nat, n: nat, limit: nat)
    requires Inv(c, es) && JumpsBelow(c, i, limit)
    requires limit <= i < |c| && IsMovableCap(c[i].op)
    requires start == GroupStart(c, i, limit)
    requires (cnt, n) == SkipChecks(c, i + 1, MAXOFF - MaxOff(c, start, i))
    ensures i + cnt < |c| && forall j {:trigger c[j]} :: start <= j <= i ==> c[j].op.Cap?
    ensures Inv(MoveGroup(c, start, i, cnt, n), es)
    ensures JumpsBelow(MoveGroup(c, start, i, cnt, n), i + cnt + 1, limit)
  {
    SkipChecksBytes(c, i + 1, MAXOFF - MaxOff(c, start, i));
    GroupNoTarget(c, start, i, cnt, limit);
    InvMoveGroup(c, es, start, i, cnt, n);
    JumpsBelowMove(c, start, i, cnt, n, limit);
  }

  lemma MoveRoundInv(c: Code, es: seq<Expr>, i: nat, limit: nat)
    requires Inv(c, es) && JumpsBelow(c, i, limit)
    requires limit <= i < |c| && IsMovableCap(c[i].op)
    ensures var r := MoveRound(c, i, limit); Inv(r.0, es) && JumpsBelow(r.0, r.1, limit)
  {
    var start := GroupStart(c, i, limit);
    var r := SkipChecks(c, i + 1, MAXOFF - MaxOff(c, start, i));
    if r.1 != 0 {
      MoveInv(c, es, start, i, r.0, r.1, limit);
      assert MoveRound(c, i, limit) == (MoveGroup(c, start, i, r.0, r.1), i + r.0 + 1);
    } else {
      assert MoveRound(c, i, limit) == (c, i + 1);
    }
  }

  lemma OptCapsRoundInv(c: Code, es: seq<Expr>, i: nat, limit: nat)
    requires Inv(c, es) && JumpsBelow(c, i, limit) && i < |c|
    ensures var r := OptCapsRound(c, i, limit); Inv(r.0, es) && JumpsBelow(r.0, r.1, r.2)
  {
    if IsJmp(c[i].op) && i + c[i].off >= limit {
    } else if i >= limit && IsMovableCap(c[i].op) && i + 1 < |c| && c[i + 1].op.Check? {
      MoveRoundInv(c, es, i, limit);
    }
  }

  /** `optimizecaptures` keeps the invariant: the result of every run and its exact captures, and the
      places a union may be split. */
  lemma OptCapsInv(c: Code, es: seq<Expr>, i: nat, limit: nat)
    requires Inv(c, es) && JumpsBelow(c, i, limit)
    ensures Inv(OptCaps(c, i, limit), es)
    decreases |c| - i
  {
    if i < |c| {
      OptCapsRoundInv(c, es, i, limit);
      var r := OptCapsRound(c, i, limit);
      OptCapsInv(r.0, es, r.1, r.2);
    }
  }

  lemma OptCapsGood(c: Code, e: Expr)
    requires Good(c, e)
    ensures Good(OptCaps(c, 0, 0), e)
  {
    var es: seq<Expr> :| |es| > 0 && es[0] == e && Inv(c, es);
    OptCapsInv(c, es, 0, 0);
  }
}
