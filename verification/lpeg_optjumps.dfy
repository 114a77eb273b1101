/** `optimizejumps` on loop code keeps every run's end, and the code well-formed. */
module LpegOptJumps {
  import opened LpegCode
  import opened LpegSemantics
  import opened LpegMachine
  import opened LpegBehaviour
  import opened LpegRewrite
  import opened LpegCompile
  import opened LpegInvariant
  import opened LpegBasic

  /** The shapes of loop code that make sure it is never taken for a union. */
  ghost predicate LoopShape(c: Code) {
    |c| > 0 &&
    ((!c[0].op.Test? && !c[0].op.Choice?) || RoundLoop(c) || exists b :: Contained(c, b) && !c[b].op.Jmp?)
  }

  /** A test or choice that leaves the loop, and a jump back at the loop's end. */
  predicate RoundLoop(c: Code) {
    |c| > 0 && c[0].off == |c| && !c[0].op.Jmp? &&
    var last := c[|c| - 1];
    last.op.PartialCommit? || (last.op.Jmp? && last.off == 1 - |c|)
  }

  lemma LoopShapeNoPart(c: Code)
    requires LoopShape(c)
    ensures FirstPart(c) == 0
  {
    if exists b :: Contained(c, b) && !c[b].op.Jmp? {
      var b :| Contained(c, b) && !c[b].op.Jmp?;
      ContainedNoPart(c, b);
    }
  }

  lemma HopShape(c: Code, j: int)
    requires LoopShape(c) && AllOk(c) && CanHop(c, j) && !c[j].op.PartialCommit?
    ensures LoopShape(Hop(c, j))
  {
    if exists b :: Contained(c, b) && !c[b].op.Jmp? {
      var b :| Contained(c, b) && !c[b].op.Jmp?;
      HopContained(c, j, b);
    } else if RoundLoop(c) {
      HopRoundLoop(c, j);
    }
  }

  lemma HopRoundLoop(c: Code, j: int)
    requires RoundLoop(c) && AllOk(c) && CanHop(c, j) && !c[j].op.PartialCommit?
    ensures RoundLoop(Hop(c, j))
  {
    var t := j + c[j].off;
    assert InstrOk(c, j) && InstrOk(c, t);
  }

  lemma HopContained(c: Code, j: int, b: int)
    requires Contained(c, b) && !c[b].op.Jmp? && CanHop(c, j)
    ensures Contained(Hop(c, j), b) && !Hop(c, j)[b].op.Jmp?
  {
    var c' := Hop(c, j);
    var t := j + c[j].off;
    assert j < b ==> t < b && t + c[t].off <= b;
    forall i | 0 <= i < b && IsJmp(c'[i].op)
      ensures i + c'[i].off <= b
    {
      assert i != j ==> c'[i] == c[i];
    }
  }

  lemma HopAllOk(c: Code, j: int)
    requires AllOk(c) && CanHop(c, j) && !c[j].op.PartialCommit?
    ensures AllOk(Hop(c, j))
  {
    var c' := Hop(c, j);
    var t := j + c[j].off;
    assert InstrOk(c, j) && InstrOk(c, t);
    assert forall q :: BackTarget(c, q) ==> BackTarget(c', q);
    forall i | 0 <= i < |c'|
      ensures InstrOk(c', i)
    {
      assert InstrOk(c, i);
    }
  }

  lemma HopWF(c: Code, j: int)
    requires WF(c) && LoopShape(c) && CanHop(c, j) && !c[j].op.PartialCommit?
    ensures WF(Hop(c, j))
  {
    HopAllOk(c, j);
    HopShape(c, j);
    LoopShapeNoPart(Hop(c, j));
  }

  lemma CorrectHop(c: Code, e: Expr, j: int)
    requires Correct(c, e) && CanHop(c, j) && !c[j].op.PartialCommit?
    ensures Correct(Hop(c, j), e)
  {
    forall m: Mode, s: int | ValidPos(m, s)
      ensures Beh(m, Hop(c, j), s, Eval(e, m, s))
    {
      var o := Eval(e, m, s);
      assert Beh(m, c, s, o);
      if !o.Diverge? {
        forall caps: seq<Capture>
          ensures Reach(m, Hop(c, j), |caps|, Run(0, s, [], caps), Final(|c|, [], caps, o))
        {
          HopReach(m, c, j, |caps|, Run(0, s, [], caps), Final(|c|, [], caps, o));
        }
      }
    }
  }

  /** Changing the offset at `j` does not change chains of lower rank. */
  lemma TargetLocal(c: Code, c': Code, f: seq<nat>, j: int, i: int)
    requires Falls(c, f) && Falls(c', f) && 0 <= j < |c| && |c'| == |c| && 0 <= i <= |c|
    requires c' == c[j := c'[j]] && c'[j].op == c[j].op && (c[j].op.Jmp? ==> f[i] < f[j])
    ensures Target(c', f, i) == Target(c, f, i)
    decreases f[i]
  {
    if i < |c| && c[i].op.Jmp? {
      assert FallsAt(c, f, i) && FallsAt(c', f, i);
      TargetLocal(c, c', f, j, i + c[i].off);
    }
  }

  lemma HopFalls(c: Code, f: seq<nat>, j: int)
    requires Falls(c, f) && CanHop(c, j)
    ensures Falls(Hop(c, j), f)
  {
    var c' := Hop(c, j);
    var t := j + c[j].off;
    assert FallsAt(c, f, t);
    forall i | 0 <= i < |c'| && c'[i].op.Jmp?
      ensures FallsAt(c', f, i)
    {
      assert FallsAt(c, f, i);
    }
  }

  /** One hop on the way of `optimizejumps`. */
  lemma RetargetHop(c: Code, f: seq<nat>, j: int)
    requires Falls(c, f) && CanHop(c, j)
    ensures Falls(Hop(c, j), f) && Retarget(Hop(c, j), f, j) == Retarget(c, f, j)
    ensures f[j + Hop(c, j)[j].off] < f[j + c[j].off]
  {
    HopFalls(c, f, j);
    var c', t := Hop(c, j), j + c[j].off;
    assert FallsAt(c, f, t);
    if c[j].op.Jmp? { assert FallsAt(c, f, j); }
    var t' := t + c[t].off;
    assert j + c'[j].off == t';
    TargetLocal(c, c', f, j, t');
  }

  lemma RetargetGood(c: Code, f: seq<nat>, e: Expr, i: nat)
    requires WF(c) && LoopShape(c) && Correct(c, e) && i < |c| && IsJmp(c[i].op) && Falls(c, f)
    ensures WF(Retarget(c, f, i)) && LoopShape(Retarget(c, f, i)) && Correct(Retarget(c, f, i), e)
    decreases f[i + c[i].off]
  {
    var t := i + c[i].off;
    assert InstrOk(c, i);
    if t < |c| && c[t].op.Jmp? {
      assert FallsAt(c, f, t);
      if c[i].op.Jmp? { assert FallsAt(c, f, i); }
      HopWF(c, i);
      HopShape(c, i);
      CorrectHop(c, e, i);
      RetargetHop(c, f, i);
      RetargetGood(Hop(c, i), f, e, i);
    } else {
      assert Retarget(c, f, i) == c;
    }
  }

  lemma OptJumpsGood(c: Code, f: seq<nat>, e: Expr, i: nat)
    requires WF(c) && LoopShape(c) && Correct(c, e) && Falls(c, f)
    ensures Good(OptJumps(c, f, i), e)
    decreases |c| - i
  {
    if i >= |c| {
      LoopShapeNoPart(c);
      GoodSimple(c, e);
    } else if IsJmp(c[i].op) {
      RetargetGood(c, f, e, i);
      OptJumpsGood(Retarget(c, f, i), f, e, i + 1);
    } else {
      OptJumpsGood(c, f, e, i + 1);
    }
  }

  /** On loop code every chain of jumps ends, and collapsing the chains keeps the meaning. */
  lemma LoopJumpsGood(c: Code, e: Expr)
    requires WF(c) && LoopShape(c) && Correct(c, e)
    ensures Progress(c) && Good(OptJumps(c, Ranks(c), 0), e)
  {
    WFProgress(c);
    OptJumpsGood(c, Ranks(c), e, 0);
  }
}
