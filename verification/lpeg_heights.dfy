/** Stack discipline: every instruction of a pattern has a fixed number of pending choices below it, whatever
    path leads there.  The heights are found when the pattern is built. */
module LpegHeights {
  import opened LpegCode
  import opened LpegSemantics
  import opened LpegBehaviour
  import opened LpegCompile
  import opened LpegInvariant
  import opened LpegBasic
  import opened LpegUnion
  import opened LpegPredicates
  import opened LpegLoops
  import opened LpegOptional

  /** How the heights around one instruction of a body are related. */
  predicate HeightAt(c: Code, h: seq<nat>, i: nat)
    requires i < |c| && |h| == |c| + 1
  {
    var t := i + c[i].off;
    (IsJmp(c[i].op) ==> 0 <= t <= |c|) &&
    match c[i].op
    case Choice(_) => h[i + 1] == h[i] + 1 && h[t] == h[i]
    case Test(_) => h[i + 1] == h[i] && h[t] == h[i]
    case Jmp => h[t] == h[i]
    case Commit => h[i] == h[t] + 1
    case BackCommit => h[i] == h[t] + 1
    case PartialCommit => h[i] > 0 && h[t] == h[i]
    case FailTwice => h[i] > 0
    case Fail(_) => true
    case Call => false
    case Ret => false
    case _ => h[i + 1] == h[i]
  }

  ghost predicate Leveled(c: Code, h: seq<nat>) {
    && |h| == |c| + 1 && h[0] == 0 && h[|c|] == 0
    && forall i {:trigger HeightAt(c, h, i)} :: 0 <= i < |c| ==> HeightAt(c, h, i)
  }

  ghost predicate Level(c: Code) {
    exists h: seq<nat> :: Leveled(c, h)
  }

  function Up(h: seq<nat>, d: nat): (r: seq<nat>)
    ensures |r| == |h| && forall j {:trigger r[j]} :: 0 <= j < |h| ==> r[j] == h[j] + d
  {
    seq(|h|, j requires 0 <= j < |h| => h[j] + d)
  }

  /** The instructions `lo..hi` of a body, moved to other code `d` levels up. */
  lemma Placed(P: Code, hP: seq<nat>, at: nat, c: Code, h: seq<nat>, d: nat, lo: nat, hi: nat)
    requires |h| == |c| + 1 && |hP| == |P| + 1 && at + |c| <= |P| && lo <= hi <= |c|
    requires forall i {:trigger HeightAt(c, h, i)} :: lo <= i < hi ==> HeightAt(c, h, i)
    requires forall i {:trigger c[i]} :: lo <= i < hi ==> P[at + i] == c[i]
    requires forall j {:trigger h[j]} :: 0 <= j <= |c| ==> hP[at + j] == h[j] + d
    ensures forall i {:trigger HeightAt(P, hP, i)} :: at + lo <= i < at + hi ==> HeightAt(P, hP, i)
  {
    forall i | at + lo <= i < at + hi
      ensures HeightAt(P, hP, i)
    {
      var j := i - at;
      assert HeightAt(c, h, j) && P[at + j] == c[j];
      assert hP[at + j] == h[j] + d && hP[at + (j + 1)] == h[j + 1] + d;
      if IsJmp(c[j].op) { assert hP[at + (j + c[j].off)] == h[j + c[j].off] + d; }
    }
  }

  // ----- straight code -----

  lemma OneLevel(ins: Instr)
    requires !IsJmp(ins.op) && !ins.op.FailTwice? && !ins.op.Ret?
    ensures Level([ins])
  {
    var h := [0, 0];
    assert Leveled([ins], h) by { assert HeightAt([ins], h, 0); }
  }

  lemma NoneLevel()
    ensures Level([])
  {
    assert Leveled([], [0]);
  }

  lemma ConcatLevel(a: Code, b: Code)
    requires Level(a) && Level(b)
    ensures Level(a + b)
  {
    var ha: seq<nat> :| Leveled(a, ha);
    var hb: seq<nat> :| Leveled(b, hb);
    var (c, h) := (a + b, ha[..|a|] + hb);
    Placed(c, h, 0, a, ha, 0, 0, |a|);
    Placed(c, h, |a|, b, hb, 0, 0, |b|);
    assert Leveled(c, h);
  }

  lemma {:induction false} ChecksLevel(c: Code)
    requires forall i {:trigger c[i]} :: 0 <= i < |c| ==> c[i].op.Check?
    ensures Level(c)
    decreases |c|
  {
    if c == [] {
      NoneLevel();
    } else {
      var last := c[|c| - 1];
      ChecksLevel(c[..|c| - 1]);
      OneLevel(last);
      ConcatLevel(c[..|c| - 1], [last]);
      assert c == c[..|c| - 1] + [last];
    }
  }

  lemma {:induction false} TimesLevel(c: Code, n: nat)
    requires Level(c)
    ensures Level(Times(c, n))
    decreases n
  {
    if n == 0 {
      NoneLevel();
    } else {
      TimesLevel(c, n - 1);
      ConcatLevel(c, Times(c, n - 1));
    }
  }

  // ----- optimizers -----

  /** Captures and checks stay on one level, so they may change places. */
  lemma {:induction false} FlatRegion(c: Code, h: seq<nat>, lo: nat, hi: nat, j: nat)
    requires Leveled(c, h) && lo <= j <= hi <= |c|
    requires forall i {:trigger c[i]} :: lo <= i < hi ==> c[i].op.Cap? || c[i].op.Check?
    ensures h[j] == h[lo]
    decreases j
  {
    if j > lo {
      FlatRegion(c, h, lo, hi, j - 1);
      assert HeightAt(c, h, j - 1) && (c[j - 1].op.Cap? || c[j - 1].op.Check?);
    }
  }

  lemma MoveGroupLeveled(c: Code, h: seq<nat>, start: nat, i: nat, cnt: nat, n: nat)
    requires Leveled(c, h) && start <= i && i + cnt < |c|
    requires forall j {:trigger c[j]} :: start <= j <= i ==> c[j].op.Cap?
    requires forall j {:trigger c[j]} :: i + 1 <= j < i + 1 + cnt ==> c[j].op.Check?
    ensures Leveled(MoveGroup(c, start, i, cnt, n), h)
  {
    var (d, hi) := (MoveGroup(c, start, i, cnt, n), i + 1 + cnt);
    forall k | 0 <= k < |d|
      ensures HeightAt(d, h, k)
    {
      assert HeightAt(c, h, k);
      if start <= k < hi {
        FlatRegion(c, h, start, hi, k);
        FlatRegion(c, h, start, hi, k + 1);
        MovedInstr(c, start, i, cnt, n, k);
      } else {
        assert d[k] == c[k];
      }
    }
  }

  lemma MovedInstr(c: Code, start: nat, i: nat, cnt: nat, n: nat, k: nat)
    requires start <= i && i + cnt < |c| && start <= k < i + 1 + cnt
    requires forall j {:trigger c[j]} :: start <= j <= i ==> c[j].op.Cap?
    requires forall j {:trigger c[j]} :: i + 1 <= j < i + 1 + cnt ==> c[j].op.Check?
    ensures MoveGroup(c, start, i, cnt, n)[k].op.Cap? || MoveGroup(c, start, i, cnt, n)[k].op.Check?
  {
    var d := MoveGroup(c, start, i, cnt, n);
    var g := c[start..i + 1];
    assert forall j {:trigger g[j]} :: 0 <= j < |g| ==> g[j] == c[start + j];
    if k < start + cnt {
      assert d[k] == c[i + 1 + (k - start)];
    } else {
      assert d[k] == Delayed(g, n)[k - start - cnt];
    }
  }

  lemma {:induction false} OptCapsLeveled(c: Code, h: seq<nat>, i: nat, limit: nat)
    requires Leveled(c, h)
    ensures Leveled(OptCaps(c, i, limit), h)
    decreases |c| - i
  {
    if i < |c| {
      var r := OptCapsRound(c, i, limit);
      if r.0 != c { RoundLeveled(c, h, i, limit); }
      OptCapsLeveled(r.0, h, r.1, r.2);
    }
  }

  lemma RoundLeveled(c: Code, h: seq<nat>, i: nat, limit: nat)
    requires Leveled(c, h) && i < |c| && OptCapsRound(c, i, limit).0 != c
    ensures Leveled(OptCapsRound(c, i, limit).0, h)
  {
    var start := GroupStart(c, i, limit);
    var (cnt, n) := SkipChecks(c, i + 1, MAXOFF - MaxOff(c, start, i));
    forall j | start <= j <= i
      ensures c[j].op.Cap?
    {
      assert IsMovableCap(c[j].op);
    }
    MoveGroupLeveled(c, h, start, i, cnt, n);
  }

  lemma OptCapsLevel(c: Code)
    requires Level(c)
    ensures Level(OptCaps(c, 0, 0))
  {
    var h: seq<nat> :| Leveled(c, h);
    OptCapsLeveled(c, h, 0, 0);
  }

  lemma {:induction false} TargetLevel(c: Code, h: seq<nat>, f: seq<nat>, i: int)
    requires Leveled(c, h) && Falls(c, f) && 0 <= i <= |c|
    ensures h[Target(c, f, i)] == h[i]
    decreases f[i]
  {
    if i < |c| && c[i].op.Jmp? {
      assert FallsAt(c, f, i) && HeightAt(c, h, i);
      TargetLevel(c, h, f, i + c[i].off);
    }
  }

  lemma {:induction false} OptJumpsLeveled(c: Code, h: seq<nat>, f: seq<nat>, i: nat)
    requires Leveled(c, h) && Falls(c, f)
    ensures Leveled(OptJumps(c, f, i), h)
    decreases |c| - i
  {
    if i < |c| {
      if IsJmp(c[i].op) {
        RetargetLeveled(c, h, f, i);
        OptJumpsLeveled(Retarget(c, f, i), h, f, i + 1);
      } else {
        OptJumpsLeveled(c, h, f, i + 1);
      }
    }
  }

  lemma RetargetLeveled(c: Code, h: seq<nat>, f: seq<nat>, i: nat)
    requires Leveled(c, h) && Falls(c, f) && i < |c| && IsJmp(c[i].op)
    ensures Leveled(Retarget(c, f, i), h)
  {
    var r := Retarget(c, f, i);
    TargetLevel(c, h, f, i + c[i].off);
    forall k | 0 <= k < |r|
      ensures HeightAt(r, h, k)
    {
      assert HeightAt(c, h, k);
    }
  }

  /** A check that moves in front of its choice leaves the level of the choice. */
  lemma OptimizeChoiceLevel(c: Code)
    requires Level(c) && |c| > 0 && c[0].op.Choice?
    requires forall i {:trigger c[i]} :: 2 <= i < |c| && IsJmp(c[i].op) ==> i + c[i].off != 1
    ensures Level(OptimizeChoice(c))
  {
    var h: seq<nat> :| Leveled(c, h);
    if |c| > 1 && c[1].op.Check? {
      var (r, h1) := (OptimizeChoice(c), h[1 := 0]);
      assert HeightAt(c, h, 0) && HeightAt(c, h, 1);
      assert c[0].off != 1;
      forall i | 0 <= i < |r|
        ensures HeightAt(r, h1, i)
      {
        assert HeightAt(c, h, i);
        if i >= 2 { assert r[i] == c[i]; }
      }
      assert Leveled(r, h1);
    }
  }

  // ----- tests and choices in front of a body -----

  /** A body whose first check has become a test that leads to level 0. */
  lemma TestPlaced(P: Code, hP: seq<nat>, c: Code, h: seq<nat>)
    requires Leveled(c, h) && |c| > 0 && c[0].op.Check? && |hP| == |P| + 1 && |c| <= |P|
    requires P[0].op.Test? && 0 <= P[0].off <= |P| && hP[P[0].off] == 0
    requires forall i {:trigger c[i]} :: 1 <= i < |c| ==> P[i] == c[i]
    requires forall j {:trigger h[j]} :: 0 <= j <= |c| ==> hP[j] == h[j]
    ensures forall i {:trigger HeightAt(P, hP, i)} :: 0 <= i < |c| ==> HeightAt(P, hP, i)
  {
    assert HeightAt(c, h, 0);
    assert hP[0] == h[0] && hP[1] == h[1];
    assert HeightAt(P, hP, 0);
    Placed(P, hP, 0, c, h, 0, 1, |c|);
  }

  /** A body behind a choice that leads to level 0. */
  lemma ChoicePlaced(P: Code, hP: seq<nat>, c: Code, h: seq<nat>)
    requires Leveled(c, h) && |hP| == |P| + 1 && 1 + |c| <= |P|
    requires P[0].op.Choice? && 0 <= P[0].off <= |P| && hP[0] == 0 && hP[P[0].off] == 0
    requires P[1..1 + |c|] == c
    requires forall j {:trigger h[j]} :: 0 <= j <= |c| ==> hP[1 + j] == h[j] + 1
    ensures forall i {:trigger HeightAt(P, hP, i)} :: 0 <= i < 1 + |c| ==> HeightAt(P, hP, i)
  {
    assert hP[1 + 0] == h[0] + 1;
    assert HeightAt(P, hP, 0);
    assert forall i {:trigger c[i]} :: 0 <= i < |c| ==> P[1 + i] == P[1..1 + |c|][i] == c[i];
    Placed(P, hP, 1, c, h, 1, 0, |c|);
  }

  /** Where the body stands behind an unoptimized choice, no jump leads to its start. */
  lemma NoJumpToBody(P: Code, c: Code)
    requires 1 + |c| <= |P| && P[1..1 + |c|] == c && NoZero(c)
    ensures forall i {:trigger P[i]} :: 2 <= i < 1 + |c| && IsJmp(P[i].op) ==> i + P[i].off != 1
  {
    forall i | 2 <= i < 1 + |c| && IsJmp(P[i].op)
      ensures i + P[i].off != 1
    {
      assert P[i] == P[1..1 + |c|][i - 1] == c[i - 1];
    }
  }

  // ----- difference and and-predicate -----

  lemma TestDiffLevel(c1: Code, c2: Code)
    requires Level(c1) && Level(c2) && |c2| > 0 && c2[0].op.Check?
    ensures Level(TestDiff(c1, c2))
  {
    var h1: seq<nat> :| Leveled(c1, h1);
    var h2: seq<nat> :| Leveled(c2, h2);
    var (P, h) := (TestDiff(c1, c2), h2 + h1);
    TestPlaced(P, h, c2, h2);
    assert HeightAt(P, h, |c2|);
    Placed(P, h, |c2| + 1, c1, h1, 0, 0, |c1|);
    assert Leveled(P, h);
  }

  /** A choice, a body, an instruction that takes the choice away or fails, and other code. */
  lemma GuardedLeveled(P: Code, hP: seq<nat>, c: Code, h: seq<nat>, rest: Code, hr: seq<nat>)
    requires Leveled(c, h) && Leveled(rest, hr) && |P| == |c| + 2 + |rest| && |hP| == |P| + 1
    requires P[0] == Instr(Choice(0), |c| + 2) && P[1..1 + |c|] == c && P[|c| + 2..] == rest && hP[0] == 0
    requires P[|c| + 1].op.FailTwice? || P[|c| + 1] == Instr(Commit, |rest| + 1)
    requires forall j {:trigger h[j]} :: 0 <= j <= |c| ==> hP[1 + j] == h[j] + 1
    requires forall j {:trigger hr[j]} :: 0 <= j <= |rest| ==> hP[|c| + 2 + j] == hr[j]
    ensures Leveled(P, hP)
  {
    assert hr[0] == 0 && hr[|rest|] == 0 && h[|c|] == 0;
    ChoicePlaced(P, hP, c, h);
    assert HeightAt(P, hP, |c| + 1);
    assert forall i {:trigger rest[i]} :: 0 <= i < |rest| ==> P[|c| + 2 + i] == P[|c| + 2..][i] == rest[i];
    Placed(P, hP, |c| + 2, rest, hr, 0, 0, |rest|);
  }

  lemma GuardedParts(P: Code, c: Code, ins: Instr, rest: Code)
    requires P == [Instr(Choice(0), |c| + 2)] + c + [ins] + rest
    ensures |P| == |c| + 2 + |rest| && P[0] == Instr(Choice(0), |c| + 2) && P[|c| + 1] == ins
    ensures P[1..1 + |c|] == c && P[|c| + 2..] == rest && P[1] == if c == [] then ins else c[0]
  {
  }

  lemma GuardedLevel(P: Code, c: Code, ins: Instr, rest: Code)
    requires P == [Instr(Choice(0), |c| + 2)] + c + [ins] + rest && Level(c) && Level(rest)
    requires ins.op.FailTwice? || ins == Instr(Commit, |rest| + 1)
    ensures Level(P)
  {
    var h: seq<nat> :| Leveled(c, h);
    var hr: seq<nat> :| Leveled(rest, hr);
    GuardedParts(P, c, ins, rest);
    GuardedLeveled(P, [0] + Up(h, 1) + hr, c, h, rest, hr);
  }

  lemma GuardedOptLevel(c: Code, ins: Instr, rest: Code)
    requires WF(c) && Level(c) && WF(rest) && Level(rest)
    requires ins.op.FailTwice? || ins == Instr(Commit, |rest| + 1)
    ensures Level(OptimizeChoice([Instr(Choice(0), |c| + 2)] + c + [ins] + rest))
  {
    var P := [Instr(Choice(0), |c| + 2)] + c + [ins] + rest;
    GuardedLevel(P, c, ins, rest);
    GuardedParts(P, c, ins, rest);
    if P[1].op.Check? {
      CheckFirstNoZero(c);
      NoJumpToBody(P, c);
      RestJumps(P, |c| + 2, rest);
      OptimizeChoiceLevel(P);
    }
  }

  /** Code behind a body does not jump into it. */
  lemma RestJumps(P: Code, at: nat, rest: Code)
    requires at >= 2 && at + |rest| == |P| && P[at..] == rest && AllOk(rest)
    ensures forall i {:trigger P[i]} :: at <= i < |P| && IsJmp(P[i].op) ==> i + P[i].off >= at
  {
    forall i | at <= i < |P| && IsJmp(P[i].op)
      ensures i + P[i].off >= at
    {
      assert P[i] == P[at..][i - at] && InstrOk(rest, i - at);
    }
  }

  lemma DiffLevel(c1: Code, c2: Code)
    requires WF(c1) && Level(c1) && WF(c2) && Level(c2)
    ensures Level(DiffCode(c1, c2))
  {
    var t1, t2 := ToCharset(c1), ToCharset(c2);
    if t1.IsCharset? && t2.IsCharset? {
      OneLevel(Instr(Check(SetCheck(t1.cs - t2.cs)), 0));
    } else if IsHeadFail(c2) {
      TestDiffLevel(c1, c2);
    } else {
      GuardedOptLevel(c2, Instr(FailTwice, 0), c1);
    }
  }

  lemma AndLevel(c: Code)
    requires Level(c)
    ensures Level(AndCode(c))
  {
    var h: seq<nat> :| Leveled(c, h);
    var (P, hP) := (AndCode(c), [0] + Up(h, 1) + [0, 0]);
    assert P[1..1 + |c|] == c;
    ChoicePlaced(P, hP, c, h);
    assert HeightAt(P, hP, |c| + 1) && HeightAt(P, hP, |c| + 2);
    assert Leveled(P, hP);
  }

  // ----- union -----

  lemma TestUnionLevel(c1: Code, c2: Code)
    requires Level(c1) && Level(c2) && |c1| > 0 && c1[0].op.Check?
    ensures Level(TestUnion(c1, c2))
  {
    var h1: seq<nat> :| Leveled(c1, h1);
    var h2: seq<nat> :| Leveled(c2, h2);
    var (P, h) := (TestUnion(c1, c2), h1 + h2);
    TestPlaced(P, h, c1, h1);
    assert HeightAt(P, h, |c1|);
    Placed(P, h, |c1| + 1, c2, h2, 0, 0, |c2|);
    assert Leveled(P, h);
  }

  lemma BasicUnionLevel(c1: Code, c2: Code)
    requires WF(c1) && Level(c1) && WF(c2) && Level(c2)
    ensures Level(BasicUnion(c1, c2))
  {
    var t1, t2 := ToCharset(c1), ToCharset(c2);
    if t1.IsCharset? && t2.IsCharset? {
      OneLevel(Instr(Check(SetCheck(t1.cs + t2.cs)), 0));
    } else if Exclusive(t1, t2) || IsHeadFail(c1) {
      TestUnionLevel(c1, c2);
    } else {
      GuardedOptLevel(c1, Instr(Commit, |c2| + 1), c2);
    }
  }

  /** The first alternative ends on level 0, or one above if a commit ends it, and the next starts on level 0. */
  lemma PartLevels(c: Code, h: seq<nat>, sp: nat)
    requires Leveled(c, h) && sp == FirstPart(c) > 0
    ensures h[sp] == 0 && h[sp - 1] == if c[sp - 1].op.Commit? then 1 else 0
  {
    assert HeightAt(c, h, 0) && HeightAt(c, h, sp - 1);
  }

  lemma TailLevel(c: Code, sp: nat)
    requires Level(c) && sp == FirstPart(c) > 0 && AllOk(c[sp..])
    ensures Level(c[sp..])
  {
    var h: seq<nat> :| Leveled(c, h);
    PartLevels(c, h, sp);
    var (r, hr) := (c[sp..], h[sp..]);
    forall i | 0 <= i < |r|
      ensures HeightAt(r, hr, i)
    {
      assert HeightAt(c, h, sp + i) && InstrOk(r, i) && r[i] == c[sp + i];
    }
    assert Leveled(r, hr);
  }

  /** `P` is the first part of `c1`, with a new end, in front of `t`. */
  lemma KeptLeveled(c1: Code, h1: seq<nat>, sp: nat, t: Code, ht: seq<nat>, P: Code, h: seq<nat>)
    requires Leveled(c1, h1) && sp == FirstPart(c1) > 0 && PartJumps(c1, sp) && Leveled(t, ht)
    requires |P| == sp + |t| && |h| == |P| + 1 && P[sp - 1] == Instr(c1[sp - 1].op, |t| + 1)
    requires forall i {:trigger c1[i]} :: 0 <= i < sp - 1 ==> P[i] == c1[i]
    requires forall i {:trigger t[i]} :: 0 <= i < |t| ==> P[sp + i] == t[i]
    requires forall j {:trigger h1[j]} :: 0 <= j <= sp ==> h[j] == h1[j]
    requires forall j {:trigger ht[j]} :: 0 <= j <= |t| ==> h[sp + j] == ht[j]
    ensures Leveled(P, h)
  {
    PartLevels(c1, h1, sp);
    assert ht[|t|] == 0 && h[0] == h1[0];
    forall i | 0 <= i < sp
      ensures HeightAt(P, h, i)
    {
      assert HeightAt(c1, h1, i) && (i < sp - 1 ==> P[i] == c1[i]);
      assert h[i] == h1[i] && h[i + 1] == h1[i + 1];
    }
    Placed(P, h, sp, t, ht, 0, 0, |t|);
  }

  lemma KeepPartLevel(c1: Code, sp: nat, t: Code)
    requires Level(c1) && sp == FirstPart(c1) > 0 && PartJumps(c1, sp) && Level(t)
    ensures Level(KeepPart(c1, sp, t))
  {
    var h1: seq<nat> :| Leveled(c1, h1);
    var ht: seq<nat> :| Leveled(t, ht);
    var (P, h) := (KeepPart(c1, sp, t), h1[..sp] + ht);
    PartLevels(c1, h1, sp);
    KeptLeveled(c1, h1, sp, t, ht, P, h);
  }

  lemma RebuiltHeight(c1: Code, h1: seq<nat>, sp: nat, P: Code, h: seq<nat>, i: nat)
    requires NoZero(c1) && Leveled(c1, h1) && sp == FirstPart(c1) > 0 && PartJumps(c1, sp)
    requires c1[sp - 1].op.Jmp? && !NoFail(c1[..sp]) && 2 <= i < sp < |P| && |h| == |P| + 1 && P[i] == c1[i - 1]
    requires forall j {:trigger h1[j]} :: 1 <= j < sp ==> h[j + 1] == h1[j] + 1
    ensures HeightAt(P, h, i)
  {
    var j := i - 1;
    assert HeightAt(c1, h1, j);
    assert h[j + 1] == h1[j] + 1 && h[(j + 1) + 1] == h1[j + 1] + 1;
    if IsJmp(c1[j].op) {
      var q := j + c1[j].off;
      assert 1 <= q < sp;
      assert h[q + 1] == h1[q] + 1;
    }
  }

  /** `P` is the first part of `c1` under a new choice, in front of `t`. */
  lemma RebuiltLeveled(c1: Code, h1: seq<nat>, sp: nat, t: Code, ht: seq<nat>, P: Code, h: seq<nat>)
    requires NoZero(c1) && Leveled(c1, h1) && sp == FirstPart(c1) > 0 && PartJumps(c1, sp) && Leveled(t, ht)
    requires c1[0].op.Test? && c1[sp - 1].op.Jmp? && !NoFail(c1[..sp])
    requires |P| == sp + 1 + |t| && |h| == |P| + 1 && h[0] == 0 && h[1] == 0
    requires P[0] == Instr(c1[0].op, c1[0].off + 1) && P[1] == Instr(Choice(1), sp) && P[sp] == Instr(Commit, |t| + 1)
    requires forall i {:trigger c1[i]} :: 1 <= i < sp - 1 ==> P[i + 1] == c1[i]
    requires forall i {:trigger t[i]} :: 0 <= i < |t| ==> P[sp + 1 + i] == t[i]
    requires forall j {:trigger h1[j]} :: 1 <= j < sp ==> h[j + 1] == h1[j] + 1
    requires forall j {:trigger ht[j]} :: 0 <= j <= |t| ==> h[sp + 1 + j] == ht[j]
    ensures Leveled(P, h)
  {
    PartLevels(c1, h1, sp);
    assert HeightAt(c1, h1, 0);
    assert ht[0] == 0 && ht[|t|] == 0;
    assert h[1 + 1] == h1[1] + 1 && h[(sp - 1) + 1] == h1[sp - 1] + 1;
    assert HeightAt(P, h, 0) && HeightAt(P, h, 1) && HeightAt(P, h, sp);
    forall i | 2 <= i < sp
      ensures HeightAt(P, h, i)
    {
      assert P[(i - 1) + 1] == c1[i - 1];
      RebuiltHeight(c1, h1, sp, P, h, i);
    }
    Placed(P, h, sp + 1, t, ht, 0, 0, |t|);
  }

  lemma RebuildPartLevel(c1: Code, sp: nat, t: Code)
    requires NoZero(c1) && Level(c1) && sp == FirstPart(c1) > 0 && PartJumps(c1, sp) && Level(t)
    requires c1[0].op.Test? && c1[sp - 1].op.Jmp? && !NoFail(c1[..sp])
    ensures Level(RebuildPart(c1, sp, t))
  {
    var h1: seq<nat> :| Leveled(c1, h1);
    var ht: seq<nat> :| Leveled(t, ht);
    var (P, h) := (RebuildPart(c1, sp, t), [0, 0] + Up(h1[1..sp], 1) + ht);
    RebuiltLeveled(c1, h1, sp, t, ht, P, h);
  }

  /** Rebuilding a union keeps its levels. */
  lemma {:induction false} SeparatePartsLevel(c1: Code, es: seq<Expr>, c2: Code, e2: Expr)
    requires Inv(c1, es) && Level(c1) && Good(c2, e2) && Level(c2)
    ensures Level(SeparateParts(c1, c2))
    decreases |c1|
  {
    GoodBasics(c2, e2);
    var sp := FirstPart(c1);
    if sp == 0 {
      BasicUnionLevel(c1, c2);
    } else {
      var t := SeparateParts(c1[sp..], c2);
      TailLevel(c1, sp);
      SeparatePartsLevel(c1[sp..], es[1..], c2, e2);
      SeparatePartsIs(c1, c2);
      if !Rebuilds(c1, c2, sp) {
        KeepPartLevel(c1, sp, t);
      } else {
        RebuildPartLevel(c1, sp, t);
      }
    }
  }

  lemma UnionLevel(c1: Code, e1: Expr, c2: Code, e2: Expr)
    requires Good(c1, e1) && Level(c1) && Good(c2, e2) && Level(c2)
    ensures Level(UnionCode(c1, c2))
  {
    if !StartsWithFail(c1) && !StartsWithFail(c2) {
      var es: seq<Expr> :| |es| > 0 && es[0] == e1 && Inv(c1, es);
      SeparatePartsLevel(c1, es, c2, e2);
    }
  }

  // ----- repetition -----

  lemma HeadLoopLevel(c: Code)
    requires Level(c) && IsHeadFail(c)
    ensures Level(HeadLoop(c))
  {
    var h: seq<nat> :| Leveled(c, h);
    var (P, hP) := (HeadLoop(c), h + [0]);
    TestPlaced(P, hP, c, h);
    assert HeightAt(P, hP, |c|);
    assert Leveled(P, hP);
  }

  lemma ChoiceLoopLeveled(P: Code, hP: seq<nat>, c: Code, h: seq<nat>)
    requires Leveled(c, h) && |P| == |c| + 2 && |hP| == |P| + 1 && P[1..1 + |c|] == c
    requires P[0] == Instr(Choice(0), |c| + 2) && P[|c| + 1] == Instr(PartialCommit, -|c|)
    requires hP[0] == 0 && hP[|P|] == 0 && forall j {:trigger h[j]} :: 0 <= j <= |c| ==> hP[1 + j] == h[j] + 1
    ensures Leveled(P, hP)
  {
    ChoicePlaced(P, hP, c, h);
    assert hP[1 + 0] == h[0] + 1 && hP[1 + |c|] == h[|c|] + 1;
    assert HeightAt(P, hP, |c| + 1);
  }

  lemma ChoiceLoopLevel(c: Code)
    requires Level(c)
    ensures Level(ChoiceLoop(c))
  {
    var h: seq<nat> :| Leveled(c, h);
    var (P, hP) := (ChoiceLoop(c), [0] + Up(h, 1) + [0]);
    assert P[1..1 + |c|] == c;
    ChoiceLoopLeveled(P, hP, c, h);
  }

  lemma LoopLevel(c: Code, n: nat, loop: Code)
    requires Level(c) && Level(loop)
    ensures
      var o := OptCaps(Times(c, n) + loop, 0, 0);
      Level(o) && (Progress(o) ==> Level(OptJumps(o, Ranks(o), 0)))
  {
    TimesLevel(c, n);
    ConcatLevel(Times(c, n), loop);
    OptCapsLevel(Times(c, n) + loop);
    var o := OptCaps(Times(c, n) + loop, 0, 0);
    var h: seq<nat> :| Leveled(o, h);
    if Progress(o) { OptJumpsLeveled(o, h, Ranks(o), 0); }
  }

  lemma {:induction false} OptionalHeadFailLevel(c: Code, n: nat)
    requires Level(c) && IsHeadFail(c)
    ensures Level(OptionalHeadFail(c, n))
    decreases n
  {
    if n == 0 {
      NoneLevel();
    } else {
      OptionalHeadFailLevel(c, n - 1);
      HeadCopyLevel(c, OptionalHeadFail(c, n - 1), Check2Test(c, n * |c|) + OptionalHeadFail(c, n - 1));
    }
  }

  lemma HeadCopyLevel(c: Code, rest: Code, P: Code)
    requires Level(c) && Level(rest) && IsHeadFail(c) && |P| == |c| + |rest|
    requires P[0] == Instr(Test(c[0].op.k), |P|) && P[1..|c|] == c[1..] && P[|c|..] == rest
    ensures Level(P)
  {
    var h: seq<nat> :| Leveled(c, h);
    var hr: seq<nat> :| Leveled(rest, hr);
    var hP := h[..|c|] + hr;
    assert forall i {:trigger c[i]} :: 1 <= i < |c| ==> P[i] == P[1..|c|][i - 1] == c[1..][i - 1] == c[i];
    TestPlaced(P, hP, c, h);
    Placed(P, hP, |c|, rest, hr, 0, 0, |rest|);
    assert Leveled(P, hP);
  }

  /** Heights of the copies behind the choice: one up, until the commit at the end. */
  function TailHeights(h: seq<nat>, n: nat): (r: seq<nat>)
    requires n > 0 && |h| > 0
    ensures |r| == n * |h| + 1
  {
    if n == 1 then Up(h, 1) + [0] else Up(h, 1) + TailHeights(h, n - 1)
  }

  lemma {:induction false} TailLeveled(c: Code, h: seq<nat>, n: nat)
    requires Leveled(c, h) && n > 0
    ensures
      var (t, ht) := (OptionalTail(c, n), TailHeights(h, n));
      |ht| == |t| + 1 && ht[0] == 1 && ht[|t|] == 0 && forall i {:trigger HeightAt(t, ht, i)} :: 0 <= i < |t| ==>
        HeightAt(t, ht, i)
    decreases n
  {
    var (t, ht) := (OptionalTail(c, n), TailHeights(h, n));
    if n == 1 {
      assert n * (|c| + 1) == |c| + 1;
      Placed(t, ht, 0, c, h, 1, 0, |c|);
      assert HeightAt(t, ht, |c|);
    } else {
      TailLeveled(c, h, n - 1);
      var (t1, ht1) := (OptionalTail(c, n - 1), TailHeights(h, n - 1));
      assert t[|c| + 1..] == t1 && |t| == |c| + 1 + |t1|;
      assert ht[..|c| + 1] == Up(h, 1) && ht[|c| + 1..] == ht1;
      CopyLeveled(t, ht, c, h, t1, ht1);
    }
  }

  /** One copy and a partial commit in front of the others. */
  lemma CopyLeveled(t: Code, ht: seq<nat>, c: Code, h: seq<nat>, t1: Code, ht1: seq<nat>)
    requires Leveled(c, h) && |ht1| == |t1| + 1 && ht1[0] == 1
    requires forall i {:trigger HeightAt(t1, ht1, i)} :: 0 <= i < |t1| ==> HeightAt(t1, ht1, i)
    requires t == c + [Instr(PartialCommit, 1)] + t1 && |ht| == |t| + 1
    requires ht[..|c| + 1] == Up(h, 1) && ht[|c| + 1..] == ht1
    ensures forall i {:trigger HeightAt(t, ht, i)} :: 0 <= i < |t| ==> HeightAt(t, ht, i)
  {
    assert forall j {:trigger h[j]} :: 0 <= j <= |c| ==> ht[j] == ht[..|c| + 1][j] == h[j] + 1;
    assert forall j {:trigger ht1[j]} :: 0 <= j <= |t1| ==> ht[|c| + 1 + j] == ht[|c| + 1..][j] == ht1[j];
    Placed(t, ht, 0, c, h, 1, 0, |c|);
    assert HeightAt(t, ht, |c|);
    Placed(t, ht, |c| + 1, t1, ht1, 0, 0, |t1|);
  }

  lemma OptionalsLevel(c: Code, n: nat)
    requires Level(c) && WF(c) && n > 0
    ensures Level(Optionals(c, n))
  {
    var h: seq<nat> :| Leveled(c, h);
    TailLeveled(c, h, n);
    var (t, ht) := (OptionalTail(c, n), TailHeights(h, n));
    var (P, hP) := ([Instr(Choice(0), 1 + n * (|c| + 1))] + t, [0] + ht);
    Placed(P, hP, 1, t, ht, 0, 0, |t|);
    assert HeightAt(P, hP, 0);
    assert Leveled(P, hP);
    if P[1].op.Check? {
      TailFirst(c, n);
      if c != [] { CheckFirstNoZero(c); }
      TailJumps(c, n, P);
      OptimizeChoiceLevel(P);
    }
  }

  lemma TailFirst(c: Code, n: nat)
    requires n > 0
    ensures OptionalTail(c, n) != [] && (c != [] ==> OptionalTail(c, n)[0] == c[0]) &&
      (c == [] ==> !OptionalTail(c, n)[0].op.Check?)
  {
  }

  /** No jump of the copies leads to the first instruction of the first one. */
  lemma TailJumps(c: Code, n: nat, P: Code)
    requires NoZero(c) && n > 0 && |P| > 0 && P[1..] == OptionalTail(c, n)
    ensures forall i {:trigger P[i]} :: 2 <= i < |P| && IsJmp(P[i].op) ==> i + P[i].off != 1
  {
    TailNoZero(c, n);
    var t := OptionalTail(c, n);
    forall i | 2 <= i < |P| && IsJmp(P[i].op)
      ensures i + P[i].off != 1
    {
      assert P[i] == P[1..][i - 1] == t[i - 1];
    }
  }

  lemma {:induction false} TailNoZero(c: Code, n: nat)
    requires NoZero(c) && n > 0
    ensures NoZero(OptionalTail(c, n))
    decreases n
  {
    if n > 1 {
      TailNoZero(c, n - 1);
      var (t, t1) := (OptionalTail(c, n), OptionalTail(c, n - 1));
      forall i | 0 <= i < |t| && IsJmp(t[i].op)
        ensures i + t[i].off >= 1
      {
        if i > |c| { assert t[i] == t1[i - |c| - 1]; }
      }
    }
  }
}
