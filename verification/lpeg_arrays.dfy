/** The optimizers as they run, in place on the instruction array (lib/lpeg.c:803-906). */
module LpegArrays {
  import opened LpegCode
  import opened LpegCompile

  /** `c'` is `c` with the slice of `e + 1` instructions at `lo` reversed. */
  ghost predicate Inverted(c: Code, c': Code, lo: nat, e: int)
    requires -1 <= e && lo + e < |c|
  {
    |c'| == |c| && forall k {:trigger InvertedAt(c, c', lo, e, k)} :: 0 <= k < |c| ==> InvertedAt(c, c', lo, e, k)
  }

  ghost predicate InvertedAt(c: Code, c': Code, lo: nat, e: int, k: nat)
    requires -1 <= e && lo + e < |c| == |c'| && k < |c|
  {
    c'[k] == if lo <= k <= lo + e then c[lo + (lo + e - k)] else c[k]
  }

  method Invert(a: array<Instr>, lo: nat, e: int)
    requires -1 <= e && lo + e < a.Length
    modifies a
    ensures Inverted(old(a[..]), a[..], lo, e)
  {
    var i, j := 0, e;
    while i < j
      invariant 0 <= i && i + j == e && -1 <= j
      invariant forall k {:trigger a[k]} :: 0 <= k < a.Length ==>
        a[k] == if lo <= k < lo + i || lo + j < k <= lo + e then old(a[lo + (lo + e - k)]) else old(a[k])
    {
      var temp := a[lo + i];
      a[lo + i] := a[lo + j];
      a[lo + j] := temp;
      i, j := i + 1, j - 1;
    }
  }

  function Rotated(c: Code, lo: nat, e: nat, n: nat): Code
    requires n <= e + 1 && lo + e < |c|
  {
    c[..lo] + c[lo + n..lo + e + 1] + c[lo..lo + n] + c[lo + e + 1..]
  }

  /** Reversing both parts and then the whole changes the order of the parts. */
  lemma InvertedThrice(c0: Code, c1: Code, c2: Code, c3: Code, lo: nat, e: nat, n: nat)
    requires 1 <= n <= e + 1 && lo + e < |c0| == |c1| == |c2|
    requires Inverted(c0, c1, lo, n - 1) && Inverted(c1, c2, lo + n, e - n) && Inverted(c2, c3, lo, e)
    ensures c3 == Rotated(c0, lo, e, n)
  {
    var r := Rotated(c0, lo, e, n);
    forall k | 0 <= k < |c0|
      ensures c3[k] == r[k]
    {
      if lo <= k <= lo + e {
        var j := lo + (lo + e - k);
        assert InvertedAt(c2, c3, lo, e, k) && InvertedAt(c1, c2, lo + n, e - n, j);
        if j >= lo + n {
          assert InvertedAt(c0, c1, lo, n - 1, k + n);
        } else {
          assert InvertedAt(c0, c1, lo, n - 1, j);
        }
      } else {
        assert InvertedAt(c2, c3, lo, e, k) && InvertedAt(c1, c2, lo + n, e - n, k) && InvertedAt(c0, c1, lo, n - 1, k);
      }
    }
  }

  /** Rotates the slice of `e + 1` instructions at `lo` by `n` steps to the left. */
  method Rotate(a: array<Instr>, lo: nat, e: nat, n: nat)
    requires 1 <= n <= e + 1 && lo + e < a.Length
    modifies a
    ensures a[..] == Rotated(old(a[..]), lo, e, n)
  {
    ghost var c0 := a[..];
    Invert(a, lo, n - 1);
    ghost var c1 := a[..];
    Invert(a, lo + n, e - n);
    ghost var c2 := a[..];
    Invert(a, lo, e);
    ghost var c3 := a[..];
    InvertedThrice(c0, c1, c2, c3, lo, e, n);
  }

  /** `skipchecks`: the checks from `at` on that fit beside an offset `up`. */
  method SkipInstrs(a: array<Instr>, at: nat, up: nat) returns (i: nat, n: nat)
    requires at <= a.Length && up <= MAXOFF
    ensures (i, n) == SkipChecks(a[..], at, MAXOFF - up)
  {
    i, n := 0, 0;
    ghost var c, room := a[..], MAXOFF - up;
    while at + i < a.Length && a[at + i].op.Check?
      invariant at + i <= a.Length && n <= room
      invariant var r := SkipChecks(c, at + i, room - n); SkipChecks(c, at, room) == (i + r.0, n + r.1)
    {
      var st := StepOf(a[at + i].op.k);
      if n + st > MAXOFF - up { break; }
      n := n + st;
      i := i + 1;
    }
  }

  /** The first capture of the group that ends at `i`, and the largest offset in the group. */
  method FirstOfGroup(a: array<Instr>, i: nat, limit: nat) returns (start: nat, maxoff: nat)
    requires limit <= i < a.Length && IsMovableCap(a[i].op)
    ensures start == GroupStart(a[..], i, limit) && maxoff == MaxOff(a[..], start, i)
  {
    ghost var c := a[..];
    start, maxoff := i, a[i].op.n;
    while start > limit && IsMovableCap(a[start - 1].op)
      invariant limit <= start <= i && IsMovableCap(c[start].op)
      invariant forall j {:trigger c[j]} :: start <= j <= i ==> IsMovableCap(c[j].op)
      invariant GroupStart(c, i, limit) == GroupStart(c, start, limit) && maxoff == MaxOff(c, start, i)
    {
      start := start - 1;
      if a[start].op.n > maxoff { maxoff := a[start].op.n; }
    }
  }

  /** Adds `n` to the offsets of the captures `start..i`. */
  method Delay(a: array<Instr>, start: nat, i: nat, n: nat)
    requires start <= i < a.Length && forall j {:trigger a[j]} :: start <= j <= i ==> a[j].op.Cap?
    modifies a
    ensures a[..] == old(a[..start] + Delayed(a[start..i + 1], n) + a[i + 1..])
  {
    ghost var g := Delayed(a[start..i + 1], n);
    var j := start;
    while j <= i
      invariant start <= j <= i + 1
      invariant forall k {:trigger a[k]} :: 0 <= k < a.Length ==>
        a[k] == if start <= k < j then g[k - start] else old(a[k])
    {
      assert old(a[start..i + 1])[j - start] == old(a[j]);
      a[j] := a[j].(op := a[j].op.(n := AddOff(a[j].op.n, n)));
      j := j + 1;
    }
  }

  /** The captures `start..i`, with their offsets corrected, are rotated behind the checks up to `end`. */
  method MoveCaptures(a: array<Instr>, start: nat, i: nat, end: nat, n: nat)
    requires start <= i < end < a.Length && forall j {:trigger a[j]} :: start <= j <= i ==> a[j].op.Cap?
    modifies a
    ensures a[..] == MoveGroup(old(a[..]), start, i, end - i, n)
  {
    ghost var c := a[..];
    assert c[start..i + 1] == a[start..i + 1];
    Delay(a, start, i, n);
    ghost var d := a[..];
    ghost var g := Delayed(c[start..i + 1], n);
    Rotate(a, start, end - start, i - start + 1);
    assert start + (end - start) + 1 == end + 1 && start + (i - start + 1) == i + 1;
    MoveParts(c, d, g, start, i, end);
  }

  lemma MoveParts(c: Code, d: Code, g: Code, start: nat, i: nat, end: nat)
    requires start <= i < end < |c| && |g| == i + 1 - start && d == c[..start] + g + c[i + 1..]
    ensures
      d[..start] + d[i + 1..end + 1] + d[start..i + 1] + d[end + 1..] ==
        c[..start] + c[i + 1..end + 1] + g + c[end + 1..]
  {
    assert d[..start] == c[..start] && d[start..i + 1] == g;
    assert d[i + 1..end + 1] == c[i + 1..end + 1] && d[end + 1..] == c[end + 1..];
  }

  /** A border between a capture and a check. */
  method MoveBorder(a: array<Instr>, i: nat, limit: nat) returns (i': nat)
    requires limit <= i < a.Length && IsMovableCap(a[i].op)
    modifies a
    ensures (a[..], i') == MoveRound(old(a[..]), i, limit)
  {
    var start, maxoff := FirstOfGroup(a, i, limit);
    var cnt, n := SkipInstrs(a, i + 1, maxoff);
    i' := i;
    if n != 0 {
      ghost var c := a[..];
      assert forall j {:trigger a[j]} :: start <= j <= i ==> a[j] == c[j];
      MoveCaptures(a, start, i, i + cnt, n);
      i' := i + cnt;
    }
    i' := i' + 1;
  }

  /** One round of `optimizecaptures`. */
  method CaptureRound(a: array<Instr>, i: nat, limit: nat) returns (i': nat, limit': nat)
    requires i < a.Length
    modifies a
    ensures (a[..], i', limit') == OptCapsRound(old(a[..]), i, limit)
  {
    i', limit' := i + 1, limit;
    if IsJmp(a[i].op) && i + a[i].off >= limit {
      limit' := i + a[i].off + 1;
    } else if i >= limit && IsMovableCap(a[i].op) && i + 1 < a.Length && a[i + 1].op.Check? {
      i' := MoveBorder(a, i, limit);
    }
  }

  /** `optimizecaptures`. */
  method OptimizeCaptures(a: array<Instr>)
    modifies a
    ensures a[..] == OptCaps(old(a[..]), 0, 0)
  {
    var i: nat, limit: nat := 0, 0;
    ghost var goal := OptCaps(a[..], i, limit);
    while i < a.Length
      invariant OptCaps(a[..], i, limit) == goal
    {
      i, limit := CaptureRound(a, i, limit);
    }
  }

  /** `target`. */
  method FindTarget(a: array<Instr>, ghost f: seq<nat>, at: nat) returns (i: nat)
    requires Falls(a[..], f) && at <= a.Length
    ensures i == Target(a[..], f, at)
  {
    i := at;
    ghost var c := a[..];
    while i < a.Length && a[i].op.Jmp?
      invariant i <= a.Length && Target(c, f, i) == Target(c, f, at)
      decreases f[i]
    {
      assert FallsAt(c, f, i);
      i := i + a[i].off;
    }
  }

  /** `optimizejumps`. */
  method OptimizeJumps(a: array<Instr>, ghost f: seq<nat>)
    requires Falls(a[..], f)
    modifies a
    ensures a[..] == OptJumps(old(a[..]), f, 0)
  {
    var i := 0;
    while i < a.Length
      invariant 0 <= i && Falls(a[..], f) && OptJumps(a[..], f, i) == OptJumps(old(a[..]), f, 0)
    {
      ghost var c := a[..];
      if IsJmp(a[i].op) {
        var t := FindTarget(a, f, i + a[i].off);
        a[i] := Instr(a[i].op, t - i);
        assert a[..] == Retarget(c, f, i);
      }
      i := i + 1;
    }
  }

  /** `optimizechoice`. */
  method OptimizeChoiceAt(a: array<Instr>)
    requires a.Length > 0 && a[0].op.Choice?
    modifies a
    ensures a[..] == OptimizeChoice(old(a[..]))
  {
    ghost var c := a[..];
    if a.Length > 1 && a[1].op.Check? {
      Rotate(a, 0, 1, 1);
      assert a[0] == c[1] && a[1] == c[0] && a[2..] == c[2..];
      var k := a[0].op.k;
      a[1] := Instr(Choice(StepOf(k)), a[1].off);
      a[0] := Instr(Test(k), a[1].off);
      a[1] := a[1].(off := a[1].off - 1);
      assert a[2..] == c[2..];
    }
  }
}
