/** The pattern constructors: how each operator builds code from the code of its operands
    (lib/lpeg.c:796-1687). */
module LpegCompile {
  import opened LpegCode
  import opened LpegSemantics
  import opened LpegMachine

  // ----- optimizers -----

  /** `optimizechoice`: a choice followed by a check becomes a test and a later choice. */
  function OptimizeChoice(c: Code): (r: Code)
    requires |c| > 0 && c[0].op.Choice?
    ensures |r| == |c|
  {
    if |c| > 1 && c[1].op.Check? then
      var k := c[1].op.k;
      [Instr(Test(k), c[0].off), Instr(Choice(StepOf(k)), c[0].off - 1)] + c[2..]
    else c
  }

  /** How many of the checks from `i` on fit in `room` bytes, and their size in bytes (`skipchecks`). */
  function SkipChecks(c: Code, i: nat, room: nat): (r: (nat, nat))
    requires i <= |c|
    ensures i + r.0 <= |c| && r.1 <= room
    ensures forall j :: i <= j < i + r.0 ==> c[j].op.Check?
    decreases |c| - i
  {
    if i < |c| && c[i].op.Check? && StepOf(c[i].op.k) <= room then
      var r := SkipChecks(c, i + 1, room - StepOf(c[i].op.k));
      (r.0 + 1, r.1 + StepOf(c[i].op.k))
    else (0, 0)
  }

  /** Where the group of movable captures that ends at `i` starts, not before `limit`. */
  function GroupStart(c: Code, i: nat, limit: nat): (start: nat)
    requires i < |c| && IsMovableCap(c[i].op) && limit <= i
    ensures limit <= start <= i
    ensures forall j {:trigger c[j]} :: start <= j <= i ==> IsMovableCap(c[j].op)
    decreases i
  {
    if i > limit && IsMovableCap(c[i - 1].op) then GroupStart(c, i - 1, limit) else i
  }

  /** The largest offset in a group of captures. */
  function MaxOff(c: Code, start: nat, i: nat): (n: nat)
    requires start <= i < |c|
    requires forall j {:trigger c[j]} :: start <= j <= i ==> IsMovableCap(c[j].op)
    ensures n < MAXOFF
    ensures forall j {:trigger c[j]} :: start <= j <= i ==> IsMovableCap(c[j].op) && c[j].op.n <= n
    decreases i - start
  {
    assert IsMovableCap(c[start].op);
    if start == i then c[i].op.n
    else
      var n := MaxOff(c, start + 1, i);
      if c[start].op.n > n then c[start].op.n else n
  }

  /** Adding to the offset in the upper half of a capture's `aux` byte. */
  function AddOff(off: nat, n: nat): nat {
    (off + n) % 16
  }

  function Delayed(g: Code, n: nat): (r: Code)
    requires forall j :: 0 <= j < |g| ==> g[j].op.Cap?
    ensures |r| == |g|
  {
    seq(|g|, j requires 0 <= j < |g| => g[j].(op := g[j].op.(n := AddOff(g[j].op.n, n))))
  }

  /** The captures `start..i` move behind the `cnt` checks that follow them. */
  function MoveGroup(c: Code, start: nat, i: nat, cnt: nat, n: nat): (r: Code)
    requires start <= i && i + cnt < |c|
    requires forall j :: start <= j <= i ==> c[j].op.Cap?
    ensures |r| == |c|
  {
    c[..start] + c[i + 1..i + 1 + cnt] + Delayed(c[start..i + 1], n) + c[i + 1 + cnt..]
  }

  /** One round of `optimizecaptures` at instruction `i`: the code, the next instruction to look at, and
      the limit below which addresses may be jump targets. */
  function OptCapsRound(c: Code, i: nat, limit: nat): (r: (Code, nat, nat))
    requires i < |c|
    ensures |r.0| == |c| && i < r.1
  {
    if IsJmp(c[i].op) && i + c[i].off >= limit then (c, i + 1, i + c[i].off + 1)
    else if i >= limit && IsMovableCap(c[i].op) && i + 1 < |c| && c[i + 1].op.Check? then
      var r := MoveRound(c, i, limit);
      (r.0, r.1, limit)
    else (c, i + 1, limit)
  }

  /** A border between a capture and a check: the group moves, unless the first check is too big. */
  function MoveRound(c: Code, i: nat, limit: nat): (r: (Code, nat))
    requires limit <= i < |c| && IsMovableCap(c[i].op)
    ensures |r.0| == |c| && i < r.1
  {
    var start := GroupStart(c, i, limit);
    var (cnt, n) := SkipChecks(c, i + 1, MAXOFF - MaxOff(c, start, i));
    if n == 0 then (c, i + 1) else (MoveGroup(c, start, i, cnt, n), i + cnt + 1)
  }

  /** `optimizecaptures` from instruction `i` on. */
  function OptCaps(c: Code, i: nat, limit: nat): (r: Code)
    ensures |r| == |c|
    decreases |c| - i
  {
    if i >= |c| then c
    else
      var r := OptCapsRound(c, i, limit);
      OptCaps(r.0, r.1, r.2)
  }

  predicate InRange(c: Code) {
    forall i :: 0 <= i < |c| && IsJmp(c[i].op) ==> 0 <= i + c[i].off <= |c|
  }

  /** Along every chain of unconditional jumps the rank falls, so that every chain ends. */
  predicate Falls(c: Code, f: seq<nat>) {
    |f| == |c| + 1 && InRange(c) &&
    forall i {:trigger FallsAt(c, f, i)} :: 0 <= i < |c| && c[i].op.Jmp? ==> FallsAt(c, f, i)
  }

  predicate FallsAt(c: Code, f: seq<nat>, i: int)
    requires 0 <= i < |c| && |f| == |c| + 1 && 0 <= i + c[i].off <= |c|
  {
    f[i + c[i].off] < f[i]
  }

  /** Where a chain of jumps ends (`target`). */
  function Target(c: Code, ghost f: seq<nat>, i: int): (t: int)
    requires Falls(c, f) && 0 <= i <= |c|
    ensures 0 <= t <= |c| && (t < |c| ==> !c[t].op.Jmp?)
    decreases f[i]
  {
    if i < |c| && c[i].op.Jmp? then
      assert FallsAt(c, f, i);
      Target(c, f, i + c[i].off)
    else i
  }

  lemma TargetFalls(c: Code, f: seq<nat>, i: int)
    requires Falls(c, f) && 0 <= i <= |c|
    ensures f[Target(c, f, i)] <= f[i]
    decreases f[i]
  {
    if i < |c| && c[i].op.Jmp? {
      assert FallsAt(c, f, i);
      TargetFalls(c, f, i + c[i].off);
    }
  }

  /** What `optimizejumps` does at one instruction. */
  function Retarget(c: Code, ghost f: seq<nat>, i: nat): (r: Code)
    requires Falls(c, f) && i < |c| && IsJmp(c[i].op)
    ensures |r| == |c| && Falls(r, f)
  {
    RetargetFalls(c, f, i);
    c[i := Instr(c[i].op, Target(c, f, i + c[i].off) - i)]
  }

  lemma RetargetFalls(c: Code, f: seq<nat>, i: nat)
    requires Falls(c, f) && i < |c| && IsJmp(c[i].op)
    ensures Falls(c[i := Instr(c[i].op, Target(c, f, i + c[i].off) - i)], f)
  {
    var r := c[i := Instr(c[i].op, Target(c, f, i + c[i].off) - i)];
    TargetFalls(c, f, i + c[i].off);
    forall j | 0 <= j < |r| && r[j].op.Jmp?
      ensures FallsAt(r, f, j)
    {
      assert FallsAt(c, f, j);
    }
  }

  /** `optimizejumps` from instruction `i` on. */
  function OptJumps(c: Code, ghost f: seq<nat>, i: nat): (r: Code)
    requires Falls(c, f)
    ensures |r| == |c|
    decreases |c| - i
  {
    if i >= |c| then c
    else if IsJmp(c[i].op) then OptJumps(Retarget(c, f, i), f, i + 1)
    else OptJumps(c, f, i + 1)
  }

  /** Jumps go forward, except to an instruction that is not a jump. */
  predicate Progress(c: Code) {
    InRange(c) && forall i {:trigger LeadsOn(c, i)} :: 0 <= i < |c| && c[i].op.Jmp? ==> LeadsOn(c, i)
  }

  predicate LeadsOn(c: Code, i: int)
    requires 0 <= i < |c| && 0 <= i + c[i].off <= |c|
  {
    c[i].off > 0 || !c[i + c[i].off].op.Jmp?
  }

  ghost function Ranks(c: Code): (f: seq<nat>)
    requires Progress(c)
    ensures Falls(c, f)
  {
    var f := seq(|c| + 1, i requires 0 <= i <= |c| => RankAt(c, i));
    RanksFall(c, f);
    f
  }

  lemma RanksFall(c: Code, f: seq<nat>)
    requires Progress(c) && |f| == |c| + 1 && forall i {:trigger f[i]} :: 0 <= i <= |c| ==> f[i] == RankAt(c, i)
    ensures Falls(c, f)
  {
    forall i | 0 <= i < |c| && c[i].op.Jmp?
      ensures FallsAt(c, f, i)
    {
      assert LeadsOn(c, i);
      assert f[i + c[i].off] == RankAt(c, i + c[i].off) && f[i] == RankAt(c, i);
    }
  }

  function RankAt(c: Code, i: nat): nat
    requires i <= |c|
  {
    if i == |c| || !c[i].op.Jmp? then 0 else if c[i].off > 0 then |c| - i + 1 else 1
  }

  // ----- literals, numbers and sets -----

  function LitCode(bytes: seq<Byte>): (r: Code)
    ensures |r| == |bytes| && forall i :: 0 <= i < |r| ==> r[i] == Instr(Check(KChar(bytes[i])), 0)
  {
    seq(|bytes|, i requires 0 <= i < |bytes| => Instr(Check(KChar(bytes[i])), 0))
  }

  /** `any`: one instruction can skip at most 255 bytes. */
  function AnyCode(n: nat): Code
    decreases n
  {
    if n > UCHAR_MAX then [Instr(Check(KAny(UCHAR_MAX)), 0)] + AnyCode(n - UCHAR_MAX)
    else [Instr(Check(KAny(n)), 0)]
  }

  function NumCode(n: int): Code {
    if n == 0 then []
    else if n > 0 then AnyCode(n)
    else if -n <= UCHAR_MAX then [Instr(Test(KAny(-n)), 2), Instr(Fail(false), 0)]
    else
      var a := AnyCode(-n - UCHAR_MAX);
      [Instr(Test(KAny(UCHAR_MAX)), |a| + 3), Instr(Choice(UCHAR_MAX), |a| + 2)] + a + [Instr(FailTwice, 0)]
  }

  function SetCode(cs: Charset): Code {
    [Instr(Check(SetCheck(cs)), 0)]
  }

  // ----- sequence, difference, and-predicate -----

  predicate IsAny(c: Code) {
    |c| == 1 && c[0].op.Check? && c[0].op.k.KAny?
  }

  function SeqCode(c1: Code, c2: Code): Code {
    if IsAny(c1) && IsAny(c2) then AnyCode(c1[0].op.k.n + c2[0].op.k.n)
    else OptCaps(c1 + c2, 0, 0)
  }

  /** `check2test`: the first check of `c` becomes a test that jumps `off` when it fails. */
  function Check2Test(c: Code, off: int): (r: Code)
    requires |c| > 0 && c[0].op.Check?
    ensures |r| == |c|
  {
    [Instr(Test(c[0].op.k), off)] + c[1..]
  }

  function DiffCode(c1: Code, c2: Code): Code {
    var t1, t2 := ToCharset(c1), ToCharset(c2);
    if t1.IsCharset? && t2.IsCharset? then SetCode(t1.cs - t2.cs)
    else if IsHeadFail(c2) then Check2Test(c2, |c2| + 1) + [Instr(Fail(false), 0)] + c1
    else OptimizeChoice([Instr(Choice(0), |c2| + 2)] + c2 + [Instr(FailTwice, 0)] + c1)
  }

  function AndCode(c1: Code): Code {
    [Instr(Choice(0), |c1| + 2)] + c1 + [Instr(BackCommit, 2), Instr(Fail(true), 0)]
  }

  // ----- union -----

  /** The size of the first alternative, if `c` is a union that can be split; otherwise 0. */
  function FirstPart(c: Code): (sp: nat)
    ensures sp <= |c| && sp != 1
  {
    if |c| == 0 then 0
    else
      var e := c[0].off - 1;
      if !(0 <= e < |c|) || e + c[e].off != |c| then 0
      else if c[0].op.Test? && (c[e].op.Jmp? || c[e].op.Commit?) then e + 1
      else if c[0].op.Choice? && c[e].op.Commit? then e + 1
      else 0
  }

  /** Whether a second pattern might match where the first part of a union fails. */
  predicate Interfere(part: Code, st2: CharTag) {
    |part| > 0 && !NoFail(part) &&
    (st2.NoInfo? ||
     match part[0].op
     case Test(KChar(c)) => c in st2.cs
     case Test(KSet(cs, nul)) => nul || !(cs !! st2.cs)
     case _ => true)
  }

  function BasicUnion(c1: Code, c2: Code): Code {
    var t1, t2 := ToCharset(c1), ToCharset(c2);
    if t1.IsCharset? && t2.IsCharset? then SetCode(t1.cs + t2.cs)
    else if Exclusive(t1, t2) || IsHeadFail(c1) then
      Check2Test(c1, |c1| + 1) + [Instr(Jmp, |c2| + 1)] + c2
    else OptimizeChoice([Instr(Choice(0), |c1| + 2)] + c1 + [Instr(Commit, |c2| + 1)] + c2)
  }

  /** The first alternative of `c1` in front of `t`. */
  function KeepPart(c1: Code, sp: nat, t: Code): Code
    requires 0 < sp <= |c1|
  {
    c1[..sp - 1] + [Instr(c1[sp - 1].op, |t| + 1)] + t
  }

  /** The first alternative of `c1` in front of `t`, back as a non-optimized choice. */
  function RebuildPart(c1: Code, sp: nat, t: Code): Code
    requires 2 <= sp <= |c1|
  {
    [Instr(c1[0].op, c1[0].off + 1), Instr(Choice(1), sp)] + c1[1..sp - 1] + [Instr(Commit, |t| + 1)] + t
  }

  /** Whether the first alternative of `c1` must go back to a non-optimized choice in front of `c2`. */
  predicate Rebuilds(c1: Code, c2: Code, sp: nat)
    requires sp == FirstPart(c1) > 0
  {
    !c1[sp - 1].op.Commit? && Interfere(c1[..sp], ToCharset(c2))
  }

  /** Every alternative of `c1` that is rebuilt in front of `c2` has a test of one byte, as the new choice
      steps back by one. */
  predicate NarrowUnion(c1: Code, c2: Code)
    decreases |c1|
  {
    var sp := FirstPart(c1);
    sp > 0 ==>
      (Rebuilds(c1, c2, sp) && c1[0].op.Test? ==> StepOf(c1[0].op.k) == 1) && NarrowUnion(c1[sp..], c2)
  }

  /** `separateparts`: the alternatives of `c1` are copied one by one in front of `c2`. */
  function SeparateParts(c1: Code, c2: Code): Code
    decreases |c1|
  {
    var sp := FirstPart(c1);
    if sp == 0 then BasicUnion(c1, c2)
    else
      var t := SeparateParts(c1[sp..], c2);
      if Rebuilds(c1, c2, sp) then RebuildPart(c1, sp, t) else KeepPart(c1, sp, t)
  }

  predicate StartsWithFail(c: Code) {
    |c| > 0 && c[0].op.Fail?
  }

  predicate NarrowChoice(c1: Code, c2: Code) {
    StartsWithFail(c1) || StartsWithFail(c2) || NarrowUnion(c1, c2)
  }

  function UnionCode(c1: Code, c2: Code): Code {
    if StartsWithFail(c1) then c2
    else if StartsWithFail(c2) then c1
    else SeparateParts(c1, c2)
  }

  // ----- repetition -----

  function Times(c: Code, n: nat): (r: Code)
    ensures |r| == n * |c|
  {
    if n == 0 then [] else c + Times(c, n - 1)
  }

  function RepeatCharset(cs: Charset, c: Code, n: nat): Code {
    Times(c, n) + [Instr(Span(cs, 0 in cs), 0)]
  }

  function RepeatHeadFail(c: Code, n: nat): Code
    requires IsHeadFail(c)
  {
    Times(c, n) + Check2Test(c, |c| + 1) + [Instr(Jmp, -|c|)]
  }

  function Repeats(c: Code, n: nat): Code {
    Times(c, n) + [Instr(Choice(0), |c| + 2)] + c + [Instr(PartialCommit, -|c|)]
  }

  /** Up to `n` copies of a head-fail pattern; each test leaves all of them. */
  function OptionalHeadFail(c: Code, n: nat): (r: Code)
    requires IsHeadFail(c)
    ensures |r| == n * |c|
  {
    if n == 0 then [] else Check2Test(c, n * |c|) + OptionalHeadFail(c, n - 1)
  }

  /** `n` copies with a partial commit after each but the last, which commits. */
  function OptionalTail(c: Code, n: nat): (r: Code)
    requires n > 0
    ensures |r| == n * (|c| + 1)
  {
    if n == 1 then c + [Instr(Commit, 1)] else c + [Instr(PartialCommit, 1)] + OptionalTail(c, n - 1)
  }

  function Optionals(c: Code, n: nat): Code
    requires n > 0
  {
    OptimizeChoice([Instr(Choice(0), 1 + n * (|c| + 1))] + OptionalTail(c, n))
  }

  // ----- captures -----

  function CaptureCode(c: Code, kind: PattKind, idx: int): Code {
    var (cnt, n) := SkipChecks(c, 0, MAXOFF);
    if cnt == |c| then c + [Instr(Cap(Full, kind, idx, n), 0)]
    else OptCaps([Instr(Cap(Open, kind, idx, 0), 0)] + c + [Instr(Cap(Close, CCLOSE, 0, 0), 0)], 0, 0)
  }

  function MarkCode(kind: PattKind, idx: int): Code {
    [Instr(Cap(Empty, kind, idx, 0), 0)]
  }
}
