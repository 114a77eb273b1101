/** Where compiled unions are right: an alternative that is rebuilt behind a test of several bytes comes only
    from an empty set, so that all patterns without empty sets are compiled correctly. */
module LpegNarrow {
  import opened LpegCode
  import opened LpegSemantics
  import opened LpegMachine
  import opened LpegBehaviour
  import opened LpegCompile
  import opened LpegInvariant
  import opened LpegBasic
  import opened LpegUnion
  import opened LpegCompiler

  /** No check or test of the code is one of an empty set. */
  predicate Filled(c: Code) {
    forall i {:trigger c[i]} :: 0 <= i < |c| ==> !IsEmptySet(c[i].op)
  }

  // ----- the optimizers -----

  lemma MoveGroupFilled(c: Code, start: nat, i: nat, cnt: nat, n: nat)
    requires Filled(c) && start <= i && i + cnt < |c|
    requires forall j {:trigger c[j]} :: start <= j <= i ==> c[j].op.Cap?
    ensures Filled(MoveGroup(c, start, i, cnt, n))
  {
    var d := MoveGroup(c, start, i, cnt, n);
    var g := c[start..i + 1];
    assert forall j {:trigger g[j]} :: 0 <= j < |g| ==> g[j] == c[start + j];
    forall k | 0 <= k < |d|
      ensures !IsEmptySet(d[k].op)
    {
      if k < start || k >= i + 1 + cnt {
        assert d[k] == c[k];
      } else if k < start + cnt {
        assert d[k] == c[i + 1 + (k - start)];
      } else {
        assert d[k] == Delayed(g, n)[k - start - cnt];
      }
    }
  }

  lemma RoundFilled(c: Code, i: nat, limit: nat)
    requires Filled(c) && i < |c|
    ensures Filled(OptCapsRound(c, i, limit).0)
  {
    if OptCapsRound(c, i, limit).0 != c {
      var start := GroupStart(c, i, limit);
      var (cnt, n) := SkipChecks(c, i + 1, MAXOFF - MaxOff(c, start, i));
      forall j | start <= j <= i
        ensures c[j].op.Cap?
      {
        assert IsMovableCap(c[j].op);
      }
      MoveGroupFilled(c, start, i, cnt, n);
    }
  }

  lemma {:induction false} OptCapsFilled(c: Code, i: nat, limit: nat)
    requires Filled(c)
    ensures Filled(OptCaps(c, i, limit))
    decreases |c| - i
  {
    if i < |c| {
      RoundFilled(c, i, limit);
      var r := OptCapsRound(c, i, limit);
      OptCapsFilled(r.0, r.1, r.2);
    }
  }

  lemma {:induction false} OptJumpsFilled(c: Code, f: seq<nat>, i: nat)
    requires Filled(c) && Falls(c, f)
    ensures Filled(OptJumps(c, f, i))
    decreases |c| - i
  {
    if i < |c| {
      OptJumpsFilled(if IsJmp(c[i].op) then Retarget(c, f, i) else c, f, i + 1);
    }
  }

  lemma OptimizeLoopFilled(c: Code)
    requires Filled(c)
    ensures Filled(OptimizeLoop(c))
  {
    var o := OptCaps(c, 0, 0);
    OptCapsFilled(c, 0, 0);
    if Progress(o) { OptJumpsFilled(o, Ranks(o), 0); }
  }

  // ----- the constructors -----

  lemma {:induction false} AnyFilled(n: nat)
    ensures Filled(AnyCode(n))
    decreases n
  {
    if n > UCHAR_MAX { AnyFilled(n - UCHAR_MAX); }
  }

  lemma NumFilled(n: int)
    ensures Filled(NumCode(n))
  {
    if n > 0 { AnyFilled(n); } else if -n > UCHAR_MAX { AnyFilled(-n - UCHAR_MAX); }
  }

  lemma SeqFilled(c1: Code, c2: Code)
    requires Filled(c1) && Filled(c2)
    ensures Filled(SeqCode(c1, c2))
  {
    if IsAny(c1) && IsAny(c2) {
      AnyFilled(c1[0].op.k.n + c2[0].op.k.n);
    } else {
      OptCapsFilled(c1 + c2, 0, 0);
    }
  }

  lemma StartsFilled(c: Code)
    requires Filled(c) && ToCharset(c).IsCharset?
    ensures ToCharset(c).cs != {}
  {
    SomeByte(c[0].op.k);
  }

  lemma BasicUnionFilled(c1: Code, c2: Code)
    requires Filled(c1) && Filled(c2)
    ensures Filled(BasicUnion(c1, c2))
  {
    if ToCharset(c1).IsCharset? && ToCharset(c2).IsCharset? {
      StartsFilled(c1);
    }
  }

  lemma {:induction false} SeparatePartsFilled(c1: Code, c2: Code)
    requires Filled(c1) && Filled(c2)
    ensures Filled(SeparateParts(c1, c2))
    decreases |c1|
  {
    var sp := FirstPart(c1);
    if sp == 0 {
      BasicUnionFilled(c1, c2);
    } else {
      SeparatePartsFilled(c1[sp..], c2);
      SeparatePartsIs(c1, c2);
    }
  }

  lemma UnionFilled(c1: Code, c2: Code)
    requires Filled(c1) && Filled(c2)
    ensures Filled(UnionCode(c1, c2))
  {
    SeparatePartsFilled(c1, c2);
  }

  lemma DiffFilled(c1: Code, c2: Code)
    requires Filled(c1) && Filled(c2)
    requires ToCharset(c1).IsCharset? && ToCharset(c2).IsCharset? ==> ToCharset(c1).cs - ToCharset(c2).cs != {}
    ensures Filled(DiffCode(c1, c2))
  {
  }

  lemma {:induction false} TimesFilled(c: Code, n: nat)
    requires Filled(c)
    ensures Filled(Times(c, n))
  {
    if n > 0 { TimesFilled(c, n - 1); }
  }

  lemma {:induction false} OptionalHeadFailFilled(c: Code, n: nat)
    requires Filled(c) && IsHeadFail(c)
    ensures Filled(OptionalHeadFail(c, n))
  {
    if n > 0 { OptionalHeadFailFilled(c, n - 1); }
  }

  lemma {:induction false} OptionalTailFilled(c: Code, n: nat)
    requires Filled(c) && n > 0
    ensures Filled(OptionalTail(c, n))
  {
    if n > 1 { OptionalTailFilled(c, n - 1); }
  }

  lemma RepFilled(c: Code, n: int)
    requires Filled(c) && RepCode(c, n).Built?
    ensures Filled(RepCode(c, n).code)
  {
    if n >= 0 {
      TimesFilled(c, n);
      OptimizeLoopFilled(Repeats(c, n));
      if IsHeadFail(c) { OptimizeLoopFilled(RepeatHeadFail(c, n)); }
    } else if IsHeadFail(c) {
      OptionalHeadFailFilled(c, -n);
    } else {
      OptionalTailFilled(c, -n);
    }
  }

  lemma CaptureFilled(c: Code, kind: PattKind, idx: int)
    requires Filled(c)
    ensures Filled(CaptureCode(c, kind, idx))
  {
    OptCapsFilled([Instr(Cap(Open, kind, idx, 0), 0)] + c + [Instr(Cap(Close, CCLOSE, 0, 0), 0)], 0, 0);
  }

  /** No set of the expression is empty, and no difference of two sets is. */
  ghost predicate EmptyFree(e: Expr) {
    match e
    case CharSet(cs) => cs != {}
    case Seq(e1, e2) => EmptyFree(e1) && EmptyFree(e2)
    case Alt(e1, e2) => EmptyFree(e1) && EmptyFree(e2)
    case Diff(e1, e2) =>
      EmptyFree(e1) && EmptyFree(e2) &&
      (Compile(e1).Built? && Compile(e2).Built? ==>
        var t1, t2 := ToCharset(Compile(e1).code), ToCharset(Compile(e2).code);
        t1.IsCharset? && t2.IsCharset? ==> t1.cs - t2.cs != {})
    case And(e1) => EmptyFree(e1)
    case Rep(e1, _) => EmptyFree(e1)
    case Grab(e1, _, _) => EmptyFree(e1)
    case _ => true
  }

  /** Compiling makes no empty sets. */
  lemma {:induction false} CompileFilled(e: Expr)
    requires EmptyFree(e) && Compile(e).Built?
    ensures Filled(Compile(e).code)
    decreases e
  {
    match e
    case Num(n) => NumFilled(n);
    case Seq(e1, e2) =>
      CompileFilled(e1);
      CompileFilled(e2);
      SeqFilled(Compile(e1).code, Compile(e2).code);
    case Alt(e1, e2) =>
      CompileFilled(e1);
      CompileFilled(e2);
      UnionFilled(Compile(e1).code, Compile(e2).code);
    case Diff(e1, e2) =>
      CompileFilled(e1);
      CompileFilled(e2);
      DiffFilled(Compile(e1).code, Compile(e2).code);
    case And(e1) => CompileFilled(e1);
    case Rep(e1, n) =>
      CompileFilled(e1);
      RepFilled(Compile(e1).code, n);
    case Grab(e1, kind, idx) =>
      CompileFilled(e1);
      CaptureFilled(Compile(e1).code, kind, idx);
    case _ =>
  }

  // ----- unions -----

  /** Only an empty set makes `separateparts` rebuild an alternative behind a test of several bytes. */
  lemma {:induction false} FilledNarrow(c1: Code, es: seq<Expr>, c2: Code)
    requires Inv(c1, es) && Filled(c1)
    ensures NarrowUnion(c1, c2)
    decreases |c1|
  {
    var sp := FirstPart(c1);
    if sp > 0 {
      assert OneByte(c1, sp) && !HasEmptySet(c1);
      FilledNarrow(c1[sp..], es[1..], c2);
    }
  }

  /** Without empty sets every union is narrow, so that the pattern is compiled to its meaning. */
  lemma {:induction false} EmptyFreeNarrow(e: Expr)
    requires EmptyFree(e)
    ensures Narrow(e)
    decreases e
  {
    match e
    case Alt(e1, e2) =>
      EmptyFreeNarrow(e1);
      EmptyFreeNarrow(e2);
      if Compile(e1).Built? && Compile(e2).Built? {
        var c1 := Compile(e1).code;
        CompileGood(e1);
        CompileFilled(e1);
        var es: seq<Expr> :| |es| > 0 && es[0] == e1 && Inv(c1, es);
        FilledNarrow(c1, es, Compile(e2).code);
      }
    case Seq(e1, e2) =>
      EmptyFreeNarrow(e1);
      EmptyFreeNarrow(e2);
    case Diff(e1, e2) =>
      EmptyFreeNarrow(e1);
      EmptyFreeNarrow(e2);
    case And(e1) => EmptyFreeNarrow(e1);
    case Rep(e1, _) => EmptyFreeNarrow(e1);
    case Grab(e1, _, _) => EmptyFreeNarrow(e1);
    case _ =>
  }
}
