/** Pattern expressions and their meaning as parsing expressions, independent of any machine. */
module LpegSemantics {
  import opened LpegCode
  import opened LpegCaptures

  /** Patterns as the library's functions and operators build them. */
  datatype Expr =
    | Lit(bytes: seq<Byte>)                  // a string; `true` is Lit([])
    | Num(n: int)                            // a number: any(n), or "fewer than -n left"
    | Never                                  // `false`
    | CharSet(cs: Charset)                   // S(...) or R(...)
    | NonTerm(rule: nat)                     // V(rule)
    | Seq(first: Expr, second: Expr)         // first * second
    | Alt(first: Expr, second: Expr)         // first + second
    | Diff(main: Expr, not: Expr)            // main - not
    | And(body: Expr)                        // #body
    | Rep(body: Expr, n: int)                // body ^ n
    | Grab(body: Expr, kind: PattKind, idx: int)  // C, Ct, Cs, Ca and body / value
    | Mark(kind: PattKind, idx: int)              // Cp, Cb, Carg and one value of Cc

  /** The result of matching at a position.  `Diverge` means that the parsing expression
      has no result there: a rule without one, or a loop whose body consumes nothing. */
  datatype Out = Succ(pos: int, caps: seq<Capture>) | Failure | Diverge

  /** How a pattern is run: on a subject, with the results of the rules it may refer to, or by the
      verifier, which fails every check and pretends that every predicate succeeds.  The verifier fails a call
      to a rule, or has a table of the rules: which of them match the empty string, as far as that is known. */
  datatype Mode = Real(subj: seq<Byte>, rules: map<(nat, int), Out>) | Verify | Table(empties: map<nat, bool>)

  predicate ValidPos(m: Mode, s: int) {
    m.Real? ==> 0 <= s <= |m.subj|
  }

  /** Captures left by a complete pattern: the last one is closed. */
  predicate ClosedCaps(d: seq<Capture>) {
    |d| > 0 ==> d[|d| - 1].siz != 0
  }

  function Prepend(d: seq<Capture>, o: Out): Out {
    if o.Succ? then Succ(o.pos, d + o.caps) else o
  }

  predicate Matches(m: Mode, k: CheckKind, s: int)
    requires ValidPos(m, s)
  {
    m.Real? &&
    match k
    case KAny(n) => n <= |m.subj| - s
    case KChar(c) => s < |m.subj| && m.subj[s] == c
    case KSet(cs, _) => s < |m.subj| && m.subj[s] in cs
  }

  /** The result a rule has at a position; anything ill-formed counts as no result. */
  function RuleOut(m: Mode, r: nat, s: int): (o: Out)
    requires m.Real?
    ensures o.Succ? ==> s <= o.pos <= |m.subj| && ClosedCaps(o.caps) && Balanced(o.caps)
  {
    if (r, s) !in m.rules then Diverge
    else
      var o := m.rules[(r, s)];
      if o.Succ? && !(s <= o.pos <= |m.subj| && ClosedCaps(o.caps) && Balanced(o.caps)) then Diverge else o
  }

  /** The result of a call to a rule. */
  function CallOut(m: Mode, r: nat, s: int): Out {
    match m
    case Real(_, _) => RuleOut(m, r, s)
    case Verify => Failure
    case Table(empties) => if r !in empties then Diverge else if empties[r] then Succ(s, []) else Failure
  }

  /** The entries a capture leaves: one closed entry, or an open and a close around the nested ones. */
  function GrabCaps(kind: PattKind, idx: int, s: int, o: Out): (d: seq<Capture>)
    requires o.Succ? && s <= o.pos
    ensures ClosedCaps(d) && d != []
  {
    if o.caps == [] && o.pos - s < UCHAR_MAX then [Capture(s, idx, kind, o.pos - s + 1)]
    else [Capture(s, idx, kind, 0)] + o.caps + [Capture(o.pos, 0, CCLOSE, 1)]
  }

  /** The meaning of an expression at a position. */
  function Eval(e: Expr, m: Mode, s: int): (o: Out)
    requires ValidPos(m, s)
    ensures o.Succ? ==> s <= o.pos && ValidPos(m, o.pos) && ClosedCaps(o.caps)
    ensures !m.Real? && o.Succ? ==> o.pos == s
    decreases e, 0, 0
  {
    match e
    case Lit(bytes) =>
      if bytes == [] then Succ(s, [])
      else if m.Real? && |bytes| <= |m.subj| - s && m.subj[s..s + |bytes|] == bytes then Succ(s + |bytes|, [])
      else Failure
    case Num(n) =>
      if n == 0 then Succ(s, [])
      else if n > 0 then
        if m.Real? && n <= |m.subj| - s then Succ(s + n, []) else Failure
      else
        if m.Real? && -n <= |m.subj| - s then Failure else Succ(s, [])
    case Never => Failure
    case CharSet(cs) =>
      if m.Real? && s < |m.subj| && m.subj[s] in cs then Succ(s + 1, []) else Failure
    case NonTerm(r) => CallOut(m, r, s)
    case Seq(e1, e2) =>
      var o := Eval(e1, m, s);
      if o.Succ? then Prepend(o.caps, Eval(e2, m, o.pos)) else o
    case Alt(e1, e2) =>
      var o := Eval(e1, m, s);
      if o.Failure? then Eval(e2, m, s) else o
    case Diff(e1, e2) =>
      var o := Eval(e2, m, s);
      if o.Diverge? then Diverge
      else if m.Real? && o.Succ? then Failure
      else Eval(e1, m, s)
    case And(e1) =>
      var o := Eval(e1, m, s);
      if o.Succ? then Succ(s, o.caps)
      else if !m.Real? && o.Failure? then Succ(s, [])
      else o
    case Rep(e1, n) =>
      if n >= 0 then
        var o := EvalTimes(e1, m, n, s);
        if o.Succ? then Prepend(o.caps, EvalLoop(e1, m, o.pos)) else o
      else EvalUpTo(e1, m, -n, s)
    case Grab(e1, kind, idx) =>
      var o := Eval(e1, m, s);
      if o.Succ? then Succ(o.pos, GrabCaps(kind, idx, s, o)) else o
    case Mark(kind, idx) => Succ(s, [Capture(s, idx, kind, 1)])
  }

  /** `e` matched `n` times in a row. */
  function EvalTimes(e: Expr, m: Mode, n: nat, s: int): (o: Out)
    requires ValidPos(m, s)
    ensures o.Succ? ==> s <= o.pos && ValidPos(m, o.pos) && ClosedCaps(o.caps)
    ensures !m.Real? && o.Succ? ==> o.pos == s
    decreases e, 1, n
  {
    if n == 0 then Succ(s, [])
    else
      var o := Eval(e, m, s);
      if o.Succ? then Prepend(o.caps, EvalTimes(e, m, n - 1, o.pos)) else o
  }

  /** `e` matched as often as possible; without a result when a round consumes nothing.  With its table the
      verifier leaves a loop after the first round. */
  function EvalLoop(e: Expr, m: Mode, s: int): (o: Out)
    requires ValidPos(m, s)
    ensures o.Succ? ==> s <= o.pos && ValidPos(m, o.pos) && ClosedCaps(o.caps)
    ensures !m.Real? && o.Succ? ==> o.pos == s
    decreases e, 1, if m.Real? then |m.subj| - s else 0
  {
    var o := Eval(e, m, s);
    if o.Failure? then Succ(s, [])
    else if o.Succ? && m.Table? then o
    else if o.Succ? && s < o.pos then Prepend(o.caps, EvalLoop(e, m, o.pos))
    else Diverge
  }

  /** `e` matched as often as possible, at most `n` times. */
  function EvalUpTo(e: Expr, m: Mode, n: nat, s: int): (o: Out)
    requires ValidPos(m, s)
    ensures o.Succ? ==> s <= o.pos && ValidPos(m, o.pos) && ClosedCaps(o.caps)
    ensures !m.Real? && o.Succ? ==> o.pos == s
    ensures !o.Failure?
    decreases e, 1, n
  {
    if n == 0 then Succ(s, [])
    else
      var o := Eval(e, m, s);
      if o.Failure? then Succ(s, [])
      else if o.Succ? then Prepend(o.caps, EvalUpTo(e, m, n - 1, o.pos))
      else Diverge
  }

  // ----- the captures of a complete match are balanced -----

  lemma PrependBalanced(d: seq<Capture>, o: Out)
    requires Balanced(d) && (o.Succ? ==> Balanced(o.caps))
    ensures Prepend(d, o).Succ? ==> Balanced(Prepend(d, o).caps)
  {
    if o.Succ? { BalancedConcat(d, o.caps); }
  }

  lemma GrabBalanced(kind: PattKind, idx: int, s: int, o: Out)
    requires o.Succ? && s <= o.pos && Balanced(o.caps)
    ensures Balanced(GrabCaps(kind, idx, s, o))
  {
    WaitingOne([], Capture(s, idx, kind, o.pos - s + 1));
    assert [] + [Capture(s, idx, kind, o.pos - s + 1)] == [Capture(s, idx, kind, o.pos - s + 1)];
    BalancedAround(Capture(s, idx, kind, 0), o.caps, Capture(o.pos, 0, CCLOSE, 1));
  }

  lemma {:induction false} EvalBalanced(e: Expr, m: Mode, s: int)
    requires ValidPos(m, s)
    ensures Eval(e, m, s).Succ? ==> Balanced(Eval(e, m, s).caps)
    decreases e, 0, 0
  {
    match e
    case Seq(e1, e2) =>
      EvalBalanced(e1, m, s);
      var o := Eval(e1, m, s);
      if o.Succ? {
        EvalBalanced(e2, m, o.pos);
        PrependBalanced(o.caps, Eval(e2, m, o.pos));
      }
    case Alt(e1, e2) =>
      EvalBalanced(e1, m, s);
      EvalBalanced(e2, m, s);
    case Diff(e1, _) => EvalBalanced(e1, m, s);
    case And(e1) => EvalBalanced(e1, m, s);
    case Rep(e1, n) =>
      if n >= 0 {
        TimesBalanced(e1, m, n, s);
        var o := EvalTimes(e1, m, n, s);
        if o.Succ? {
          LoopBalanced(e1, m, o.pos);
          PrependBalanced(o.caps, EvalLoop(e1, m, o.pos));
        }
      } else {
        UpToBalanced(e1, m, -n, s);
      }
    case Grab(e1, kind, idx) =>
      EvalBalanced(e1, m, s);
      var o := Eval(e1, m, s);
      if o.Succ? { GrabBalanced(kind, idx, s, o); }
    case Mark(kind, idx) =>
      WaitingOne([], Capture(s, idx, kind, 1));
      assert [] + [Capture(s, idx, kind, 1)] == [Capture(s, idx, kind, 1)];
    case _ =>
  }

  lemma {:induction false} TimesBalanced(e: Expr, m: Mode, n: nat, s: int)
    requires ValidPos(m, s)
    ensures EvalTimes(e, m, n, s).Succ? ==> Balanced(EvalTimes(e, m, n, s).caps)
    decreases e, 1, n
  {
    var o := Eval(e, m, s);
    EvalBalanced(e, m, s);
    if n > 0 && o.Succ? {
      TimesBalanced(e, m, n - 1, o.pos);
      PrependBalanced(o.caps, EvalTimes(e, m, n - 1, o.pos));
    }
  }

  lemma {:induction false} LoopBalanced(e: Expr, m: Mode, s: int)
    requires ValidPos(m, s)
    ensures EvalLoop(e, m, s).Succ? ==> Balanced(EvalLoop(e, m, s).caps)
    decreases e, 1, if m.Real? then |m.subj| - s else 0
  {
    var o := Eval(e, m, s);
    EvalBalanced(e, m, s);
    if o.Succ? && s < o.pos {
      LoopBalanced(e, m, o.pos);
      PrependBalanced(o.caps, EvalLoop(e, m, o.pos));
    }
  }

  lemma {:induction false} UpToBalanced(e: Expr, m: Mode, n: nat, s: int)
    requires ValidPos(m, s)
    ensures EvalUpTo(e, m, n, s).Succ? ==> Balanced(EvalUpTo(e, m, n, s).caps)
    decreases e, 1, n
  {
    var o := Eval(e, m, s);
    EvalBalanced(e, m, s);
    if n > 0 && o.Succ? {
      UpToBalanced(e, m, n - 1, o.pos);
      PrependBalanced(o.caps, EvalUpTo(e, m, n - 1, o.pos));
    }
  }
}
