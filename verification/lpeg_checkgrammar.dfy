/** The check of a whole grammar in the program's form: on a stack of `MAXBACK` slots it finds what the check on an
    unlimited stack finds, or reports that too many calls are pending.  Grammars it lets through can be fixed. */
module LpegCheckGrammar {
  import opened LpegCode
  import opened LpegSemantics
  import opened LpegMachine
  import opened LpegCompile
  import opened LpegInvariant
  import opened LpegVerify
  import opened LpegCompiler
  import opened LpegGrammar
  import opened LpegFix
  import opened LpegRules
  import opened LpegCheckRule
  import opened LpegLeftRec
  import opened LpegCheckEnds

  // ----- one rule -----

  /** What the verifier says: it goes on, has found something, or has no slot left. */
  datatype Reply = GoOn | Stop(finding: Finding) | TooMany

  /** The stack is kept oldest slot first. */
  function Newest(s: seq<Slot>): (r: seq<Slot>)
    ensures |r| == |s| && forall i {:trigger r[i]} :: 0 <= i < |s| ==> r[i] == s[|s| - 1 - i]
  {
    seq(|s|, i requires 0 <= i < |s| => s[|s| - 1 - i])
  }

  lemma PopNewest(s: seq<Slot>)
    requires s != []
    ensures Newest(s)[0] == s[|s| - 1] && Newest(s)[1..] == Newest(s[..|s| - 1])
  {
  }

  lemma PushNewest(s: seq<Slot>, x: Slot)
    ensures Newest(s + [x]) == [x] + Newest(s)
  {
  }

  /** The reply to a state of the check, which a stack of `top` slots in `slots` and `p` stand for. */
  predicate Replies(c: Check, reply: Reply, p: int, slots: seq<Slot>) {
    match reply
    case GoOn => c == Going(p, Newest(slots)) && |slots| <= MAXBACK
    case Stop(f) => c == Ended(f)
    case TooMany => c.Going? && |c.back| > MAXBACK
  }

  /** Backtracks to the newest choice. */
  method CheckFail(back: array<Slot>, top: nat) returns (reply: Reply, p: int, top': nat)
    requires top <= back.Length == MAXBACK
    ensures top' <= top && Replies(Backtracked(Newest(back[..top])), reply, p, back[..top'])
  {
    top', p := top, 0;
    while top' > 0
      invariant 0 <= top' <= top && Backtracked(Newest(back[..top])) == Backtracked(Newest(back[..top']))
    {
      PopNewest(back[..top']);
      top' := top' - 1;
      assert back[..top' + 1][..top'] == back[..top'] && back[..top' + 1][top'] == back[top'];
      if back[top'].pending { return GoOn, back[top'].p, top'; }
    }
    return Stop(Fails), 0, 0;
  }

  /** Whether a call from the same place is pending. */
  method IsPending(back: array<Slot>, top: nat, ret: int) returns (found: bool)
    requires top <= back.Length
    ensures found <==> Pending(Newest(back[..top]), ret)
  {
    var i := 0;
    while i < top
      invariant 0 <= i <= top && Slot(ret, false) !in back[..i]
    {
      if back[i] == Slot(ret, false) {
        assert Newest(back[..top])[top - 1 - i] == Slot(ret, false);
        return true;
      }
      i := i + 1;
    }
    return false;
  }

  method PushSlot(back: array<Slot>, top: nat, slot: Slot, next: int) returns (reply: Reply, p: int, top': nat)
    requires top <= back.Length == MAXBACK
    modifies back
    ensures top' <= MAXBACK && Replies(Going(next, [slot] + Newest(old(back[..top]))), reply, p, back[..top'])
  {
    if top >= MAXBACK { return TooMany, 0, top; }
    ghost var before := back[..top];
    back[top] := slot;
    assert back[..top + 1] == before + [slot];
    PushNewest(before, slot);
    return GoOn, next, top + 1;
  }

  method PopSlot(back: array<Slot>, top: nat) returns (p: int)
    requires 0 < top <= back.Length
    ensures var s := Newest(back[..top]); p == s[0].p && s[1..] == Newest(back[..top - 1])
  {
    PopNewest(back[..top]);
    assert back[..top][..top - 1] == back[..top - 1];
    p := back[top - 1].p;
  }

  /** One instruction. */
  method CheckInstr(back: array<Slot>, top: nat, ins: Instr, pos: seq<nat>, p: int)
    returns (reply: Reply, p': int, top': nat)
    requires top <= back.Length == MAXBACK
    modifies back
    ensures top' <= MAXBACK && Replies(CheckOp(ins, pos, p, Newest(old(back[..top]))), reply, p', back[..top'])
  {
    reply, p', top' := GoOn, p + 1, top;
    match ins.op {
      case Check(_) => reply, p', top' := CheckFail(back, top);
      case FailTwice => reply, p', top' := CheckFail(back, top);
      case Fail(pred) => if !pred { reply, p', top' := CheckFail(back, top); }
      case Test(_) => p' := p + ins.off;
      case Jmp => p' := p + ins.off;
      case Span(_, _) =>
      case Cap(_, _, _, _) =>
      case Choice(_) => reply, p', top' := PushSlot(back, top, Slot(p + ins.off, true), p + 1);
      case Call => reply, p', top' := PushSlot(back, top, Slot(p + 1, false), p + ins.off);
      case OpenCall(rule) => reply, p', top' := CheckCall(back, top, rule, pos, p);
      case _ => reply, p', top' := CheckPop(back, top, ins, pos, p);
    }
  }

  method CheckCall(back: array<Slot>, top: nat, rule: nat, pos: seq<nat>, p: int)
    returns (reply: Reply, p': int, top': nat)
    requires top <= back.Length == MAXBACK
    modifies back
    ensures top' <= MAXBACK
    ensures forall off {:trigger Instr(OpenCall(rule), off)} ::
      Replies(CheckOp(Instr(OpenCall(rule), off), pos, p, Newest(old(back[..top]))), reply, p', back[..top'])
  {
    var left := IsPending(back, top, p + 1);
    if left { return Stop(LeftRecursive), p, top; }
    if rule >= |pos| { return Stop(Unexpected), p, top; }
    reply, p', top' := PushSlot(back, top, Slot(p + 1, false), pos[rule]);
  }

  method CheckPop(back: array<Slot>, top: nat, ins: Instr, pos: seq<nat>, p: int)
    returns (reply: Reply, p': int, top': nat)
    requires top <= back.Length == MAXBACK
    requires ins.op.Ret? || ins.op.Commit? || ins.op.BackCommit? || ins.op.PartialCommit?
    ensures top' <= MAXBACK && Replies(CheckOp(ins, pos, p, Newest(back[..top])), reply, p', back[..top'])
  {
    if top == 0 { return Stop(Unexpected), p, top; }
    var ret := PopSlot(back, top);
    if ins.op.PartialCommit? && ins.off > 0 { return GoOn, p + ins.off, top; }
    return GoOn, if ins.op.Ret? then ret else if ins.op.PartialCommit? then p + 1 else p + ins.off, top - 1;
  }

  // ----- the check of a rule -----

  ghost predicate Outgrows(D: Code, pos: seq<nat>, e: int, c: Check) {
    exists k: nat :: OvergrownAt(D, pos, e, c, k)
  }

  ghost predicate OvergrownAt(D: Code, pos: seq<nat>, e: int, c: Check, k: nat) {
    var ck := CheckIter(D, pos, e, c, k);
    ck.Going? && |ck.back| > MAXBACK
  }

  /** What the verifier says about code from `c` on: `TooMany` exactly when the check outgrows its stack, and otherwise
      what the check finds. */
  ghost predicate Says(D: Code, pos: seq<nat>, e: int, c: Check, reply: Reply) {
    match reply
    case GoOn => false
    case Stop(f) => Comes(D, pos, e, c, Ended(f)) && !Outgrows(D, pos, e, c)
    case TooMany => Outgrows(D, pos, e, c)
  }

  lemma SaysOnce(D: Code, pos: seq<nat>, e: int, c: Check, r1: Reply, r2: Reply)
    requires Says(D, pos, e, c, r1) && Says(D, pos, e, c, r2)
    ensures r1 == r2
  {
    if r1.Stop? && r2.Stop? {
      var j: nat :| CheckIter(D, pos, e, c, j) == Ended(r1.finding);
      var k: nat :| CheckIter(D, pos, e, c, k) == Ended(r2.finding);
      AnswersOnce(D, pos, e, c, j, k);
    }
  }

  /** No state up to the `n`th is overgrown. */
  ghost predicate Lowly(D: Code, pos: seq<nat>, e: int, c: Check, n: nat) {
    forall i: nat :: i <= n ==> !OvergrownAt(D, pos, e, c, i)
  }

  lemma StoppedLow(D: Code, pos: seq<nat>, e: int, c: Check, n: nat, f: Finding)
    requires Lowly(D, pos, e, c, n) && CheckIter(D, pos, e, c, n) == Ended(f)
    ensures Says(D, pos, e, c, Stop(f))
  {
    forall k: nat
      ensures !OvergrownAt(D, pos, e, c, k)
    {
      if k > n { EndedLow(D, pos, e, c, n, k); }
    }
  }

  lemma EndedLow(D: Code, pos: seq<nat>, e: int, c: Check, n: nat, k: nat)
    requires CheckIter(D, pos, e, c, n).Ended? && n <= k
    ensures !OvergrownAt(D, pos, e, c, k)
  {
    CheckAdd(D, pos, e, c, n, k - n);
    CheckEnded(D, pos, e, CheckIter(D, pos, e, c, n), k - n);
  }

  /** A check that ends within `k` steps is still going before. */
  lemma GoingBefore(D: Code, pos: seq<nat>, e: int, c: Check, n: nat, k: nat)
    requires CheckIter(D, pos, e, c, k).Ended? && CheckIter(D, pos, e, c, n).Going?
    ensures n < k && CheckIter(D, pos, e, c, n + 1) == CheckStep(D, pos, e, CheckIter(D, pos, e, c, n))
  {
    if k <= n { StillGoing(D, pos, e, c, k, n); }
    CheckAdd(D, pos, e, c, n, 1);
  }

  /** `verify` over the code from `at` to `e`, where the check ends. */
  method VerifyRule(D: Code, pos: seq<nat>, at: nat, e: int, ghost k: nat) returns (reply: Reply)
    requires CheckIter(D, pos, e, Going(at, []), k).Ended?
    ensures Says(D, pos, e, Going(at, []), reply)
  {
    var back := new Slot[MAXBACK](_ => Slot(0, false));
    var p: int, top: nat := at, 0;
    ghost var (c, n) := (Going(at, []), 0);
    assert Newest(back[..0]) == [];
    while p != e
      invariant top <= MAXBACK && CheckIter(D, pos, e, c, n) == Going(p, Newest(back[..top])) && Lowly(D, pos, e, c, n)
      decreases k - n
    {
      GoingBefore(D, pos, e, c, n, k);
      n := n + 1;
      if !(0 <= p < |D|) {
        StoppedLow(D, pos, e, c, n, Unexpected);
        return Stop(Unexpected);
      }
      reply, p, top := CheckInstr(back, top, D[p], pos, p);
      if reply.TooMany? {
        assert OvergrownAt(D, pos, e, c, n);
        return;
      }
      if reply.Stop? {
        StoppedLow(D, pos, e, c, n, reply.finding);
        return;
      }
    }
    GoingBefore(D, pos, e, c, n, k);
    StoppedLow(D, pos, e, c, n + 1, MatchesEmpty);
    return Stop(MatchesEmpty);
  }

  // ----- the heads of accepted rules -----

  predicate HeadCalls(bodies: seq<Code>, r: nat)
    requires r < |bodies|
  {
    |bodies[r]| > 0 && bodies[r][0].op.OpenCall?
  }

  function Head(bodies: seq<Code>, r: nat): nat
    requires r < |bodies| && HeadCalls(bodies, r)
  {
    bodies[r][0].op.rule
  }

  /** Following the first instructions from rule `r` on, at most `n` rules start with a call. */
  predicate ChainEnds(bodies: seq<Code>, r: nat, n: nat)
    requires r < |bodies|
    decreases n
  {
    HeadCalls(bodies, r) ==>
      n > 0 && Head(bodies, r) < |bodies| && ChainEnds(bodies, Head(bodies, r), n - 1)
  }

  function ChainLength(bodies: seq<Code>, r: nat, n: nat): nat
    requires r < |bodies| && ChainEnds(bodies, r, n)
    decreases n
  {
    if HeadCalls(bodies, r) then ChainLength(bodies, Head(bodies, r), n - 1) + 1 else 0
  }

  lemma {:induction false} SameLength(bodies: seq<Code>, r: nat, n: nat, n': nat)
    requires r < |bodies| && ChainEnds(bodies, r, n) && n <= n'
    ensures ChainEnds(bodies, r, n') && ChainLength(bodies, r, n') == ChainLength(bodies, r, n)
    decreases n
  {
    if HeadCalls(bodies, r) { SameLength(bodies, Head(bodies, r), n - 1, n' - 1); }
  }

  /** Entering rule `r` with `back` pending, a check that is answered within `k` steps enters no more heads. */
  lemma {:induction false} EnteredChain(bodies: seq<Code>, start: nat, r: nat, e: int, back: seq<Slot>, k: nat)
    requires start < |bodies| && r < |bodies| && IsRet(Draft(bodies, start), e)
    requires IsAnswer(CheckIter(Draft(bodies, start), Positions(bodies), e, Going(PosOf(bodies, r), back), k))
    ensures ChainEnds(bodies, r, k)
    decreases k
  {
    var (D, pos, at) := (Draft(bodies, start), Positions(bodies), PosOf(bodies, r));
    if HeadCalls(bodies, r) {
      DraftPick(bodies, start, r, 0);
      var c1 := CheckStep(D, pos, e, Going(at, back));
      assert c1 == CheckOp(D[at], pos, at, back);
      if c1.Ended? {
        CheckEnded(D, pos, e, c1, k - 1);
        assert false;
      }
      EnteredChain(bodies, start, Head(bodies, r), e, c1.back, k - 1);
    }
  }

  /** A head that calls has a longer chain than the rule it calls. */
  lemma ChainFalls(bodies: seq<Code>, r: nat, n: nat)
    requires r < |bodies| && ChainEnds(bodies, r, n) && HeadCalls(bodies, r)
    ensures Head(bodies, r) < |bodies| && ChainEnds(bodies, Head(bodies, r), n)
    ensures ChainLength(bodies, Head(bodies, r), n) < ChainLength(bodies, r, n)
  {
    SameLength(bodies, Head(bodies, r), n - 1, n);
  }

  /** Every chain of heads ends, so that lengths of chains are ranks. */
  lemma ChainsFall(bodies: seq<Code>, n: nat) returns (h: seq<nat>)
    requires forall r: nat :: r < |bodies| ==> ChainEnds(bodies, r, n)
    ensures HeadsFall(bodies, h)
  {
    h := seq(|bodies|, r requires 0 <= r < |bodies| => ChainLength(bodies, r, n));
    forall r | 0 <= r < |bodies| && |bodies[r]| > 0 && bodies[r][0].op.OpenCall?
      ensures bodies[r][0].op.rule < |bodies| && h[bodies[r][0].op.rule] < h[r]
    {
      ChainFalls(bodies, r, n);
    }
  }

  /** The check of rule `r` is answered. */
  ghost predicate Answered(bodies: seq<Code>, start: nat, r: nat)
    requires start < |bodies| && r < |bodies|
  {
    exists k: nat :: IsAnswer(CheckAt(bodies, start, r, k))
  }

  /** One bound for the chains of the first `n` rules. */
  lemma {:induction false} ChainsBound(bodies: seq<Code>, start: nat, n: nat) returns (b: nat)
    requires start < |bodies| && n <= |bodies|
    requires forall r: nat :: r < n ==> Answered(bodies, start, r)
    ensures forall r: nat :: r < n ==> ChainEnds(bodies, r, b)
    decreases n
  {
    if n == 0 {
      b := 0;
    } else {
      var b0 := ChainsBound(bodies, start, n - 1);
      assert Answered(bodies, start, n - 1);
      var k: nat :| IsAnswer(CheckAt(bodies, start, n - 1, k));
      DraftAt(bodies, start, n - 1);
      EnteredChain(bodies, start, n - 1, EndOf(bodies, n - 1), [], k);
      b := if b0 <= k then k else b0;
      SameLength(bodies, n - 1, k, b);
      forall r: nat | r < n - 1
        ensures ChainEnds(bodies, r, b)
      {
        SameLength(bodies, r, b0, b);
      }
    }
  }

  /** If the check of every rule is answered, no rule starts with a call that leads back to itself, so that the
      grammar can be fixed. */
  lemma CheckedHeadsFall(bodies: seq<Code>, start: nat) returns (h: seq<nat>)
    requires start < |bodies| && forall r: nat :: r < |bodies| ==> Answered(bodies, start, r)
    ensures HeadsFall(bodies, h)
  {
    var b := ChainsBound(bodies, start, |bodies|);
    h := ChainsFall(bodies, b);
  }

  // ----- a whole grammar -----

  /** What `checkrule` says about rule `r`. */
  ghost predicate SaysOf(bodies: seq<Code>, start: nat, r: nat, reply: Reply)
    requires start < |bodies| && r < |bodies|
  {
    Says(Draft(bodies, start), Positions(bodies), EndOf(bodies, r), Going(PosOf(bodies, r), []), reply)
  }

  predicate Fine(reply: Reply) {
    reply == Stop(Fails) || reply == Stop(MatchesEmpty)
  }

  ghost predicate LetThrough(bodies: seq<Code>, start: nat, r: nat)
    requires start < |bodies| && r < |bodies|
  {
    SaysOf(bodies, start, r, Stop(Fails)) || SaysOf(bodies, start, r, Stop(MatchesEmpty))
  }

  /** The check of rule `r` ends, and no assertion of the verifier fails. */
  ghost predicate Ends(bodies: seq<Code>, start: nat, r: nat)
    requires start < |bodies| && r < |bodies|
  {
    exists k: nat :: CheckAt(bodies, start, r, k).Ended? && CheckAt(bodies, start, r, k) != Ended(Unexpected)
  }

  lemma AllEnd(g: seq<Expr>, bodies: seq<Code>, start: nat)
    requires start < |bodies| && Compiled(g, bodies) && RulesDefined(bodies)
    ensures forall r: nat :: r < |bodies| ==> Ends(bodies, start, r)
  {
    DraftDrafted(g, bodies, start);
    forall r: nat | r < |bodies|
      ensures Ends(bodies, start, r)
    {
      var k := CheckEnds(g, bodies, start, r);
    }
  }

  method CheckOneRule(a: array<Instr>, pos: seq<nat>, bodies: seq<Code>, start: nat, r: nat) returns (reply: Reply)
    requires start < |bodies| && r < |bodies| && Ends(bodies, start, r)
    requires a[..] == Draft(bodies, start) && pos == Positions(bodies)
    ensures SaysOf(bodies, start, r, reply) && reply != GoOn && reply != Stop(Unexpected)
  {
    ghost var k: nat :|
      CheckAt(bodies, start, r, k).Ended? && CheckAt(bodies, start, r, k) != Ended(Unexpected);
    reply := VerifyRule(a[..], pos, pos[r], pos[r] + |bodies[r]|, k);
    NotUnexpected(bodies, start, r, reply, k);
  }

  /** Checks all rules, up to the first that does not pass. */
  method CheckRules(a: array<Instr>, pos: seq<nat>, ghost g: seq<Expr>, bodies: seq<Code>, start: nat)
    returns (reply: Reply, rule: nat)
    requires start < |bodies| && Compiled(g, bodies) && RulesDefined(bodies)
    requires a[..] == Draft(bodies, start) && pos == Positions(bodies)
    ensures rule <= |bodies| && forall r: nat :: r < rule ==> LetThrough(bodies, start, r)
    ensures reply == GoOn <==> rule == |bodies|
    ensures rule < |bodies| ==> SaysOf(bodies, start, rule, reply) && !Fine(reply)
    ensures reply != Stop(Unexpected)
  {
    rule, reply := 0, GoOn;
    AllEnd(g, bodies, start);
    while rule < |bodies|
      invariant rule <= |bodies| && reply == GoOn && forall r: nat :: r < rule ==> LetThrough(bodies, start, r)
    {
      reply := CheckOneRule(a, pos, bodies, start, rule);
      if reply != Stop(Fails) && reply != Stop(MatchesEmpty) { return; }
      reply, rule := GoOn, rule + 1;
    }
  }

  lemma NotUnexpected(bodies: seq<Code>, start: nat, r: nat, reply: Reply, k: nat)
    requires start < |bodies| && r < |bodies| && SaysOf(bodies, start, r, reply)
    requires CheckAt(bodies, start, r, k).Ended? && CheckAt(bodies, start, r, k) != Ended(Unexpected)
    ensures reply != Stop(Unexpected)
  {
    if reply == Stop(Unexpected) {
      var (D, pos, e, c) := (Draft(bodies, start), Positions(bodies), EndOf(bodies, r), Going(PosOf(bodies, r), []));
      var j: nat :| CheckIter(D, pos, e, c, j) == Ended(Unexpected);
      AnswersOnce(D, pos, e, c, j, k);
    }
  }

  lemma NotLetThrough(bodies: seq<Code>, start: nat, r: nat, reply: Reply)
    requires start < |bodies| && r < |bodies| && SaysOf(bodies, start, r, reply) && !Fine(reply)
    ensures !LetThrough(bodies, start, r)
  {
    if LetThrough(bodies, start, r) {
      var f := if SaysOf(bodies, start, r, Stop(Fails)) then Fails else MatchesEmpty;
      var c := Going(PosOf(bodies, r), []);
      SaysOnce(Draft(bodies, start), Positions(bodies), EndOf(bodies, r), c, reply, Stop(f));
    }
  }

  lemma LetThroughAnswered(bodies: seq<Code>, start: nat, r: nat)
    requires start < |bodies| && r < |bodies| && LetThrough(bodies, start, r)
    ensures Answered(bodies, start, r)
  {
    var (D, pos, e, c) := (Draft(bodies, start), Positions(bodies), EndOf(bodies, r), Going(PosOf(bodies, r), []));
    var f := if SaysOf(bodies, start, r, Stop(Fails)) then Fails else MatchesEmpty;
    var k: nat :| CheckIter(D, pos, e, c, k) == Ended(f);
    assert IsAnswer(CheckAt(bodies, start, r, k));
  }

  /** `fix_l`, without the checks of loop bodies: lays out the rules, checks them, fixes the calls and collapses the
      jumps.  It fails exactly when a rule is not let through, with what the check says about the first such rule,
      and otherwise yields the grammar's code; nothing but the check is needed for the calls to be fixed. */
  method FixChecked(ghost g: seq<Expr>, bodies: seq<Code>, start: nat)
    returns (reply: Reply, rule: nat, a: array<Instr>, ghost h: seq<nat>)
    requires start < |bodies| && Compiled(g, bodies) && RulesDefined(bodies)
    ensures rule <= |bodies| && forall r: nat :: r < rule ==> LetThrough(bodies, start, r)
    ensures reply == GoOn <==> rule == |bodies|
    ensures rule < |bodies| ==> SaysOf(bodies, start, rule, reply) && !Fine(reply)
    ensures reply == GoOn <==> forall r: nat :: r < |bodies| ==> LetThrough(bodies, start, r)
    ensures reply == GoOn ==> GrammarOk(g, bodies, h) && Fixable(bodies, h) && a[..] == GrammarCode(bodies, start, h)
  {
    var pos;
    a, pos := LayOut(bodies, start);
    reply, rule := CheckRules(a, pos, g, bodies, start);
    h := [];
    if reply == GoOn {
      forall r: nat | r < |bodies|
        ensures Answered(bodies, start, r)
      {
        LetThroughAnswered(bodies, start, r);
      }
      h := CheckedHeadsFall(bodies, start);
      CompiledFixable(g, bodies, h);
      FixCalls(a, pos, bodies, start, h);
    } else {
      NotLetThrough(bodies, start, rule, reply);
    }
  }
}
