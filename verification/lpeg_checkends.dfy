/** The check of a grammar's rules always ends: calls that are pending are made from different places, and between
    two calls a body is run to its end. */
module LpegCheckEnds {
  import opened LpegCode
  import opened LpegSemantics
  import opened LpegMachine
  import opened LpegBehaviour
  import opened LpegCompile
  import opened LpegInvariant
  import opened LpegVerify
  import opened LpegCompiler
  import opened LpegGrammar
  import opened LpegFix
  import opened LpegRules
  import opened LpegTable
  import opened LpegCheckRule
  import opened LpegLeftRec

  // ----- every check ends -----

  /** A number above all rules the expression calls. */
  function RulesBelow(e: Expr): nat {
    match e
    case NonTerm(r) => r + 1
    case Seq(e1, e2) => RulesBelow(e1) + RulesBelow(e2)
    case Alt(e1, e2) => RulesBelow(e1) + RulesBelow(e2)
    case Diff(e1, e2) => RulesBelow(e1) + RulesBelow(e2)
    case And(e1) => RulesBelow(e1)
    case Rep(e1, _) => RulesBelow(e1)
    case Grab(e1, _, _) => RulesBelow(e1)
    case _ => 0
  }

  /** The answers of the check itself, taken as a table: a rule that returns on an empty stack is an empty one. */
  ghost function Answers(bodies: seq<Code>, D: Code, e: int, n: nat): Mode {
    Table(map q: nat | q < n :: q := q < |bodies| && Returns(bodies, D, e, q))
  }

  ghost predicate Returns(bodies: seq<Code>, D: Code, e: int, q: nat)
    requires q < |bodies|
  {
    Comes(D, Positions(bodies), e, Going(PosOf(bodies, q), []), Going(EndOf(bodies, q), []))
  }

  lemma {:induction false} AnswersCover(bodies: seq<Code>, D: Code, e: int, n: nat, x: Expr)
    requires RulesBelow(x) <= n
    ensures Covered(x, Answers(bodies, D, e, n))
    decreases x
  {
    match x
    case Seq(e1, e2) =>
      AnswersCover(bodies, D, e, n, e1);
      AnswersCover(bodies, D, e, n, e2);
    case Alt(e1, e2) =>
      AnswersCover(bodies, D, e, n, e1);
      AnswersCover(bodies, D, e, n, e2);
    case Diff(e1, e2) =>
      AnswersCover(bodies, D, e, n, e1);
      AnswersCover(bodies, D, e, n, e2);
    case And(e1) => AnswersCover(bodies, D, e, n, e1);
    case Rep(e1, _) => AnswersCover(bodies, D, e, n, e1);
    case Grab(e1, _, _) => AnswersCover(bodies, D, e, n, e1);
    case _ =>
  }

  /** The check comes to an answer, or finds left recursion. */
  ghost predicate ComesEnded(D: Code, pos: seq<nat>, e: int, c: Check) {
    exists f: Finding :: f != Unexpected && Comes(D, pos, e, c, Ended(f))
  }

  lemma EndedLater(D: Code, pos: seq<nat>, e: int, c: Check, c1: Check)
    requires Comes(D, pos, e, c, c1) && ComesEnded(D, pos, e, c1)
    ensures ComesEnded(D, pos, e, c)
  {
    var f: Finding :| f != Unexpected && Comes(D, pos, e, c1, Ended(f));
    ComesOn(D, pos, e, c, c1, Ended(f));
  }

  lemma EndedNow(D: Code, pos: seq<nat>, e: int, c: Check)
    requires c.Ended? && c.finding != Unexpected
    ensures ComesEnded(D, pos, e, c)
  {
    ComesHere(D, pos, e, c);
    assert c == Ended(c.finding);
  }

  /** A rule that fails on an empty stack does not return on it. */
  lemma FailsOrReturns(g: seq<Expr>, bodies: seq<Code>, D: Code, e: int, q: nat)
    requires Drafted(g, bodies, D) && q < |bodies|
    requires Comes(D, Positions(bodies), e, Going(PosOf(bodies, q), []), Ended(Fails))
    ensures !Returns(bodies, D, e, q)
  {
    var (pos, first) := (Positions(bodies), Going(PosOf(bodies, q), []));
    if Returns(bodies, D, e, q) {
      var j: nat :| CheckIter(D, pos, e, first, j) == Ended(Fails);
      var last := Going(EndOf(bodies, q), []);
      DraftedBody(g, bodies, D, q);
      ComesNext(D, pos, e, last);
      ComesOn(D, pos, e, first, last, CheckStep(D, pos, e, last));
      var k: nat :| CheckIter(D, pos, e, first, k) == CheckStep(D, pos, e, last);
      AnswersOnce(D, pos, e, first, j, k);
    }
  }

  /** The return addresses that are not pending. */
  function Free(D: Code, back: seq<Slot>): set<int> {
    set ret | 0 < ret <= |D| && !Pending(back, ret)
  }

  /** What is pending in `back'` is pending in `back`. */
  ghost predicate Fewer(back': seq<Slot>, back: seq<Slot>) {
    forall ret {:trigger Pending(back', ret)} :: Pending(back', ret) ==> Pending(back, ret)
  }

  lemma PushFewer(s: Slot, back': seq<Slot>, back: seq<Slot>)
    requires Fewer(back', back)
    ensures Fewer([s] + back', [s] + back)
  {
    forall ret | Pending([s] + back', ret)
      ensures Pending([s] + back, ret)
    {
      var i :| 0 <= i < |[s] + back'| && ([s] + back')[i] == Slot(ret, false);
      if i > 0 {
        assert back'[i - 1] == Slot(ret, false);
        assert Pending(back', ret) && Pending(back, ret);
        var j :| 0 <= j < |back| && back[j] == Slot(ret, false);
        assert ([s] + back)[j + 1] == Slot(ret, false);
      } else {
        assert ([s] + back)[0] == Slot(ret, false);
      }
    }
  }

  lemma PushFree(D: Code, p: nat, back: seq<Slot>)
    requires p < |D| && !Pending(back, p + 1)
    ensures Free(D, [Slot(p + 1, false)] + back) < Free(D, back)
  {
    var base := [Slot(p + 1, false)] + back;
    assert base[0] == Slot(p + 1, false);
    assert p + 1 !in Free(D, base) && p + 1 in Free(D, back);
    forall ret | ret in Free(D, base)
      ensures ret in Free(D, back)
    {
      PendingBelow(back, Slot(p + 1, false), ret);
    }
  }

  lemma PendingBelow(back: seq<Slot>, s: Slot, ret: int)
    ensures Pending(back, ret) ==> Pending([s] + back, ret)
  {
    if Pending(back, ret) {
      var i :| 0 <= i < |back| && back[i] == Slot(ret, false);
      assert ([s] + back)[i + 1] == Slot(ret, false);
    }
  }

  /** The choices of a body change nothing in what is pending. */
  lemma ChoicesFree(D: Code, stk: seq<Frame>, at: int, base: seq<Slot>)
    requires forall i {:trigger stk[i]} :: 0 <= i < |stk| ==> stk[i].Back?
    ensures forall ret {:trigger Pending(SlotsAt(stk, at) + base, ret)} ::
      Pending(SlotsAt(stk, at) + base, ret) <==> Pending(base, ret)
    ensures Free(D, SlotsAt(stk, at) + base) == Free(D, base)
  {
    var back := SlotsAt(stk, at) + base;
    forall ret
      ensures Pending(back, ret) <==> Pending(base, ret)
    {
      if Pending(back, ret) {
        var i :| 0 <= i < |back| && back[i] == Slot(ret, false);
        assert i >= |stk| && base[i - |stk|] == Slot(ret, false);
      }
      if Pending(base, ret) {
        var i :| 0 <= i < |base| && base[i] == Slot(ret, false);
        assert back[i + |stk|] == Slot(ret, false);
      }
    }
  }

  /** If the check with `back` pending does not end inside the call, then with no more than that pending it comes
      back behind the call, or backtracks, as the table of answers says. */
  lemma CallEnds(g: seq<Expr>, bodies: seq<Code>, D: Code, top: nat, p: nat, q: nat, back: seq<Slot>, back': seq<Slot>)
    requires Drafted(g, bodies, D) && top < |bodies| && q < |bodies| && p < |D| && D[p].op == OpenCall(q)
    requires Fewer(back', back)
    ensures
      var (pos, e) := (Positions(bodies), EndOf(bodies, top));
      || ComesEnded(D, pos, e, Going(p, back))
      || Comes(D, pos, e, Going(p, back'),
               if Returns(bodies, D, e, q) then Going(p + 1, back') else Backtracked(back'))
    decreases Free(D, back), 0
  {
    var (pos, e) := (Positions(bodies), EndOf(bodies, top));
    DraftedBody(g, bodies, D, top);
    var next := CheckStep(D, pos, e, Going(p, back));
    ComesNext(D, pos, e, Going(p, back));
    if Pending(back, p + 1) {
      EndedNow(D, pos, e, next);
      EndedLater(D, pos, e, Going(p, back), next);
    } else {
      PushFree(D, p, back);
      PushFewer(Slot(p + 1, false), back', back);
      var (base, base') := ([Slot(p + 1, false)] + back, [Slot(p + 1, false)] + back');
      RuleEnds(g, bodies, D, top, q, base, base);
      RuleEnds(g, bodies, D, top, q, base, base');
      if ComesEnded(D, pos, e, next) {
        EndedLater(D, pos, e, Going(p, back), next);
      } else {
        EnteredLeaves(g, bodies, D, top, p, q, back, back');
      }
    }
  }

  lemma EnteredLeaves(g: seq<Expr>, bodies: seq<Code>, D: Code, top: nat, p: nat, q: nat, back: seq<Slot>,
                      back': seq<Slot>)
    requires Drafted(g, bodies, D) && top < |bodies| && q < |bodies| && p < |D| && D[p].op == OpenCall(q)
    requires !Pending(back, p + 1) && !Pending(back', p + 1)
    requires
      var (pos, e) := (Positions(bodies), EndOf(bodies, top));
      var (base, base') := ([Slot(p + 1, false)] + back, [Slot(p + 1, false)] + back');
      Comes(D, pos, e, Going(PosOf(bodies, q), base), Done(bodies, q, Returns(bodies, D, e, q), base)) &&
      Comes(D, pos, e, Going(PosOf(bodies, q), base'), Done(bodies, q, Returns(bodies, D, e, q), base'))
    ensures
      var (pos, e) := (Positions(bodies), EndOf(bodies, top));
      || ComesEnded(D, pos, e, Going(p, back))
      || Comes(D, pos, e, Going(p, back'),
               if Returns(bodies, D, e, q) then Going(p + 1, back') else Backtracked(back'))
  {
    var (pos, e) := (Positions(bodies), EndOf(bodies, top));
    var (base, base', empty) := ([Slot(p + 1, false)] + back, [Slot(p + 1, false)] + back', Returns(bodies, D, e, q));
    DraftedBody(g, bodies, D, top);
    if q == top && empty {
      var here := Done(bodies, q, empty, base);
      ComesNext(D, pos, e, Going(p, back));
      ComesOn(D, pos, e, Going(p, back), Going(PosOf(bodies, q), base), here);
      ComesNext(D, pos, e, here);
      EndedNow(D, pos, e, Ended(MatchesEmpty));
      EndedLater(D, pos, e, here, Ended(MatchesEmpty));
      EndedLater(D, pos, e, Going(p, back), here);
    } else {
      var here := Done(bodies, q, empty, base');
      ComesNext(D, pos, e, Going(p, back'));
      ComesOn(D, pos, e, Going(p, back'), Going(PosOf(bodies, q), base'), here);
      if q == top {
        assert base'[1..] == back';
      } else {
        LeaveCall(g, bodies, D, top, p, q, back', empty);
        ComesOn(D, pos, e, Going(p, back'), here, if empty then Going(p + 1, back') else Backtracked(back'));
      }
    }
  }

  /** The run of a body with the table of answers: the check follows it to its end, unless it ends before. */
  lemma {:induction false} BodyEnds(g: seq<Expr>, bodies: seq<Code>, D: Code, top: nat, q: nat, n: nat,
                                    st: State, k: nat, fin: State, base: seq<Slot>, base': seq<Slot>)
    requires Drafted(g, bodies, D) && top < |bodies| && q < |bodies| && Fewer(base', base)
    requires
      var m := Answers(bodies, D, EndOf(bodies, top), n);
      AllBack(st) && Iter(m, bodies[q], 0, st, k) == fin && !fin.Stuck?
    ensures
      var (pos, e, at) := (Positions(bodies), EndOf(bodies, top), PosOf(bodies, q));
      || ComesEnded(D, pos, e, CheckOf(st, at, base))
      || Comes(D, pos, e, CheckOf(st, at, base'), CheckOf(fin, at, base'))
    decreases Free(D, base), 1, k
  {
    var (pos, e, at) := (Positions(bodies), EndOf(bodies, top), PosOf(bodies, q));
    var (m, c) := (Answers(bodies, D, e, n), bodies[q]);
    DraftedBody(g, bodies, D, q);
    if k == 0 || Halted(c, st) {
      IterHaltedOr(m, c, 0, st, k);
      ComesHere(D, pos, e, CheckOf(st, at, base'));
    } else {
      var st1 := Step(m, c, 0, st);
      if st1.Stuck? { IterHalted(m, c, 0, st1, k - 1); }
      StepEnds(g, bodies, D, top, q, n, st, base, base);
      StepEnds(g, bodies, D, top, q, n, st, base, base');
      StepAllBack(m, c, st);
      BodyEnds(g, bodies, D, top, q, n, st1, k - 1, fin, base, base');
      if !ComesEnded(D, pos, e, CheckOf(st, at, base)) {
        if ComesEnded(D, pos, e, CheckOf(st1, at, base)) {
          EndedLater(D, pos, e, CheckOf(st, at, base), CheckOf(st1, at, base));
        } else {
          ComesOn(D, pos, e, CheckOf(st, at, base'), CheckOf(st1, at, base'), CheckOf(fin, at, base'));
        }
      }
    }
  }

  lemma StepEnds(g: seq<Expr>, bodies: seq<Code>, D: Code, top: nat, q: nat, n: nat, st: State,
                 base: seq<Slot>, base': seq<Slot>)
    requires Drafted(g, bodies, D) && top < |bodies| && q < |bodies| && Fewer(base', base)
    requires
      var m := Answers(bodies, D, EndOf(bodies, top), n);
      AllBack(st) && !Halted(bodies[q], st) && !Step(m, bodies[q], 0, st).Stuck?
    ensures
      var (pos, e, at) := (Positions(bodies), EndOf(bodies, top), PosOf(bodies, q));
      var m := Answers(bodies, D, e, n);
      || ComesEnded(D, pos, e, CheckOf(st, at, base))
      || Comes(D, pos, e, CheckOf(st, at, base'), CheckOf(Step(m, bodies[q], 0, st), at, base'))
    decreases Free(D, base), 1, 0
  {
    var (pos, e, at, c) := (Positions(bodies), EndOf(bodies, top), PosOf(bodies, q), bodies[q]);
    var (m, here) := (Answers(bodies, D, e, n), CheckOf(st, at, base'));
    DraftedBody(g, bodies, D, q);
    DraftedBody(g, bodies, D, top);
    if AtCall(c, st) {
      assert D[at..at + |c|][st.p] == D[at + st.p] == c[st.p];
      ChoicesFree(D, st.stk, at, base);
      ChoicesFree(D, st.stk, at, base');
      CallEnds(g, bodies, D, top, at + st.p, c[st.p].op.rule, SlotsAt(st.stk, at) + base, here.back);
    } else {
      StepChecks(D, pos, e, at, c, m, st, base');
      if st.Run? { ComesNext(D, pos, e, here); } else { ComesHere(D, pos, e, here); }
    }
  }

  /** If the check does not end in a rule that is entered with `base` pending, then with no more than that pending
      the rule returns or fails as it does on an empty stack. */
  lemma {:induction false} RuleEnds(g: seq<Expr>, bodies: seq<Code>, D: Code, top: nat, q: nat,
                                    base: seq<Slot>, base': seq<Slot>)
    requires Drafted(g, bodies, D) && top < |bodies| && q < |bodies| && Fewer(base', base)
    ensures
      var (pos, e, at) := (Positions(bodies), EndOf(bodies, top), PosOf(bodies, q));
      || ComesEnded(D, pos, e, Going(at, base))
      || Comes(D, pos, e, Going(at, base'), Done(bodies, q, Returns(bodies, D, e, q), base'))
    decreases Free(D, base), 2
  {
    var (pos, e, n) := (Positions(bodies), EndOf(bodies, top), RulesBelow(g[q]));
    var m := Answers(bodies, D, e, n);
    AnswersCover(bodies, D, e, n, g[q]);
    TableDefined(g[q], m, 0);
    var o := Eval(g[q], m, 0);
    var k := TableRun(g, bodies, q, m);
    var (st, fin) := (Run(0, 0, [], []), Final(|bodies[q]|, [], [], o));
    BodyEnds(g, bodies, D, top, q, n, st, k, fin, base, []);
    BodyEnds(g, bodies, D, top, q, n, st, k, fin, base, base');
    DoneIs(bodies, q, o, base);
    DoneIs(bodies, q, o, []);
    DoneIs(bodies, q, o, base');
    if !ComesEnded(D, pos, e, Going(PosOf(bodies, q), base)) && o.Failure? {
      FailsOrReturns(g, bodies, D, e, q);
    }
  }

  /** The check of every rule ends: it says that the rule fails, or may match the empty string, or is left
      recursive. */
  lemma CheckEnds(g: seq<Expr>, bodies: seq<Code>, start: nat, r: nat) returns (k: nat)
    requires start < |bodies| && Drafted(g, bodies, Draft(bodies, start)) && r < |bodies|
    ensures CheckAt(bodies, start, r, k).Ended? && CheckAt(bodies, start, r, k) != Ended(Unexpected)
  {
    var (D, pos, e) := (Draft(bodies, start), Positions(bodies), EndOf(bodies, r));
    var first := Going(PosOf(bodies, r), []);
    RuleEnds(g, bodies, D, r, r, [], []);
    if !ComesEnded(D, pos, e, first) {
      var last := Done(bodies, r, Returns(bodies, D, e, r), []);
      ComesNext(D, pos, e, last);
      EndedNow(D, pos, e, CheckStep(D, pos, e, last));
      EndedLater(D, pos, e, last, CheckStep(D, pos, e, last));
      EndedLater(D, pos, e, first, last);
    }
    var f: Finding :| f != Unexpected && Comes(D, pos, e, first, Ended(f));
    k :| CheckIter(D, pos, e, first, k) == Ended(f);
  }

  /** A rule on a circle of calls that consume nothing is reported as left recursive. */
  lemma CircleReported(g: seq<Expr>, bodies: seq<Code>, start: nat, d: nat, rs: seq<nat>) returns (k: nat)
    requires start < |bodies| && Drafted(g, bodies, Draft(bodies, start)) && LeftCircle(g, bodies, d, rs)
    ensures CheckAt(bodies, start, rs[0], k) == Ended(LeftRecursive)
  {
    k := CheckEnds(g, bodies, start, rs[0]);
    CircleRejected(g, bodies, start, d, rs, k);
    match CheckAt(bodies, start, rs[0], k).finding
    case Fails =>
    case MatchesEmpty =>
    case LeftRecursive =>
    case Unexpected =>
  }
}
