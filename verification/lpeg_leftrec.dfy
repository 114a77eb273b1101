/** Left recursion: what the check of a grammar's rules rejects.  A check that comes back to its own rule is never
    accepted, so that no accepted rule is on a circle of calls that consume nothing. */
module LpegLeftRec {
  import opened LpegCode
  import opened LpegSemantics
  import opened LpegMachine
  import opened LpegBehaviour
  import opened LpegCompile
  import opened LpegInvariant
  import opened LpegVerify
  import opened LpegCompiler
  import opened LpegGrammar
  import opened LpegFix
  import opened LpegRules
  import opened LpegTable
  import opened LpegCheckRule

  // ----- a check on a deeper stack -----

  /** The same check with `base` below its stack. */
  function Lift(c: Check, base: seq<Slot>): Check {
    match c
    case Going(p, back) => Going(p, back + base)
    case Ended(f) => if f == Fails then Backtracked(base) else c
  }

  lemma {:induction false} BacktrackLift(back: seq<Slot>, base: seq<Slot>)
    ensures Backtracked(back + base) == Lift(Backtracked(back), base)
    decreases |back|
  {
    if back == [] {
      assert back + base == base;
    } else {
      assert (back + base)[1..] == back[1..] + base;
      if !back[0].pending { BacktrackLift(back[1..], base); }
    }
  }

  /** One step does not look below its stack, but for pending calls. */
  lemma StepLift(D: Code, pos: seq<nat>, e: int, c: Check, base: seq<Slot>)
    requires c.Going? && CheckStep(D, pos, e, c) != Ended(Unexpected)
    ensures
      var c1 := CheckStep(D, pos, e, Lift(c, base));
      c1 == Ended(LeftRecursive) || c1 == Lift(CheckStep(D, pos, e, c), base)
  {
    var back := c.back;
    if c.p != e && 0 <= c.p < |D| {
      var ins := D[c.p];
      BacktrackLift(back, base);
      TailLift(back, base);
      PendingLift(back, base, c.p + 1);
      assert [Slot(c.p + ins.off, true)] + (back + base) == [Slot(c.p + ins.off, true)] + back + base;
      assert [Slot(c.p + 1, false)] + (back + base) == [Slot(c.p + 1, false)] + back + base;
    }
  }

  lemma TailLift(back: seq<Slot>, base: seq<Slot>)
    ensures back != [] ==> (back + base)[0] == back[0] && (back + base)[1..] == back[1..] + base
  {
    if back != [] { assert (back + base)[1..] == back[1..] + base; }
  }

  lemma PendingLift(back: seq<Slot>, base: seq<Slot>, ret: int)
    ensures Pending(back, ret) ==> Pending(back + base, ret)
  {
    if Pending(back, ret) {
      var i :| 0 <= i < |back| && back[i] == Slot(ret, false);
      assert (back + base)[i] == Slot(ret, false);
    }
  }

  lemma {:induction false} IterLift(D: Code, pos: seq<nat>, e: int, c: Check, base: seq<Slot>, k: nat)
    requires CheckIter(D, pos, e, c, k).Going?
    ensures
      var c1 := CheckIter(D, pos, e, Lift(c, base), k);
      c1 == Ended(LeftRecursive) || c1 == Lift(CheckIter(D, pos, e, c, k), base)
    decreases k
  {
    if k > 0 {
      var c1 := CheckStep(D, pos, e, c);
      if c1.Ended? { CheckEnded(D, pos, e, c1, k - 1); }
      if c.Ended? { CheckEnded(D, pos, e, c, k); }
      StepLift(D, pos, e, c, base);
      if CheckStep(D, pos, e, Lift(c, base)) == Ended(LeftRecursive) {
        CheckEnded(D, pos, e, Ended(LeftRecursive), k - 1);
      } else {
        IterLift(D, pos, e, c1, base, k - 1);
      }
    }
  }

  // ----- a check that comes back to where it began -----

  predicate IsAnswer(c: Check) {
    c == Ended(Fails) || c == Ended(MatchesEmpty)
  }

  /** A check that begins again is never answered. */
  lemma {:induction false} ReenteredRejected(D: Code, pos: seq<nat>, e: int, p: int, base: seq<Slot>, j: nat, k: nat)
    requires j > 0 && CheckIter(D, pos, e, Going(p, []), j) == Going(p, base)
    ensures !IsAnswer(CheckIter(D, pos, e, Going(p, []), k))
    decreases k
  {
    var c := Going(p, []);
    if k > 0 {
      var before := CheckIter(D, pos, e, c, k - 1);
      CheckAdd(D, pos, e, c, k - 1, 1);
      if before.Ended? {
        CheckEnded(D, pos, e, before, 1);
        ReenteredRejected(D, pos, e, p, base, j, k - 1);
      } else if j < k {
        CheckAdd(D, pos, e, c, j, k - j);
        StillGoing(D, pos, e, c, k - j, k - 1);
        IterLift(D, pos, e, c, base, k - j);
        assert [] + base == base;
      } else {
        StillGoing(D, pos, e, c, k, j);
      }
    }
  }

  lemma StillGoing(D: Code, pos: seq<nat>, e: int, c: Check, j: nat, k: nat)
    requires CheckIter(D, pos, e, c, k).Going? && j <= k
    ensures CheckIter(D, pos, e, c, j).Going?
  {
    CheckAdd(D, pos, e, c, j, k - j);
    if CheckIter(D, pos, e, c, j).Ended? { CheckEnded(D, pos, e, CheckIter(D, pos, e, c, j), k - j); }
  }

  // ----- calls that are reached before anything is consumed -----

  ghost function BodyAt(g: seq<Expr>, bodies: seq<Code>, d: nat, r: nat, n: nat): State
    requires r < |bodies|
  {
    Iter(Table(Empties(g, d)), bodies[r], 0, Run(0, 0, [], []), n)
  }

  /** With every check failing, and with the rules that are known at depth `d`, the body of `r` comes to a call of
      `q`. */
  ghost predicate LeftCalls(g: seq<Expr>, bodies: seq<Code>, d: nat, r: nat, q: nat) {
    r < |bodies| && q < |bodies| && exists n: nat :: LeftCallAt(g, bodies, d, r, q, n)
  }

  ghost predicate LeftCallAt(g: seq<Expr>, bodies: seq<Code>, d: nat, r: nat, q: nat, n: nat)
    requires r < |bodies|
  {
    var st := BodyAt(g, bodies, d, r, n);
    AtCall(bodies[r], st) && bodies[r][st.p].op.rule == q
  }

  ghost predicate LeftPath(g: seq<Expr>, bodies: seq<Code>, d: nat, rs: seq<nat>) {
    |rs| > 0 && rs[0] < |bodies| &&
    forall i {:trigger LeftAt(g, bodies, d, rs, i)} :: 0 <= i < |rs| - 1 ==> LeftAt(g, bodies, d, rs, i)
  }

  ghost predicate LeftAt(g: seq<Expr>, bodies: seq<Code>, d: nat, rs: seq<nat>, i: nat)
    requires i < |rs| - 1
  {
    LeftCalls(g, bodies, d, rs[i], rs[i + 1])
  }

  /** A circle of calls that are reached before anything is consumed. */
  ghost predicate LeftCircle(g: seq<Expr>, bodies: seq<Code>, d: nat, rs: seq<nat>) {
    LeftPath(g, bodies, d, rs) && |rs| > 1 && rs[0] == rs[|rs| - 1]
  }

  // ----- rules on a circle have no meaning -----

  /** What runs with less knowledge runs in the same way with more. */
  lemma {:induction false} IterWider(m: Mode, m': Mode, c: Code, st: State, n: nat)
    requires Wider(m, m') && !Iter(m, c, 0, st, n).Stuck?
    ensures Iter(m', c, 0, st, n) == Iter(m, c, 0, st, n)
    decreases n
  {
    if n > 0 {
      var st1 := Step(m, c, 0, st);
      if st1.Stuck? { IterHalted(m, c, 0, st1, n - 1); }
      StepWider(m, m', c, st);
      IterWider(m, m', c, st1, n - 1);
    }
  }

  lemma StepWider(m: Mode, m': Mode, c: Code, st: State)
    requires Wider(m, m') && !Step(m, c, 0, st).Stuck?
    ensures Step(m', c, 0, st) == Step(m, c, 0, st)
  {
    if AtCall(c, st) { assert c[st.p].op.rule in m.empties; }
  }

  /** A body that has a result under `m'` makes only calls that `m'` knows. */
  lemma CallsKnown(m: Mode, m': Mode, all: Mode, c: Code, st: State, k: nat, n: nat)
    requires Wider(m, all) && Wider(m', all)
    requires var fin := Iter(m', c, 0, st, k); Halted(c, fin) && !fin.Stuck?
    requires AtCall(c, Iter(m, c, 0, st, n))
    ensures c[Iter(m, c, 0, st, n).p].op.rule in m'.empties
  {
    var fin := Iter(m', c, 0, st, k);
    IterWider(m, all, c, st, n);
    IterWider(m', all, c, st, k);
    if n < k {
      IterAdd(m', c, 0, st, n, k - n);
      var st1 := Iter(m', c, 0, st, n);
      if st1.Stuck? { IterHalted(m', c, 0, st1, k - n); }
      IterWider(m', all, c, st, n);
      if Step(m', c, 0, st1).Stuck? { IterHalted(m', c, 0, Stuck, k - n - 1); }
    } else {
      IterAdd(all, c, 0, st, k, n - k);
      IterHalted(all, c, 0, fin, n - k);
    }
  }

  /** A rule that is known has all its left calls known at a lesser depth. */
  lemma LeftCallKnown(g: seq<Expr>, bodies: seq<Code>, d: nat, r: nat, q: nat, d': nat)
    requires Bodies(g, bodies) && LeftCalls(g, bodies, d, r, q) && r in Empties(g, d')
    ensures d' > 0 && q in Empties(g, d' - 1)
  {
    var (m', c) := (Table(Empties(g, d' - 1)), bodies[r]);
    var o := Eval(g[r], m', 0);
    var k := TableRun(g, bodies, r, m');
    var n: nat :| LeftCallAt(g, bodies, d, r, q, n);
    var top := if d <= d' then d' else d;
    EmptiesWider(g, d, top);
    EmptiesWider(g, d' - 1, top);
    CallsKnown(Table(Empties(g, d)), m', Table(Empties(g, top)), c, Run(0, 0, [], []), k, n);
  }

  lemma {:induction false} PathKnown(g: seq<Expr>, bodies: seq<Code>, d: nat, rs: seq<nat>, i: nat, j: nat, d': nat)
    returns (d0: nat)
    requires Bodies(g, bodies) && LeftPath(g, bodies, d, rs) && i <= j < |rs| && rs[i] in Empties(g, d')
    ensures d0 + (j - i) == d' && rs[j] in Empties(g, d0)
    decreases j - i
  {
    if i < j {
      assert LeftAt(g, bodies, d, rs, i);
      LeftCallKnown(g, bodies, d, rs[i], rs[i + 1], d');
      d0 := PathKnown(g, bodies, d, rs, i + 1, j, d' - 1);
    } else {
      d0 := d';
    }
  }

  /** No rule on a circle has a meaning to the verifier, at any depth. */
  lemma {:induction false} CircleUnknown(g: seq<Expr>, bodies: seq<Code>, d: nat, rs: seq<nat>, i: nat, d': nat)
    requires Bodies(g, bodies) && LeftCircle(g, bodies, d, rs) && i < |rs|
    ensures rs[i] !in Empties(g, d')
    decreases d', i > 0
  {
    if rs[i] in Empties(g, d') {
      var last := |rs| - 1;
      var d0 := PathKnown(g, bodies, d, rs, i, last, d');
      if i > 0 {
        EmptiesWider(g, d0, d');
        CircleUnknown(g, bodies, d, rs, 0, d');
      } else {
        CircleUnknown(g, bodies, d, rs, 0, d0);
      }
    }
  }

  // ----- and none is accepted -----

  /** From rule `i` of a circle the check comes to the next one, on a higher stack, or reports left recursion. */
  lemma CircleStep(g: seq<Expr>, bodies: seq<Code>, D: Code, d: nat, rs: seq<nat>, i: nat, base: seq<Slot>)
    returns (base': seq<Slot>, found: bool)
    requires Drafted(g, bodies, D) && LeftCircle(g, bodies, d, rs) && i < |rs| - 1
    requires UnknownCalls(D, base, Table(Empties(g, d)))
    ensures rs[i] < |bodies| && rs[i + 1] < |bodies|
    ensures found ==>
      Comes(D, Positions(bodies), EndOf(bodies, rs[0]), Going(PosOf(bodies, rs[i]), base), Ended(LeftRecursive))
    ensures !found ==>
      && base' != [] && UnknownCalls(D, base', Table(Empties(g, d)))
      && Comes(D, Positions(bodies), EndOf(bodies, rs[0]), Going(PosOf(bodies, rs[i]), base),
               Going(PosOf(bodies, rs[i + 1]), base'))
  {
    assert LeftAt(g, bodies, d, rs, i);
    var (r, q, pos, e) := (rs[i], rs[i + 1], Positions(bodies), EndOf(bodies, rs[0]));
    CircleUnknown(g, bodies, d, rs, 0, d);
    CircleUnknown(g, bodies, d, rs, i + 1, d);
    var p, back := ToLeftCall(g, bodies, D, rs[0], r, q, d, base);
    DraftedBody(g, bodies, D, rs[0]);
    var (first, here) := (Going(PosOf(bodies, r), base), Going(p, back));
    ComesNext(D, pos, e, here);
    ComesOn(D, pos, e, first, here, CheckStep(D, pos, e, here));
    found, base' := Pending(back, p + 1), [Slot(p + 1, false)] + back;
  }

  /** The check comes to the call as the body does. */
  lemma ToLeftCall(g: seq<Expr>, bodies: seq<Code>, D: Code, top: nat, r: nat, q: nat, d: nat, base: seq<Slot>)
    returns (p: nat, back: seq<Slot>)
    requires Drafted(g, bodies, D) && top < |bodies| && LeftCalls(g, bodies, d, r, q)
    requires top !in Empties(g, d) && UnknownCalls(D, base, Table(Empties(g, d)))
    ensures p < |D| && D[p].op == OpenCall(q) && UnknownCalls(D, back, Table(Empties(g, d)))
    ensures Comes(D, Positions(bodies), EndOf(bodies, top), Going(PosOf(bodies, r), base), Going(p, back))
  {
    var (at, c, st0) := (PosOf(bodies, r), bodies[r], Run(0, 0, [], []));
    var n: nat :| LeftCallAt(g, bodies, d, r, q, n);
    var st := BodyAt(g, bodies, d, r, n);
    BodyChecks(g, bodies, D, top, r, d, st0, n, st, base);
    assert SlotsAt([], at) + base == base;
    DraftedBody(g, bodies, D, r);
    RunAllBack(Table(Empties(g, d)), c, st0, n);
    assert InstrOk(c, st.p) && D[at..at + |c|][st.p] == D[at + st.p] == c[st.p];
    p, back := st.p + at, SlotsAt(st.stk, at) + base;
  }

  lemma {:induction false} RunAllBack(m: Mode, c: Code, st: State, n: nat)
    requires AllOk(c) && AllBack(st) && !Iter(m, c, 0, st, n).Stuck?
    ensures AllBack(Iter(m, c, 0, st, n))
    decreases n
  {
    if n > 0 {
      var st1 := Step(m, c, 0, st);
      if st1.Stuck? { IterHalted(m, c, 0, st1, n - 1); }
      StepAllBack(m, c, st);
      RunAllBack(m, c, st1, n - 1);
    }
  }

  lemma {:induction false} RoundTheCircle(g: seq<Expr>, bodies: seq<Code>, D: Code, d: nat, rs: seq<nat>, i: nat,
                                          base: seq<Slot>)
    returns (base': seq<Slot>, found: bool)
    requires Drafted(g, bodies, D) && LeftCircle(g, bodies, d, rs) && i < |rs| - 1
    requires UnknownCalls(D, base, Table(Empties(g, d)))
    ensures rs[i] < |bodies|
    ensures found ==>
      Comes(D, Positions(bodies), EndOf(bodies, rs[0]), Going(PosOf(bodies, rs[i]), base), Ended(LeftRecursive))
    ensures !found ==>
      && base' != []
      && Comes(D, Positions(bodies), EndOf(bodies, rs[0]), Going(PosOf(bodies, rs[i]), base),
               Going(PosOf(bodies, rs[0]), base'))
    decreases |rs| - i
  {
    var (pos, e) := (Positions(bodies), EndOf(bodies, rs[0]));
    base', found := CircleStep(g, bodies, D, d, rs, i, base);
    if !found && i + 1 < |rs| - 1 {
      var (here, next) := (Going(PosOf(bodies, rs[i]), base), Going(PosOf(bodies, rs[i + 1]), base'));
      base', found := RoundTheCircle(g, bodies, D, d, rs, i + 1, base');
      ComesOn(D, pos, e, here, next, if found then Ended(LeftRecursive) else Going(PosOf(bodies, rs[0]), base'));
    }
  }

  /** A rule on a circle of calls that consume nothing is never accepted. */
  lemma CircleRejected(g: seq<Expr>, bodies: seq<Code>, start: nat, d: nat, rs: seq<nat>, k: nat)
    requires start < |bodies| && Drafted(g, bodies, Draft(bodies, start)) && LeftCircle(g, bodies, d, rs)
    ensures !IsAnswer(CheckAt(bodies, start, rs[0], k))
  {
    var (D, pos, r) := (Draft(bodies, start), Positions(bodies), rs[0]);
    var (e, first) := (EndOf(bodies, r), Going(PosOf(bodies, r), []));
    var base, found := RoundTheCircle(g, bodies, D, d, rs, 0, []);
    if found {
      var j: nat :| CheckIter(D, pos, e, first, j) == Ended(LeftRecursive);
      if CheckIter(D, pos, e, first, k).Ended? { AnswersOnce(D, pos, e, first, j, k); }
    } else {
      var j: nat :| CheckIter(D, pos, e, first, j) == Going(PosOf(bodies, r), base);
      ReenteredRejected(D, pos, e, PosOf(bodies, r), base, j, k);
    }
  }
}
