/** Stack discipline of grammars: calls and tail calls between rules with fixed heights. */
module LpegGrammarStack {
  import opened LpegCode
  import opened LpegSemantics
  import opened LpegCompile
  import opened LpegInvariant
  import opened LpegCompiler
  import opened LpegMatch
  import opened LpegHeights
  import opened LpegStack
  import opened LpegGrammar
  import opened LpegRules

  /** Heights of the bodies. */
  ghost predicate AllLeveled(bodies: seq<Code>, hs: seq<seq<nat>>) {
    |hs| == |bodies| && forall r {:trigger bodies[r]} {:trigger hs[r]} :: 0 <= r < |bodies| ==>
      Leveled(bodies[r], hs[r])
  }

  /** The heights of the first `n` bodies and their returns. */
  function RuleHeights(hs: seq<seq<nat>>, n: nat): seq<nat>
    requires n <= |hs|
  {
    if n == 0 then [] else RuleHeights(hs, n - 1) + hs[n - 1]
  }

  lemma {:induction false} RuleHeightsAt(bodies: seq<Code>, hs: seq<seq<nat>>, n: nat, r: nat, j: nat)
    requires AllLeveled(bodies, hs) && r < n <= |bodies| && j <= |bodies[r]|
    ensures |RuleHeights(hs, n)| == PosOf(bodies, n) - 2
    ensures PosOf(bodies, r) - 2 + j < |RuleHeights(hs, n)| && RuleHeights(hs, n)[PosOf(bodies, r) - 2 + j] == hs[r][j]
    decreases n
  {
    assert Leveled(bodies[n - 1], hs[n - 1]);
    RuleHeightsSize(bodies, hs, n - 1);
    if r < n - 1 { RuleHeightsAt(bodies, hs, n - 1, r, j); }
  }

  lemma {:induction false} RuleHeightsSize(bodies: seq<Code>, hs: seq<seq<nat>>, n: nat)
    requires AllLeveled(bodies, hs) && n <= |bodies|
    ensures |RuleHeights(hs, n)| == PosOf(bodies, n) - 2
    decreases n
  {
    if n > 0 {
      assert Leveled(bodies[n - 1], hs[n - 1]);
      RuleHeightsSize(bodies, hs, n - 1);
    }
  }

  function GrammarHeights(hs: seq<seq<nat>>): seq<nat> {
    [0, 0] + RuleHeights(hs, |hs|) + [0]
  }

  /** Only the initial call, the jump behind it and the end belong to no rule. */
  function GrammarMain(n: nat): (main: seq<bool>)
    ensures |main| == n + 1 && forall i {:trigger main[i]} :: 0 <= i <= n ==> main[i] == (i < 2 || i == n)
  {
    seq(n + 1, i requires 0 <= i <= n => i < 2 || i == n)
  }

  lemma HeightIn(bodies: seq<Code>, start: nat, hs: seq<seq<nat>>, r: nat, j: nat)
    requires AllLeveled(bodies, hs) && start < |bodies| && r < |bodies| && j <= |bodies[r]|
    ensures |GrammarHeights(hs)| == |Draft(bodies, start)| + 1
    ensures 2 <= PosOf(bodies, r) + j < |Draft(bodies, start)| && GrammarHeights(hs)[PosOf(bodies, r) + j] == hs[r][j]
  {
    RuleHeightsAt(bodies, hs, |bodies|, r, j);
    RuleHeightsSize(bodies, hs, |bodies|);
  }

  /** A body with its heights, and its return, stands at `at` in a rule. */
  ghost predicate Stands(D: Code, h: seq<nat>, main: seq<bool>, at: nat, c: Code, hc: seq<nat>) {
    && 2 <= at && at + |c| < |D| && |h| == |D| + 1 && main == GrammarMain(|D|) && Leveled(c, hc)
    && D[at + |c|].op.Ret? && D[at..at + |c|] == c && h[at..at + |c| + 1] == hc
  }

  lemma HeightsStand(bodies: seq<Code>, start: nat, hs: seq<seq<nat>>, r: nat, h: seq<nat>, at: nat, n: nat)
    requires AllLeveled(bodies, hs) && start < |bodies| && r < |bodies| && n == |bodies[r]|
    requires h == GrammarHeights(hs) && at == PosOf(bodies, r)
    ensures |h| == |Draft(bodies, start)| + 1 && |hs[r]| == n + 1 && at + n + 1 <= |h| && h[at..at + n + 1] == hs[r]
  {
    assert Leveled(bodies[r], hs[r]);
    HeightIn(bodies, start, hs, r, n);
    forall j | 0 <= j <= n
      ensures h[at..at + n + 1][j] == hs[r][j]
    {
      HeightIn(bodies, start, hs, r, j);
    }
  }

  lemma RuleStands(bodies: seq<Code>, start: nat, hs: seq<seq<nat>>, r: nat, D: Code, h: seq<nat>, at: nat, c: Code,
                   hc: seq<nat>)
    requires AllLeveled(bodies, hs) && start < |bodies| && r < |bodies| && c == bodies[r] && hc == hs[r]
    requires D == Draft(bodies, start) && h == GrammarHeights(hs) && at == PosOf(bodies, r)
    ensures Stands(D, h, GrammarMain(|D|), at, c, hc)
  {
    DraftAt(bodies, start, r);
    HeightsStand(bodies, start, hs, r, h, at, |c|);
    assert Leveled(bodies[r], hs[r]);
    StandsIf(D, h, at, c, hc);
  }

  lemma StandsIf(D: Code, h: seq<nat>, at: nat, c: Code, hc: seq<nat>)
    requires 2 <= at && at + |c| < |D| && |h| == |D| + 1 && Leveled(c, hc)
    requires D[at + |c|].op.Ret? && D[at..at + |c|] == c && h[at..at + |c| + 1] == hc
    ensures Stands(D, h, GrammarMain(|D|), at, c, hc)
  {
  }

  /** An instruction of a body keeps its heights inside a rule. */
  lemma BodyLaid(D: Code, h: seq<nat>, main: seq<bool>, at: nat, c: Code, hc: seq<nat>, j: nat)
    requires Stands(D, h, main, at, c, hc) && j <= |c|
    ensures PlacedAt(D, h, main, at + j)
  {
    var part := h[at..at + |c| + 1];
    assert part[j] == h[at + j] == hc[j];
    if j < |c| {
      assert HeightAt(c, hc, j) && D[at..at + |c|][j] == D[at + j] == c[j];
      assert part[j + 1] == h[at + j + 1];
      if IsJmp(c[j].op) { assert part[j + c[j].off] == h[at + (j + c[j].off)]; }
    }
  }

  lemma DraftProgram(bodies: seq<Code>, start: nat, hs: seq<seq<nat>>)
    requires AllLeveled(bodies, hs) && start < |bodies|
    ensures Program(Draft(bodies, start), GrammarHeights(hs), GrammarMain(|Draft(bodies, start)|))
  {
    var D := Draft(bodies, start);
    var (h, main) := (GrammarHeights(hs), GrammarMain(|D|));
    RuleHeightsSize(bodies, hs, |bodies|);
    assert Leveled(bodies[start], hs[start]);
    HeightIn(bodies, start, hs, start, 0);
    forall i | 0 <= i < |D|
      ensures PlacedAt(D, h, main, i)
    {
      if i >= 2 {
        var r, j := DraftInstr(bodies, start, i);
        RuleStands(bodies, start, hs, r, D, h, PosOf(bodies, r), bodies[r], hs[r]);
        BodyLaid(D, h, main, PosOf(bodies, r), bodies[r], hs[r], j);
      }
    }
  }

  // ----- fixing and collapsing -----

  lemma {:induction false} TargetSame(P: Code, h: seq<nat>, main: seq<bool>, f: seq<nat>, i: nat)
    requires Program(P, h, main) && Falls(P, f) && i <= |P|
    ensures Same(h, main, i, Target(P, f, i), 0)
    decreases f[i]
  {
    if i < |P| && P[i].op.Jmp? {
      assert FallsAt(P, f, i) && PlacedAt(P, h, main, i);
      TargetSame(P, h, main, f, i + P[i].off);
    }
  }

  /** The addresses `pos` belong to rules that have nothing of their own pending there. */
  predicate AtZero(h: seq<nat>, main: seq<bool>, pos: seq<nat>) {
    forall r {:trigger pos[r]} :: 0 <= r < |pos| ==> pos[r] < |h| == |main| && h[pos[r]] == 0 && !main[pos[r]]
  }

  lemma FixedProgram(D: Code, h: seq<nat>, main: seq<bool>, f: seq<nat>, pos: seq<nat>)
    requires Program(D, h, main) && Settles(D, f, pos) && AtZero(h, main, pos)
    requires forall i {:trigger D[i]} :: 0 <= i < |D| && D[i].op.OpenCall? ==> !main[i]
    ensures Program(Fixed(D, f, pos, |D|), h, main)
  {
    var P := Fixed(D, f, pos, |D|);
    forall i | 0 <= i < |P|
      ensures PlacedAt(P, h, main, i)
    {
      assert PlacedAt(D, h, main, i) && P[i] == FixedInstr(D, f, pos, i);
      if D[i].op.OpenCall? {
        TargetSame(D, h, main, f, i + 1);
        var t := Target(D, f, i + 1);
        if IsRet(D, t) { assert PlacedAt(D, h, main, t); }
      }
    }
  }

  lemma RetargetProgram(P: Code, h: seq<nat>, main: seq<bool>, f: seq<nat>, i: nat)
    requires Program(P, h, main) && Falls(P, f) && i < |P| && IsJmp(P[i].op)
    ensures Program(Retarget(P, f, i), h, main)
  {
    var r := Retarget(P, f, i);
    TargetSame(P, h, main, f, i + P[i].off);
    forall k | 0 <= k < |r|
      ensures PlacedAt(r, h, main, k)
    {
      assert PlacedAt(P, h, main, k);
    }
  }

  lemma {:induction false} OptJumpsProgram(P: Code, h: seq<nat>, main: seq<bool>, f: seq<nat>, i: nat)
    requires Program(P, h, main) && Falls(P, f)
    ensures Program(OptJumps(P, f, i), h, main)
    decreases |P| - i
  {
    if i < |P| {
      if IsJmp(P[i].op) {
        RetargetProgram(P, h, main, f, i);
        OptJumpsProgram(Retarget(P, f, i), h, main, f, i + 1);
      } else {
        OptJumpsProgram(P, h, main, f, i + 1);
      }
    }
  }

  /** Rules start with nothing of their own pending. */
  lemma RulesAtZero(bodies: seq<Code>, start: nat, hs: seq<seq<nat>>)
    requires AllLeveled(bodies, hs) && start < |bodies|
    ensures AtZero(GrammarHeights(hs), GrammarMain(|Draft(bodies, start)|), Positions(bodies))
  {
    var (h, main, pos) := (GrammarHeights(hs), GrammarMain(|Draft(bodies, start)|), Positions(bodies));
    forall r | 0 <= r < |pos|
      ensures pos[r] < |h| == |main| && h[pos[r]] == 0 && !main[pos[r]]
    {
      assert Leveled(bodies[r], hs[r]);
      HeightIn(bodies, start, hs, r, 0);
    }
  }

  /** The code of a grammar is a program with fixed heights. */
  lemma GrammarProgram(bodies: seq<Code>, start: nat, rank: seq<nat>, hs: seq<seq<nat>>)
    requires AllLeveled(bodies, hs) && start < |bodies| && Fixable(bodies, rank)
    ensures Program(GrammarCode(bodies, start, rank), GrammarHeights(hs), GrammarMain(|Draft(bodies, start)|))
  {
    var (D, f, pos) := (Draft(bodies, start), RanksOf(bodies, start, rank), Positions(bodies));
    var (h, main) := (GrammarHeights(hs), GrammarMain(|D|));
    DraftSettles(bodies, start, rank);
    DraftProgram(bodies, start, hs);
    RulesAtZero(bodies, start, hs);
    FixedProgram(D, h, main, f, pos);
    FixedFalls(D, f, pos, |D|);
    OptJumpsProgram(Fixed(D, f, pos, |D|), h, main, f, 0);
  }

  lemma {:induction false} BodyHeights(g: seq<Expr>, bodies: seq<Code>, n: nat) returns (hs: seq<seq<nat>>)
    requires Compiled(g, bodies) && n <= |bodies|
    ensures |hs| == n && forall r {:trigger hs[r]} :: 0 <= r < n ==> Leveled(bodies[r], hs[r])
    decreases n
  {
    if n == 0 {
      hs := [];
    } else {
      var (e, c) := (g[n - 1], bodies[n - 1]);
      assert Narrow(e) && Compile(e) == Built(c);
      CompileLevel(e);
      var h: seq<nat> :| Leveled(c, h);
      var before := BodyHeights(g, bodies, n - 1);
      hs := before + [h];
    }
  }

  /** On every subject, over all runs of a grammar, ending or not, no stack assertion of the machine fails. */
  lemma GrammarReady(g: seq<Expr>, bodies: seq<Code>, start: nat, rank: seq<nat>, subj: seq<Byte>, s: int, n: nat)
    requires GrammarOk(g, bodies, rank) && start < |bodies| && Fixable(bodies, rank)
    ensures
      var c := GrammarCode(bodies, start, rank);
      StackSafe(c, subj, StateAt(c, subj, s, n))
  {
    var hs := BodyHeights(g, bodies, |bodies|);
    GrammarProgram(bodies, start, rank, hs);
    var c := GrammarCode(bodies, start, rank);
    RunReady(c, GrammarHeights(hs), GrammarMain(|Draft(bodies, start)|), subj, s, n);
  }
}
