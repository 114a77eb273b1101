/** Runs of a fresh proxy that upset a count. */
module BackendExamples {
  import opened Common
  import opened ConnPool
  import opened BackendSteps
  import opened BackendSwap

  function Bk(users: Users, clients: nat, down: bool): Backend {
    Backend(users, 0, clients, down, true)
  }

  function W(cons: seq<Con>, bk0: Backend, bk1: Backend, live: set<nat>): World {
    World(cons, [bk0, bk1], None, live)
  }

  /** One step of a run. */
  predicate Goes(w: World, a: Action, w': World) {
    Enabled(w, a) && Paired(w) && Next(w, a) == w'
  }

  const NEW: Con := Con(None, None, -1, None, Connecting)
  const ASKED: Con := Con(None, None, -1, None, Hooked)
  const IDLE: Con := Con(None, None, -1, Some("bob"), Served)
  const TRIED: Con := Con(None, Some(0), 0, None, Connecting)

  function At(user: string, b: nat, login: Option<string>, phase: Phase): Con {
    Con(Some(Sock(1, user, 0)), Some(b), b, login, phase)
  }

  const NONE: Users := map[]
  const BOBS: Users := map["bob" := [Sock(1, "bob", 0)]]

  // ----- a client keeps a pooled connection of a backend that is down -----

  function States(): seq<World> {
    var (up, used, down) := (Bk(NONE, 0, false), Bk(NONE, 1, false), Bk(BOBS, 0, true));
    var gone := Bk(map["bob" := []], 1, true);
    [W([], up, up, {}),
     W([NEW], up, up, {}),
     W([ASKED], up, up, {}),
     W([At("", 0, None, Served)], used, up, {1}),
     W([At("", 0, Some("bob"), Served)], used, up, {1}),
     W([At("bob", 0, Some("bob"), Served)], used, up, {1}),
     W([IDLE], Bk(BOBS, 0, false), up, {1}),
     W([IDLE, NEW], Bk(BOBS, 0, false), up, {1}),
     W([IDLE, ASKED], Bk(BOBS, 0, false), up, {1}),
     W([IDLE, TRIED], down, up, {1}),
     W([IDLE, TRIED, NEW], down, up, {1}),
     W([IDLE, TRIED, ASKED], down, up, {1}),
     W([IDLE, TRIED, At("bob", 0, None, Hooked)], gone, up, {1}),
     W([IDLE, TRIED, At("bob", 1, None, Served)], gone, up, {1})]
  }

  /** The first client's connection ends in the pool of the first backend, the second client finds that backend down,
      and the script of the third one takes the pooled connection and wants to keep it. */
  function Actions(): seq<Action> {
    [Arrived, Begun(0), Chosen(0, false, Now(1)), LoggedIn(0, "bob"), Reauthed(0, "bob"), Assigned(0, -1, None),
     Arrived, Begun(1), Chosen(1, false, Refused),
     Arrived, Begun(2), Assigned(2, 0, Some("bob")), Chosen(2, true, Refused)]
  }

  lemma ShortestOfTwo(x: Backend, y: Backend)
    ensures
      Shortest([x, y], 2) ==
      if Eligible(y) && y.clients < (if Eligible(x) && x.clients < GUINT - 1 then x.clients else GUINT - 1) then Some(1)
      else if Eligible(x) && x.clients < GUINT - 1 then Some(0) else None
  {
    assert Shortest([x, y], 0) == None;
    assert Shortest([x, y], 1) == if Eligible(x) && x.clients < GUINT - 1 then Some(0) else None;
  }

  /** Arriving, and being asked. */
  lemma Comes(cons: seq<Con>, bk0: Backend, bk1: Backend, live: set<nat>)
    requires Paired(W(cons, bk0, bk1, live))
    ensures Goes(W(cons, bk0, bk1, live), Arrived, W(cons + [NEW], bk0, bk1, live))
    ensures Goes(W(cons + [NEW], bk0, bk1, live), Begun(|cons|), W(cons + [ASKED], bk0, bk1, live))
  {
    var (w, w1) := (W(cons, bk0, bk1, live), W(cons + [NEW], bk0, bk1, live));
    assert forall k {:trigger w1.cons[k]} :: 0 <= k < |cons| ==> w1.cons[k] == w.cons[k];
    assert (cons + [NEW])[|cons| := ASKED] == cons + [ASKED];
  }

  lemma FirstConnects()
    ensures Goes(States()[2], Actions()[2], States()[3])
  {
    var bk := Bk(NONE, 0, false);
    ShortestOfTwo(bk, bk);
    assert {1} == {} + {1};
  }

  lemma FirstLogsIn()
    ensures Goes(States()[3], Actions()[3], States()[4]) && Goes(States()[4], Actions()[4], States()[5])
  {
  }

  lemma FirstDrops()
    ensures Goes(States()[5], Actions()[5], States()[6])
  {
    var none: seq<Sock> := [];
    assert none + [Sock(1, "bob", 0)] == [Sock(1, "bob", 0)];
    assert Pushed(NONE, Sock(1, "bob", 0)) == BOBS;
    assert Fewer(1) == 0;
  }

  lemma SecondRefused()
    ensures Goes(States()[8], Actions()[8], States()[9])
  {
    ShortestOfTwo(Bk(BOBS, 0, false), Bk(NONE, 0, false));
  }

  lemma ThirdTakes()
    ensures Goes(States()[11], Actions()[11], States()[12])
  {
    var q := [Sock(1, "bob", 0)];
    assert BOBS["bob"] == q && q[1..] == [];
    assert Selects(BOBS, 0, "", Some("bob"));
    assert BOBS["bob" := []] - {""} == map["bob" := []];
  }

  lemma ThirdKeeps()
    ensures Goes(States()[12], Actions()[12], States()[13])
  {
    ShortestOfTwo(States()[12].backends[0], States()[12].backends[1]);
  }

  lemma AllGo(k: nat)
    requires k < |Actions()|
    ensures Goes(States()[k], Actions()[k], States()[k + 1])
  {
    if k == 2 {
      FirstConnects();
    } else if k == 3 || k == 4 {
      FirstLogsIn();
    } else if k == 5 {
      FirstDrops();
    } else if k == 8 {
      SecondRefused();
    } else if k == 11 {
      ThirdTakes();
    } else if k == 12 {
      ThirdKeeps();
    } else if k <= 1 {
      FirstComes();
    } else if k <= 7 {
      SecondComes();
    } else {
      ThirdComes();
    }
  }

  lemma FirstComes()
    ensures Goes(States()[0], Actions()[0], States()[1]) && Goes(States()[1], Actions()[1], States()[2])
  {
    var none: seq<Con> := [];
    assert none + [NEW] == [NEW] && none + [ASKED] == [ASKED];
    Comes([], Bk(NONE, 0, false), Bk(NONE, 0, false), {});
  }

  lemma SecondComes()
    ensures Goes(States()[6], Actions()[6], States()[7]) && Goes(States()[7], Actions()[7], States()[8])
  {
    assert [IDLE] + [NEW] == [IDLE, NEW] && [IDLE] + [ASKED] == [IDLE, ASKED];
    Comes([IDLE], Bk(BOBS, 0, false), Bk(NONE, 0, false), {1});
  }

  lemma ThirdComes()
    ensures Goes(States()[9], Actions()[9], States()[10]) && Goes(States()[10], Actions()[10], States()[11])
  {
    assert [IDLE, TRIED] + [NEW] == [IDLE, TRIED, NEW] && [IDLE, TRIED] + [ASKED] == [IDLE, TRIED, ASKED];
    Comes([IDLE, TRIED], Bk(BOBS, 0, true), Bk(NONE, 0, false), {1});
  }

  lemma LastState()
    ensures var w := States()[13]; !Counted(w) && !AtHome(w)
  {
    var w := States()[13];
    var c := w.cons;
    assert c[..2] == [c[0], c[1]] && c[..2][..1] == [c[0]] && c[..2][..1][..0] == [];
    assert Count(c[..2][..1], 0) == 0 && Count(c[..2], 0) == 0 && Count(c, 0) == 0;
    assert w.backends[0].clients != Count(c, 0) % GUINT;
    assert !HomeCon(c[2]);
  }

  /** From a fresh proxy: in the end the first backend counts a client it does not have, the second one does not
      count the client it has, and that client's connection leads to the first. */
  lemma KeptRun()
    ensures IsRun(States(), Actions()) && !Counted(States()[|Actions()|]) && !AtHome(States()[|Actions()|])
  {
    forall k | 0 <= k < |Actions()|
      ensures RunStep(States(), Actions(), k)
    {
      AllGo(k);
    }
    LastState();
  }

  // ----- a client leaves while its connect is pending -----

  const WAITING: Con := Con(Some(Sock(1, "", 0)), Some(0), 0, None, Connecting)
  const LEFT: Con := Con(None, None, -1, None, Gone)

  function LeftStates(): seq<World> {
    var (up, off) := (Bk(NONE, 0, false), Bk(NONE, GUINT - 1, false));
    [W([], up, up, {}), W([NEW], up, up, {}), W([ASKED], up, up, {}), W([WAITING], up, up, {1}), W([LEFT], off, up, {})]
  }

  function LeftActions(): seq<Action> {
    [Arrived, Begun(0), Chosen(0, false, Later(1)), Left(0)]
  }

  lemma LeftGoes(k: nat)
    requires k < |LeftActions()|
    ensures Goes(LeftStates()[k], LeftActions()[k], LeftStates()[k + 1])
  {
    var (up, none) := (Bk(NONE, 0, false), []);
    if k <= 1 {
      assert none + [NEW] == [NEW] && none + [ASKED] == [ASKED];
      Comes([], up, up, {});
    } else if k == 2 {
      ShortestOfTwo(up, up);
      assert {1} == {} + {1};
    } else {
      assert Fewer(0) == GUINT - 1;
    }
  }

  /** From a fresh proxy that shuts down a client while its connect is pending: the count falls below zero, to the
      largest number there is, which no shortest queue has. */
  lemma LeftRun()
    ensures IsRun(LeftStates(), LeftActions()) && !Counted(LeftStates()[4])
    ensures LeftStates()[4].backends[0].clients == GUINT - 1
  {
    forall k | 0 <= k < |LeftActions()|
      ensures RunStep(LeftStates(), LeftActions(), k)
    {
      LeftGoes(k);
    }
    var c := LeftStates()[4].cons;
    assert c[..0] == [];
    assert Count(c, 0) == 0;
    assert LeftStates()[4].backends[0].clients != Count(c, 0) % GUINT;
  }
}
