/** Where a client is connected: to the backend its script asked for, or else to one with the fewest clients.  A wish
    that no pooled connection answers is remembered until the client connects. */
module BackendChoice {
  import opened Common
  import opened ConnPool
  import opened BackendSteps
  import opened BackendSwap

  // ----- one connect -----

  /** The script took no connection from a pool, or does not keep the one it took. */
  predicate NeedsServer(w: World, i: nat, keep: bool)
    requires i < |w.cons|
  {
    w.cons[i].server.None? || !keep
  }

  /** The step has tried to connect client `i` to backend `b`, and to no other, with the outcome `d`. */
  predicate Tried(w: World, w': World, i: nat, b: nat, d: Dial) {
    && |w'.backends| == |w.backends| && |w'.cons| == |w.cons| && i < |w.cons| && b < |w.backends|
    && w'.cons[i].backend == Some(b) && w'.cons[i].ndx == b && w'.cons[i].user == w.cons[i].user
    && (forall c {:trigger w'.backends[c]} :: 0 <= c < |w.backends| && c != b ==>
          w'.backends[c].down == w.backends[c].down)
    && (forall j {:trigger w'.cons[j]} :: 0 <= j < |w.cons| && j != i ==> w'.cons[j] == w.cons[j])
    && match d
       case Now(id) => w'.cons[i].server == Some(Sock(id, "", b)) && w'.cons[i].phase == Served && !w'.backends[b].down
       case Later(id) =>
         w'.cons[i].server == Some(Sock(id, "", b)) && w'.cons[i].phase == Connecting &&
         w'.backends[b].down == w.backends[b].down
       case Refused => w'.cons[i].server.None? && w'.cons[i].phase == Connecting && w'.backends[b].down
  }

  /** Without a backend the client is answered that all backends are down: nothing is dialed. */
  predicate Refuses(w: World, w': World, i: nat) {
    && |w'.backends| == |w.backends| && |w'.cons| == |w.cons| && i < |w.cons|
    && w'.cons[i].backend.None? && w'.cons[i].server.None? && w'.cons[i].phase == Served && w'.live == w.live
    && (forall c {:trigger w'.backends[c]} :: 0 <= c < |w.backends| ==> w'.backends[c].down == w.backends[c].down)
    && (forall j {:trigger w'.cons[j]} :: 0 <= j < |w.cons| && j != i ==> w'.cons[j] == w.cons[j])
  }

  /** The backend a script asks for is the one that is dialed, as long as it is not down. */
  lemma DialsWished(w: World, i: nat, keep: bool, d: Dial)
    requires Enabled(w, Chosen(i, keep, d)) && Paired(w) && NeedsServer(w, i, keep)
    requires 0 <= w.cons[i].ndx < |w.backends| && !w.backends[w.cons[i].ndx].down
    ensures Tried(w, Next(w, Chosen(i, keep, d)), i, w.cons[i].ndx, d)
  {
    assert PairedCon(w.cons[i], |w.backends|);
  }

  /** The clients of backend `b` when the choice is made: client `i` no longer counts if it gave its connection
      back. */
  function ClientsThen(w: World, i: nat, keep: bool, b: nat): nat
    requires i < |w.cons| && b < |w.backends|
  {
    if !keep && w.cons[i].server.Some? && w.cons[i].backend == Some(b) then Fewer(w.backends[b].clients)
    else w.backends[b].clients
  }

  /** A backend the choice may fall on. */
  predicate Open(w: World, i: nat, keep: bool, b: nat)
    requires i < |w.cons|
  {
    b < |w.backends| && !w.backends[b].down && w.backends[b].writable && ClientsThen(w, i, keep, b) < GUINT - 1
  }

  /** Of the open backends, `b` is the first with the fewest clients. */
  ghost predicate FewestClients(w: World, i: nat, keep: bool, b: nat)
    requires i < |w.cons|
  {
    Open(w, i, keep, b) && forall c: nat {:trigger Open(w, i, keep, c)} :: Open(w, i, keep, c) ==>
      && ClientsThen(w, i, keep, b) <= ClientsThen(w, i, keep, c)
      && (c < b ==> ClientsThen(w, i, keep, b) < ClientsThen(w, i, keep, c))
  }

  /** The script named no backend, or one that is down. */
  predicate NoWish(w: World, i: nat)
    requires i < |w.cons|
  {
    w.cons[i].ndx < 0 || (w.cons[i].ndx < |w.backends| && w.backends[w.cons[i].ndx].down)
  }

  /** Without a wish the client is sent to the first of the open backends with the fewest clients; it is refused
      exactly when none is open. */
  lemma DialsShortest(w: World, i: nat, keep: bool, d: Dial)
    requires Enabled(w, Chosen(i, keep, d)) && Paired(w) && NeedsServer(w, i, keep) && NoWish(w, i)
    ensures (exists b: nat :: Open(w, i, keep, b)) ==>
      exists b: nat :: FewestClients(w, i, keep, b) && Tried(w, Next(w, Chosen(i, keep, d)), i, b, d)
    ensures !(exists b: nat :: Open(w, i, keep, b)) ==> Refuses(w, Next(w, Chosen(i, keep, d)), i)
  {
    assert PairedCon(w.cons[i], |w.backends|);
    var w1 := if keep then w else Drop(w, i);
    ShortestLeast(w1.backends, |w1.backends|);
    var best := Shortest(w1.backends, |w1.backends|);
    forall b: nat
      ensures Open(w, i, keep, b) <==>
        b < |w.backends| && Eligible(w1.backends[b]) && w1.backends[b].clients < GUINT - 1
      ensures b < |w.backends| ==> ClientsThen(w, i, keep, b) == w1.backends[b].clients
    {
    }
    if best.Some? {
      assert FewestClients(w, i, keep, best.value);
      SettledTried(w, i, keep, d, best.value);
    } else {
      assert forall b: nat :: !Open(w, i, keep, b);
    }
  }

  lemma SettledTried(w: World, i: nat, keep: bool, d: Dial, b: nat)
    requires Enabled(w, Chosen(i, keep, d)) && Paired(w) && NeedsServer(w, i, keep) && NoWish(w, i)
    requires
      assert PairedCon(w.cons[i], |w.backends|);
      var w1 := if keep then w else Drop(w, i);
      Shortest(w1.backends, |w1.backends|) == Some(b)
    ensures Tried(w, Next(w, Chosen(i, keep, d)), i, b, d)
  {
    assert PairedCon(w.cons[i], |w.backends|);
  }

  /** An index behind the last backend leaves the client without one. */
  lemma NoSuchBackend(w: World, i: nat, keep: bool, d: Dial)
    requires Enabled(w, Chosen(i, keep, d)) && Paired(w) && NeedsServer(w, i, keep) && w.cons[i].ndx >= |w.backends|
    ensures Refuses(w, Next(w, Chosen(i, keep, d)), i)
  {
    assert PairedCon(w.cons[i], |w.backends|);
  }

  /** A backend that is down is never dialed, whatever the script wished. */
  lemma NeverDialsDown(w: World, i: nat, keep: bool, d: Dial, b: nat)
    requires Enabled(w, Chosen(i, keep, d)) && Paired(w) && NeedsServer(w, i, keep)
    requires Tried(w, Next(w, Chosen(i, keep, d)), i, b, d)
    ensures !w.backends[b].down
  {
    if NoWish(w, i) {
      DialsShortest(w, i, keep, d);
    } else if w.cons[i].ndx < |w.backends| {
      DialsWished(w, i, keep, d);
    } else {
      NoSuchBackend(w, i, keep, d);
    }
  }

  /** Whenever connecting starts over, what was wished or tried before is forgotten. */
  lemma RetryForgets(w: World, i: nat)
    requires Enabled(w, Begun(i)) && Paired(w)
    ensures
      var w' := Next(w, Begun(i));
      && |w'.cons| == |w.cons| && w'.backends == w.backends && NoWish(w', i) && w'.cons[i].backend.None?
      && Enabled(w', Chosen(i, false, Refused))
  {
  }

  /** A connection that is kept is used as it is: nothing is dialed and no backend changes. */
  lemma KeptIsUsed(w: World, i: nat, d: Dial)
    requires Enabled(w, Chosen(i, true, d)) && Paired(w) && w.cons[i].server.Some?
    ensures
      var w' := Next(w, Chosen(i, true, d));
      && w'.backends == w.backends && w'.live == w.live && |w'.cons| == |w.cons|
      && w'.cons[i].server == w.cons[i].server && w'.cons[i].phase == Served
      && (!NoWish(w, i) ==> w'.cons[i].backend == w.cons[i].backend && w'.cons[i].ndx == w.cons[i].ndx)
  {
    assert PairedCon(w.cons[i], |w.backends|);
  }

  /** A pending connect tells about the backend it leads to, and leaves the client ready to try again if it failed. */
  lemma FinishTells(w: World, i: nat, ok: bool)
    requires Enabled(w, Finished(i, ok)) && Inv(w) && HomeCon(w.cons[i])
    ensures
      var (w', s) := (Next(w, Finished(i, ok)), w.cons[i].server.value);
      && s.dst < |w.backends| == |w'.backends| && |w'.cons| == |w.cons| && w'.backends[s.dst].down == !ok
      && (forall c {:trigger w'.backends[c]} :: 0 <= c < |w.backends| && c != s.dst ==> w'.backends[c] == w.backends[c])
      && w'.cons[i].server == (if ok then Some(s) else None)
      && (if ok then w'.cons[i].phase == Served else Enabled(w', Begun(i)) && s.id !in w'.live)
  {
    assert PairedCon(w.cons[i], |w.backends|);
  }

  // ----- a wish and the connect that follows -----

  /** A script assigns an index: an idle connection of that backend is taken at once, the oldest of the queue. */
  lemma WishAnswered(w: World, i: nat, ndx: int, k: string)
    requires Enabled(w, Assigned(i, ndx, Some(k))) && Paired(w) && 0 <= ndx < |w.backends|
    requires k in w.backends[ndx].users && w.backends[ndx].users[k] != []
    ensures
      var con := Next(w, Assigned(i, ndx, Some(k))).cons[i];
      con.server == Some(w.backends[ndx].users[k][0]) && con.backend == Some(ndx) && con.ndx == ndx
  {
    assert PairedCon(w.cons[i], |w.backends|);
  }

  /** A client that has logged in as `u` is given a connection of that user, the oldest, whenever the backend it asks
      for has idle ones. */
  lemma OwnConnection(w: World, i: nat, u: string, ndx: int, key: Option<string>)
    requires Inv(w) && Enabled(w, LoggedIn(i, u)) && Enabled(Next(w, LoggedIn(i, u)), Assigned(i, ndx, key))
    requires u != "" && 0 <= ndx < |w.backends| && u in w.backends[ndx].users && w.backends[ndx].users[u] != []
    ensures
      var w1 := Next(w, LoggedIn(i, u));
      && key == Some(u) && Paired(w1)
      && var s := Next(w1, Assigned(i, ndx, key)).cons[i].server;
         s == Some(w.backends[ndx].users[u][0]) && s.value.user == u
  {
    var w1 := Next(w, LoggedIn(i, u));
    NextKeeps(w, LoggedIn(i, u));
    assert Keyed(w.backends[ndx].users);
    WishAnswered(w1, i, ndx, u);
  }

  /** A connection that was authenticated again as `u` goes back into the pool of its backend under that user, behind
      those that are there. */
  lemma ReturnsUnderUser(w: World, i: nat, u: string)
    requires Inv(w) && Enabled(w, Reauthed(i, u))
    ensures
      var w1 := Next(w, Reauthed(i, u));
      && Enabled(w1, Assigned(i, -1, None)) && Paired(w1) && w.cons[i].backend.Some?
      && var (w2, b) := (Next(w1, Assigned(i, -1, None)), w.cons[i].backend.value);
         && b < |w.backends| == |w2.backends| && w2.cons[i].server.None?
         && Queue(w2.backends[b].users, u) == Queue(w.backends[b].users, u) + [w.cons[i].server.value.(user := u)]
  {
    assert PairedCon(w.cons[i], |w.backends|);
    NextKeeps(w, Reauthed(i, u));
    assert PairedCon(Next(w, Reauthed(i, u)).cons[i], |w.backends|);
  }

  /** No idle connection answers the wish: the backend does not exist, its pool selects no queue, or an empty one. */
  predicate Unanswered(w: World, ndx: int, key: Option<string>) {
    0 <= ndx < |w.backends| && key.Some? && key.value in w.backends[ndx].users ==>
      w.backends[ndx].users[key.value] == []
  }

  /** Then the index is remembered, and nothing else changes for the client. */
  lemma WishRemembered(w: World, i: nat, ndx: int, key: Option<string>)
    requires Enabled(w, Assigned(i, ndx, key)) && Paired(w) && ndx != -1 && Unanswered(w, ndx, key)
    ensures Next(w, Assigned(i, ndx, key)).cons == w.cons[i := w.cons[i].(ndx := ndx)]
    ensures |Next(w, Assigned(i, ndx, key)).backends| == |w.backends|
  {
    assert PairedCon(w.cons[i], |w.backends|);
  }

  /** The step is not one of client `i`. */
  predicate OfOthers(a: Action, i: nat) {
    match a
    case Begun(j) => j != i
    case Chosen(j, _, _) => j != i
    case Finished(j, _) => j != i
    case LoggedIn(j, _) => j != i
    case Assigned(j, _, _) => j != i
    case Reauthed(j, _) => j != i
    case Left(j) => j != i
    case _ => true
  }

  /** Other clients do not change what a client has, or wishes. */
  lemma OthersKeep(w: World, a: Action, i: nat)
    requires Enabled(w, a) && Paired(w) && i < |w.cons| && OfOthers(a, i)
    ensures var w' := Next(w, a); i < |w'.cons| && w'.cons[i] == w.cons[i] && |w'.backends| == |w.backends|
  {
    match a
    case Chosen(j, keep, d) => OtherChosen(w, j, keep, d, i);
    case Assigned(j, ndx, key) => OtherAssigned(w, j, ndx, key, i);
    case Finished(j, _) => assert PairedCon(w.cons[j], |w.backends|);
    case _ =>
  }

  lemma OtherChosen(w: World, j: nat, keep: bool, d: Dial, i: nat)
    requires Enabled(w, Chosen(j, keep, d)) && Paired(w) && i < |w.cons| && j != i
    ensures
      var w' := Next(w, Chosen(j, keep, d));
      i < |w'.cons| && w'.cons[i] == w.cons[i] && |w'.backends| == |w.backends|
  {
    assert PairedCon(w.cons[j], |w.backends|);
    var w1 := if keep then w else Drop(w, j);
    assert w1.cons[i] == w.cons[i] && |w1.backends| == |w.backends|;
    OtherJoined(Settled(w1, j, WishedIndex(w, j)), j, d, i);
  }

  lemma OtherJoined(w: World, j: nat, d: Dial, i: nat)
    requires i < |w.cons| && j < |w.cons| && j != i
    ensures var w' := Joined(w, j, d); i < |w'.cons| && w'.cons[i] == w.cons[i] && |w'.backends| == |w.backends|
  {
  }

  lemma OtherAssigned(w: World, j: nat, ndx: int, key: Option<string>, i: nat)
    requires Enabled(w, Assigned(j, ndx, key)) && Paired(w) && i < |w.cons| && j != i
    ensures
      var w' := Next(w, Assigned(j, ndx, key));
      i < |w'.cons| && w'.cons[i] == w.cons[i] && |w'.backends| == |w.backends|
  {
    assert PairedCon(w.cons[j], |w.backends|);
  }

  lemma {:induction false} WishSurvives(ws: seq<World>, actions: seq<Action>, i: nat, n: nat, n': nat)
    requires IsRun(ws, actions) && n <= n' < |ws| && i < |ws[n].cons|
    requires forall k: nat {:trigger actions[k]} :: n <= k < n' ==> OfOthers(actions[k], i)
    ensures i < |ws[n'].cons| && ws[n'].cons[i] == ws[n].cons[i] && |ws[n'].backends| == |ws[n].backends|
    decreases n'
  {
    if n < n' {
      WishSurvives(ws, actions, i, n, n' - 1);
      RunKeeps(ws, actions, n' - 1);
      assert RunStep(ws, actions, n' - 1);
      OthersKeep(ws[n' - 1], actions[n' - 1], i);
    }
  }

  /** In every run: the script of a client without a connection asks for a backend, no idle connection answers, and
      whatever other clients do until the hook is over, the client is then connected to that backend, unless the
      backend is down by then. */
  lemma WishDialed(ws: seq<World>, actions: seq<Action>, i: nat, ndx: nat, key: Option<string>, keep: bool, d: Dial,
                   n: nat, n': nat)
    requires IsRun(ws, actions) && n < n' < |actions| && RunStep(ws, actions, n) && RunStep(ws, actions, n')
    requires actions[n] == Assigned(i, ndx, key) && actions[n'] == Chosen(i, keep, d)
    requires forall k: nat {:trigger actions[k]} :: n < k < n' ==> OfOthers(actions[k], i)
    requires ws[n].cons[i].server.None? && ndx < |ws[n].backends| && Unanswered(ws[n], ndx, key)
    requires ndx < |ws[n'].backends| ==> !ws[n'].backends[ndx].down
    ensures Tried(ws[n'], ws[n' + 1], i, ndx, d)
  {
    RunKeeps(ws, actions, n');
    WishKept(ws, actions, i, ndx, key, n, n');
    DialsWished(ws[n'], i, keep, d);
  }

  lemma WishKept(ws: seq<World>, actions: seq<Action>, i: nat, ndx: nat, key: Option<string>, n: nat, n': nat)
    requires IsRun(ws, actions) && n < n' < |actions| && RunStep(ws, actions, n) && actions[n] == Assigned(i, ndx, key)
    requires forall k: nat {:trigger actions[k]} :: n < k < n' ==> OfOthers(actions[k], i)
    requires ndx < |ws[n].backends| && Unanswered(ws[n], ndx, key)
    ensures i < |ws[n'].cons| && ws[n'].cons[i] == ws[n].cons[i].(ndx := ndx) && ndx < |ws[n'].backends|
  {
    RunKeeps(ws, actions, n);
    WishRemembered(ws[n], i, ndx, key);
    WishSurvives(ws, actions, i, n + 1, n');
  }
}
