/** What every step and every run of a proxy with many clients and backends keeps, and exactly which steps break the
    counts of connected clients or send a connection to a foreign pool. */
module BackendSwap {
  import opened Common
  import opened ConnPool
  import opened BackendSteps

  // ----- who holds a connection -----

  datatype Place = AtClient(i: nat) | InPool(b: nat, u: string, j: nat) | InHand

  function IdOf(s: Option<Sock>): Option<nat> {
    if s.Some? then Some(s.value.id) else None
  }

  function HeldAt(w: World, p: Place): Option<nat> {
    match p
    case AtClient(i) => if i < |w.cons| then IdOf(w.cons[i].server) else None
    case InPool(b, u, j) =>
      if b < |w.backends| && u in w.backends[b].users && j < |w.backends[b].users[u]| then
        Some(w.backends[b].users[u][j].id)
      else None
    case InHand => IdOf(w.hand)
  }

  ghost predicate Held(w: World, id: nat) {
    exists p: Place :: HeldAt(w, p) == Some(id)
  }

  /** No connection is held twice, and those held are the open ones. */
  ghost predicate Owned(w: World) {
    && (forall p: Place, q: Place {:trigger HeldAt(w, p), HeldAt(w, q)} ::
      HeldAt(w, p).Some? && HeldAt(w, p) == HeldAt(w, q) ==> p == q)
    && (forall id: nat {:trigger id in w.live} :: id in w.live <==> Held(w, id))
  }

  /** `w'` holds at every place what `w` holds at the place `from` names, and gave up only `lost`. */
  lemma MovedOwned(w: World, w': World, from: Place -> Place, to: Place -> Place, lost: set<nat>)
    requires Owned(w) && w'.live == w.live - lost
    requires forall p: Place {:trigger HeldAt(w', p)} :: HeldAt(w', p).Some? ==>
      HeldAt(w', p) == HeldAt(w, from(p)) && to(from(p)) == p && HeldAt(w', p).value !in lost
    requires forall p: Place {:trigger HeldAt(w, p)} :: HeldAt(w, p).Some? && HeldAt(w, p).value !in lost ==>
      HeldAt(w', to(p)) == HeldAt(w, p)
    ensures Owned(w')
  {
    forall p: Place, q: Place | HeldAt(w', p).Some? && HeldAt(w', p) == HeldAt(w', q)
      ensures p == q
    {
      assert from(p) == from(q);
    }
    forall id: nat
      ensures id in w'.live <==> Held(w', id)
    {
      if id in w'.live {
        assert id in w.live;
        var p :| HeldAt(w, p) == Some(id);
        assert HeldAt(w', to(p)) == Some(id);
      }
      if Held(w', id) {
        var p :| HeldAt(w', p) == Some(id);
        assert HeldAt(w, from(p)) == Some(id);
        assert id in w.live;
      }
    }
  }

  lemma DropOwned(w: World, i: nat)
    requires i < |w.cons| && Attached(w, i) && Owned(w)
    ensures Owned(Drop(w, i))
  {
    var con := w.cons[i];
    if con.server.Some? {
      var (b, s) := (con.backend.value, con.server.value);
      var users: Users := w.backends[b].users;
      var at := InPool(b, s.user, if s.user in users then |users[s.user]| else 0);
      var from := (p: Place) => if p == at then AtClient(i) else p;
      var to := (p: Place) => if p == AtClient(i) then at else p;
      MovedOwned(w, Drop(w, i), from, to, {});
    }
  }

  /** What is destroyed was held in the queue of the name asked for, and nowhere else. */
  lemma LostFrom(w: World, b: nat, name: string, k: string, p: Place)
    requires b < |w.backends| && k in w.backends[b].users && Owned(w)
    requires HeldAt(w, p).Some? && HeldAt(w, p).value in Ids(Destroyed(w.backends[b].users, name, k))
    ensures p.InPool? && p.b == b && p.u == name && name != k && |w.backends[b].users[k]| <= 1
  {
    var users: Users := w.backends[b].users;
    var j :| 0 <= j < |users[name]| && users[name][j].id == HeldAt(w, p).value;
    assert HeldAt(w, InPool(b, name, j)) == HeldAt(w, p);
  }

  function TakenFrom(b: nat, k: string, p: Place): Place {
    if p == InHand then InPool(b, k, 0) else if p.InPool? && p.b == b && p.u == k then InPool(b, k, p.j + 1) else p
  }

  function TakenTo(b: nat, k: string, p: Place): Place {
    if p.InPool? && p.b == b && p.u == k then (if p.j == 0 then InHand else InPool(b, k, p.j - 1)) else p
  }

  /** Where a held connection was before one was taken. */
  lemma TakenBefore(w: World, b: nat, name: string, k: string, p: Place)
    requires b < |w.backends| && k in w.backends[b].users && w.backends[b].users[k] != [] && w.hand.None?
    requires HeldAt(Take(w, b, name, k), p).Some?
    ensures HeldAt(Take(w, b, name, k), p) == HeldAt(w, TakenFrom(b, k, p)) && TakenTo(b, k, TakenFrom(b, k, p)) == p
    ensures p.InPool? && p.b == b && p.u == name && |w.backends[b].users[k]| <= 1 ==>
      name == k && p.j > |w.backends[b].users[k]|
  {
  }

  /** Where a held connection is after one was taken, unless it was destroyed. */
  lemma TakenAfter(w: World, b: nat, name: string, k: string, p: Place)
    requires b < |w.backends| && k in w.backends[b].users && w.backends[b].users[k] != [] && w.hand.None?
    requires HeldAt(w, p).Some? && HeldAt(w, p).value !in Ids(Destroyed(w.backends[b].users, name, k))
    ensures HeldAt(Take(w, b, name, k), TakenTo(b, k, p)) == HeldAt(w, p)
  {
  }

  lemma TakeOneOwned(w: World, b: nat, name: string, k: string)
    requires b < |w.backends| && k in w.backends[b].users && w.backends[b].users[k] != [] && w.hand.None? && Owned(w)
    ensures Owned(Take(w, b, name, k))
  {
    var w' := Take(w, b, name, k);
    var lost := Ids(Destroyed(w.backends[b].users, name, k));
    var from, to := (p: Place) => TakenFrom(b, k, p), (p: Place) => TakenTo(b, k, p);
    forall p: Place | HeldAt(w', p).Some?
      ensures HeldAt(w', p) == HeldAt(w, from(p)) && to(from(p)) == p && HeldAt(w', p).value !in lost
    {
      TakenBefore(w, b, name, k, p);
      if HeldAt(w', p).value in lost { LostFrom(w, b, name, k, from(p)); }
    }
    forall p: Place | HeldAt(w, p).Some? && HeldAt(w, p).value !in lost
      ensures HeldAt(w', to(p)) == HeldAt(w, p)
    {
      TakenAfter(w, b, name, k, p);
    }
    MovedOwned(w, w', from, to, lost);
  }

  lemma TakeOwned(w: World, b: nat, name: string, k: string)
    requires b < |w.backends| && k in w.backends[b].users && w.hand.None? && Owned(w)
    ensures Owned(Take(w, b, name, k))
  {
    var users: Users := w.backends[b].users;
    if users[k] == [] {
      var lost := Ids(Destroyed(users, name, k));
      forall p: Place | HeldAt(w, p).Some? && HeldAt(w, p).value in lost
        ensures p.InPool? && p.b == b && p.u == name && name != k
      {
        LostFrom(w, b, name, k, p);
      }
      MovedOwned(w, Take(w, b, name, k), (p: Place) => p, (p: Place) => p, lost);
    } else {
      TakeOneOwned(w, b, name, k);
    }
  }

  lemma GiveOwned(w: World, i: nat, b: nat)
    requires i < |w.cons| && b < |w.backends| && w.hand.Some? && w.cons[i].server.None? && Owned(w)
    ensures Owned(Give(w, i, b))
  {
    var from := (p: Place) => if p == AtClient(i) then InHand else p;
    var to := (p: Place) => if p == InHand then AtClient(i) else p;
    MovedOwned(w, Give(w, i, b), from, to, {});
  }

  lemma IdleCloseOwned(w: World, b: nat, u: string, j: nat)
    requires b < |w.backends| && u in w.backends[b].users && j < |w.backends[b].users[u]| && Owned(w)
    ensures Owned(IdleClose(w, b, u, j))
  {
    var gone := InPool(b, u, j);
    assert HeldAt(w, gone).Some?;
    var from := (p: Place) => if p.InPool? && p.b == b && p.u == u && p.j >= j then InPool(b, u, p.j + 1) else p;
    var to := (p: Place) => if p.InPool? && p.b == b && p.u == u && p.j > j then InPool(b, u, p.j - 1) else p;
    MovedOwned(w, IdleClose(w, b, u, j), from, to, {w.backends[b].users[u][j].id});
  }

  /** The connection `id` that nobody held is now held at `at`. */
  lemma NewOwned(w: World, w': World, at: Place, id: nat)
    requires Owned(w) && id !in w.live && w'.live == w.live + {id} && HeldAt(w, at).None? && HeldAt(w', at) == Some(id)
    requires forall p: Place {:trigger HeldAt(w', p)} :: p != at ==> HeldAt(w', p) == HeldAt(w, p)
    ensures Owned(w')
  {
    forall p: Place | HeldAt(w, p).Some?
      ensures HeldAt(w, p).value in w.live
    {
      assert Held(w, HeldAt(w, p).value);
    }
    forall x: nat
      ensures x in w'.live <==> Held(w', x)
    {
      if x in w.live {
        var p :| HeldAt(w, p) == Some(x);
        assert HeldAt(w', p) == Some(x);
      }
    }
  }

  /** Nobody's connection has changed. */
  lemma SameOwned(w: World, w': World)
    requires Owned(w) && w'.live == w.live
    requires forall p: Place {:trigger HeldAt(w', p)} :: HeldAt(w', p) == HeldAt(w, p)
    ensures Owned(w')
  {
    MovedOwned(w, w', (p: Place) => p, (p: Place) => p, {});
  }

  /** Client `i` has lost its connection, if it had one. */
  lemma ClosedOwned(w: World, w': World, i: nat)
    requires Owned(w) && i < |w.cons| && w'.live == w.live - IdsOf(w.cons[i].server)
    requires forall p: Place {:trigger HeldAt(w', p)} ::
      HeldAt(w', p) == if p == AtClient(i) then None else HeldAt(w, p)
    ensures Owned(w')
  {
    assert w.cons[i].server.Some? ==> HeldAt(w, AtClient(i)).Some?;
    MovedOwned(w, w', (p: Place) => p, (p: Place) => p, IdsOf(w.cons[i].server));
  }

  // ----- what every step keeps -----

  /** Backends exist; a client in a script's hands has a connection exactly when it has a backend, and one
      whose connect is pending has the backend it is for. */
  predicate PairedCon(con: Con, n: nat) {
    && (con.backend.Some? ==> con.backend.value < n)
    && match con.phase
       case Connecting => con.server.Some? ==> con.backend.Some?
       case Gone => con.server.None? && con.backend.None?
       case _ => con.server.Some? <==> con.backend.Some?
  }

  predicate Paired(w: World) {
    forall i {:trigger w.cons[i]} :: 0 <= i < |w.cons| ==> PairedCon(w.cons[i], |w.backends|)
  }

  predicate AllKeyed(w: World) {
    forall b {:trigger w.backends[b]} :: 0 <= b < |w.backends| ==> Keyed(w.backends[b].users)
  }

  ghost predicate Inv(w: World) {
    w.hand.None? && Owned(w) && AllKeyed(w) && Paired(w)
  }

  // ----- client counts -----

  /** The client's connect to backend `b` has finished. */
  predicate ConnectedTo(con: Con, b: nat) {
    con.server.Some? && con.phase != Connecting && con.backend == Some(b)
  }

  function Count(cons: seq<Con>, b: nat): nat {
    if cons == [] then 0 else Count(cons[..|cons| - 1], b) + if ConnectedTo(cons[|cons| - 1], b) then 1 else 0
  }

  /** How much more the new state of a client counts. */
  function Change(con: Con, con': Con, b: nat): int {
    (if ConnectedTo(con', b) then 1 else 0) - (if ConnectedTo(con, b) then 1 else 0)
  }

  lemma {:induction false} CountUpdate(cons: seq<Con>, i: nat, con: Con, b: nat)
    requires i < |cons|
    ensures Count(cons[i := con], b) == Count(cons, b) + Change(cons[i], con, b)
    decreases |cons|
  {
    var n := |cons| - 1;
    if i == n {
      assert cons[i := con][..n] == cons[..n];
    } else {
      assert cons[i := con][..n] == cons[..n][i := con];
      CountUpdate(cons[..n], i, con, b);
    }
  }

  /** Every backend counts the clients whose connect to it has finished. */
  predicate Counted(w: World) {
    forall b {:trigger w.backends[b]} :: 0 <= b < |w.backends| ==> w.backends[b].clients == Count(w.cons, b) % GUINT
  }

  /** The count one more or one less. */
  function Counter(n: nat, d: int): nat
    requires -1 <= d <= 1
  {
    if d == 1 then More(n) else if d == -1 then Fewer(n) else n
  }

  /** Counters follow the number they count, and do not when they are off by one. */
  lemma CounterWraps(n: nat, d: int, e: int)
    requires -1 <= d <= 1 && -1 <= e <= 1 && n + e >= 0
    ensures Counter(n % GUINT, d) == (n + e) % GUINT <==> d == e
  {
  }

  /** Client `i` changed and the counters moved by `d`: the counts are right exactly when each moved by as much
      as the client counts more. */
  lemma Recount(w: World, w': World, i: nat, d: nat -> int)
    requires Counted(w) && i < |w.cons| == |w'.cons| && |w.backends| == |w'.backends|
    requires w'.cons == w.cons[i := w'.cons[i]]
    requires forall b {:trigger w'.backends[b]} :: 0 <= b < |w.backends| ==>
      -1 <= d(b) <= 1 && w'.backends[b].clients == Counter(w.backends[b].clients, d(b))
    ensures Counted(w') <==> forall b {:trigger d(b)} :: 0 <= b < |w.backends| ==>
      d(b) == Change(w.cons[i], w'.cons[i], b)
  {
    forall b | 0 <= b < |w'.backends|
      ensures w'.backends[b].clients == Count(w'.cons, b) % GUINT <==> d(b) == Change(w.cons[i], w'.cons[i], b)
    {
      CountUpdate(w.cons, i, w'.cons[i], b);
      assert w.backends[b].clients == Count(w.cons, b) % GUINT;
      assert w'.backends[b].clients == Counter(w.backends[b].clients, d(b));
      CounterWraps(Count(w.cons, b), d(b), Change(w.cons[i], w'.cons[i], b));
    }
    if forall b {:trigger d(b)} :: 0 <= b < |w.backends| ==> d(b) == Change(w.cons[i], w'.cons[i], b) {
      assert Counted(w');
    } else {
      var b :| 0 <= b < |w.backends| && d(b) != Change(w.cons[i], w'.cons[i], b);
      assert w'.backends[b].clients != Count(w'.cons, b) % GUINT;
    }
  }

  // ----- connections and their backends -----

  predicate HomePool(users: Users, b: nat) {
    forall u, j {:trigger users[u][j]} :: u in users && 0 <= j < |users[u]| ==> users[u][j].dst == b
  }

  predicate HomeCon(con: Con) {
    con.server.Some? && con.backend.Some? ==> con.server.value.dst == con.backend.value
  }

  /** Pools and clients hold connections to their own backend only. */
  predicate AtHome(w: World) {
    && (forall b {:trigger w.backends[b]} :: 0 <= b < |w.backends| ==> HomePool(w.backends[b].users, b))
    && (forall i {:trigger w.cons[i]} :: 0 <= i < |w.cons| ==> HomeCon(w.cons[i]))
  }

  // ----- steps of one client -----

  /** Client `i` changed, but not its connection. */
  lemma ConKeeps(w: World, w': World, i: nat)
    requires Inv(w) && i < |w.cons| == |w'.cons| && w' == SetCon(w, i, w'.cons[i])
    requires w'.cons[i].server == w.cons[i].server && PairedCon(w'.cons[i], |w.backends|)
    ensures Inv(w')
    ensures Counted(w) ==> (Counted(w') <==> forall b: nat :: b < |w.backends| ==>
      Change(w.cons[i], w'.cons[i], b) == 0)
    ensures AtHome(w) ==> (AtHome(w') <==> HomeCon(w'.cons[i]))
  {
    SameOwned(w, w');
    if Counted(w) {
      var d := (_: nat) => 0;
      Recount(w, w', i, d);
      assert forall b: nat {:trigger Change(w.cons[i], w'.cons[i], b)} :: d(b) == 0;
    }
  }

  /** What holds between the steps of a swap as well. */
  ghost predicate Mid(w: World) {
    Owned(w) && AllKeyed(w) && Paired(w)
  }

  lemma DropKeeps(w: World, i: nat)
    requires Mid(w) && i < |w.cons| && w.cons[i].phase != Connecting
    ensures Attached(w, i)
    ensures var w' := Drop(w, i); Mid(w') && w'.hand == w.hand && w'.cons[i].server.None? && w'.cons[i].backend.None?
    ensures Counted(w) ==> Counted(Drop(w, i))
    ensures AtHome(w) ==> AtHome(Drop(w, i))
  {
    DropOwned(w, i);
    var con := w.cons[i];
    if con.server.Some? {
      var b := con.backend.value;
      PushedKeyed(w.backends[b].users, con.server.value);
      if Counted(w) { Recount(w, Drop(w, i), i, (x: nat) => if x == b then -1 else 0); }
    }
  }

  lemma GiveKeeps(w: World, i: nat, b: nat)
    requires Mid(w) && i < |w.cons| && b < |w.backends| && w.hand.Some? && w.cons[i].server.None?
    requires w.cons[i].phase == Hooked || w.cons[i].phase == Served
    ensures Inv(Give(w, i, b))
    ensures Counted(w) ==> Counted(Give(w, i, b))
    ensures AtHome(w) && w.hand.value.dst == b ==> AtHome(Give(w, i, b))
  {
    GiveOwned(w, i, b);
    if Counted(w) { Recount(w, Give(w, i, b), i, (x: nat) => if x == b then 1 else 0); }
  }

  lemma TakeKeeps(w: World, b: nat, name: string, k: string)
    requires Inv(w) && b < |w.backends| && k in w.backends[b].users
    ensures var w' := Take(w, b, name, k); Mid(w') && w'.cons == w.cons && |w'.backends| == |w.backends|
    ensures Counted(w) ==> Counted(Take(w, b, name, k))
    ensures AtHome(w) ==> var w' := Take(w, b, name, k); AtHome(w') && (w'.hand.Some? ==> w'.hand.value.dst == b)
  {
    TakeOwned(w, b, name, k);
    RemainingKeyed(w.backends[b].users, name, k);
    if AtHome(w) { RemainingHome(w.backends[b].users, name, k, b); }
  }

  lemma RemainingHome(users: Users, name: string, k: string, b: nat)
    requires HomePool(users, b) && k in users
    ensures HomePool(Remaining(users, name, k), b) && (Oldest(users, k).Some? ==> Oldest(users, k).value.dst == b)
  {
  }

  lemma AssignKeeps(w: World, i: nat, ndx: int, key: Option<string>)
    requires Inv(w) && Enabled(w, Assigned(i, ndx, key))
    ensures Attached(w, i) && Inv(Assign(w, i, ndx, key))
    ensures Counted(w) ==> Counted(Assign(w, i, ndx, key))
    ensures AtHome(w) ==> AtHome(Assign(w, i, ndx, key))
  {
    assert PairedCon(w.cons[i], |w.backends|);
    var name := ClientName(w.cons[i]);
    if ndx == -1 {
      DropKeeps(w, i);
    } else if !(0 <= ndx < |w.backends|) || key.None? {
      ConKeeps(w, Assign(w, i, ndx, key), i);
    } else {
      var w1 := Take(w, ndx, name, key.value);
      TakeKeeps(w, ndx, name, key.value);
      if w1.hand.None? {
        ConKeeps(w1, Assign(w, i, ndx, key), i);
      } else {
        DropKeeps(w1, i);
        GiveKeeps(Drop(w1, i), i, ndx);
      }
    }
  }

  /** A connect that begins. */
  lemma DialedKeeps(w: World, w0: World, i: nat, b: nat, ndx: int, d: Dial)
    requires Inv(w0) && i < |w0.cons| && w0.cons[i].server.None? && w0.cons[i].backend.None? && b < |w0.backends|
    requires w == SetCon(w0, i, w0.cons[i].(backend := Some(b), ndx := ndx)) && (d.Refused? || d.id !in w0.live)
    ensures Inv(Dialed(w, i, b, d))
    ensures Counted(w0) ==> Counted(Dialed(w, i, b, d))
    ensures AtHome(w0) ==> AtHome(Dialed(w, i, b, d))
  {
    var w' := Dialed(w, i, b, d);
    if d.Refused? { SameOwned(w0, w'); } else { NewOwned(w0, w', AtClient(i), d.id); }
    if Counted(w0) {
      if d.Now? { Recount(w0, w', i, (x: nat) => if x == b then 1 else 0); } else { Recount(w0, w', i, _ => 0); }
    }
  }

  lemma JoinedKeeps(w: World, i: nat, ndx: int, d: Dial)
    requires Inv(w) && i < |w.cons| && w.cons[i].phase == Hooked && (d.Refused? || d.id !in w.live)
    ensures Inv(Joined(Settled(w, i, ndx), i, d))
    ensures Counted(w) ==> (Counted(Joined(Settled(w, i, ndx), i, d)) <==> !Moves(w, i, ndx))
    ensures AtHome(w) ==> (AtHome(Joined(Settled(w, i, ndx), i, d)) <==> !Moves(w, i, ndx))
  {
    var w1, w' := Settled(w, i, ndx), Joined(Settled(w, i, ndx), i, d);
    assert PairedCon(w.cons[i], |w.backends|);
    if w.cons[i].server.Some? {
      KeptConnection(w, w', i);
    } else if w1.cons[i].backend.None? {
      ConKeeps(w, w', i);
    } else {
      DialedKeeps(w1, w, i, w1.cons[i].backend.value, w1.cons[i].ndx, d);
    }
  }

  /** A client with a connection is sent to another backend. */
  predicate Moves(w: World, i: nat, ndx: int)
    requires i < |w.cons|
  {
    var best := Shortest(w.backends, |w.backends|);
    w.cons[i].server.Some? && ndx < 0 && best.Some? && best != w.cons[i].backend
  }

  /** The script wants to keep a connection it took from a pool, and the client is sent to another backend all the
      same: the script's index is that of a backend that is down, or negative, and another one can be used. */
  predicate Repicks(w: World, i: nat, keep: bool)
    requires i < |w.cons|
  {
    keep && Moves(w, i, WishedIndex(w, i))
  }

  lemma ChooseKeeps(w: World, i: nat, keep: bool, d: Dial)
    requires Inv(w) && Enabled(w, Chosen(i, keep, d))
    ensures Attached(w, i) && Inv(Choose(w, i, keep, d))
    ensures Counted(w) ==> (Counted(Choose(w, i, keep, d)) <==> !Repicks(w, i, keep))
    ensures AtHome(w) ==> (AtHome(Choose(w, i, keep, d)) <==> !Repicks(w, i, keep))
  {
    assert PairedCon(w.cons[i], |w.backends|);
    if !keep { DropKeeps(w, i); }
    JoinedKeeps(if keep then w else Drop(w, i), i, WishedIndex(w, i), d);
  }

  /** A client that keeps its connection counts as before exactly when it keeps its backend. */
  lemma KeptConnection(w: World, w': World, i: nat)
    requires Inv(w) && i < |w.cons| == |w'.cons| && w' == SetCon(w, i, w'.cons[i])
    requires w.cons[i].server.Some? && w.cons[i].phase == Hooked && w'.cons[i].server == w.cons[i].server
    requires w'.cons[i].phase == Served && w'.cons[i].backend.Some? && w'.cons[i].backend.value < |w.backends|
    ensures Inv(w')
    ensures Counted(w) ==> (Counted(w') <==> w'.cons[i].backend == w.cons[i].backend)
    ensures AtHome(w) ==> (AtHome(w') <==> w'.cons[i].backend == w.cons[i].backend)
  {
    assert PairedCon(w.cons[i], |w.backends|);
    ConKeeps(w, w', i);
    var b := w.cons[i].backend.value;
    assert Change(w.cons[i], w'.cons[i], b) == 0 <==> w'.cons[i].backend == w.cons[i].backend;
    assert AtHome(w) ==> HomeCon(w.cons[i]);
  }

  lemma FinishKeeps(w: World, i: nat, ok: bool)
    requires Inv(w) && Enabled(w, Finished(i, ok))
    ensures Attached(w, i) && Inv(Finish(w, i, ok))
    ensures Counted(w) ==> Counted(Finish(w, i, ok))
    ensures AtHome(w) ==> AtHome(Finish(w, i, ok))
  {
    assert PairedCon(w.cons[i], |w.backends|);
    var (w', b) := (Finish(w, i, ok), w.cons[i].backend.value);
    if ok {
      SameOwned(w, w');
      if Counted(w) { Recount(w, w', i, (x: nat) => if x == b then 1 else 0); }
    } else {
      ClosedOwned(w, w', i);
      if Counted(w) { Recount(w, w', i, _ => 0); }
    }
  }

  /** A client that has a backend, but no connect that has finished. */
  predicate StillConnecting(con: Con) {
    con.backend.Some? && con.phase == Connecting
  }

  lemma LeaveKeeps(w: World, i: nat)
    requires Inv(w) && i < |w.cons|
    ensures Inv(Leave(w, i))
    ensures Counted(w) ==> (Counted(Leave(w, i)) <==> !StillConnecting(w.cons[i]))
    ensures AtHome(w) ==> AtHome(Leave(w, i))
  {
    var (con, w') := (w.cons[i], Leave(w, i));
    assert PairedCon(con, |w.backends|);
    ClosedOwned(w, w', i);
    if Counted(w) {
      var d := (x: nat) => if con.backend == Some(x) then -1 else 0;
      Recount(w, w', i, d);
      if con.backend.Some? {
        var b := con.backend.value;
        assert d(b) == Change(con, w'.cons[i], b) <==> !StillConnecting(con);
      }
    }
  }

  lemma ReauthKeeps(w: World, i: nat, user: string)
    requires Inv(w) && i < |w.cons| && w.cons[i].server.Some?
    ensures Inv(Reauth(w, i, user))
    ensures Counted(w) ==> Counted(Reauth(w, i, user))
    ensures AtHome(w) ==> AtHome(Reauth(w, i, user))
  {
    var w' := Reauth(w, i, user);
    assert PairedCon(w.cons[i], |w.backends|) && (AtHome(w) ==> HomeCon(w.cons[i]));
    SameOwned(w, w');
    if Counted(w) { Recount(w, w', i, _ => 0); }
  }

  lemma ArriveKeeps(w: World)
    requires Inv(w)
    ensures Inv(Arrive(w))
    ensures Counted(w) ==> Counted(Arrive(w))
    ensures AtHome(w) ==> AtHome(Arrive(w))
  {
    var w' := Arrive(w);
    SameOwned(w, w');
    assert w'.cons[..|w.cons|] == w.cons;
    forall b | 0 <= b < |w'.backends| && Counted(w)
      ensures w'.backends[b].clients == Count(w'.cons, b) % GUINT
    {
      assert w.backends[b].clients == Count(w.cons, b) % GUINT;
    }
  }

  lemma BeginKeeps(w: World, i: nat)
    requires Inv(w) && Enabled(w, Begun(i))
    ensures Inv(Begin(w, i))
    ensures Counted(w) ==> Counted(Begin(w, i))
    ensures AtHome(w) ==> AtHome(Begin(w, i))
  {
    ConKeeps(w, Begin(w, i), i);
  }

  lemma LogInKeeps(w: World, i: nat, user: string)
    requires Inv(w) && Enabled(w, LoggedIn(i, user))
    ensures var w' := SetCon(w, i, w.cons[i].(user := Some(user)));
      Inv(w') && (Counted(w) ==> Counted(w')) && (AtHome(w) ==> AtHome(w'))
  {
    assert PairedCon(w.cons[i], |w.backends|) && (AtHome(w) ==> HomeCon(w.cons[i]));
    ConKeeps(w, SetCon(w, i, w.cons[i].(user := Some(user))), i);
  }

  lemma WakeKeeps(w: World, b: nat)
    requires Inv(w) && b < |w.backends|
    ensures Inv(SetDown(w, b, false))
    ensures Counted(w) ==> Counted(SetDown(w, b, false))
    ensures AtHome(w) ==> AtHome(SetDown(w, b, false))
  {
    SameOwned(w, SetDown(w, b, false));
  }

  lemma IdleCloseKeeps(w: World, b: nat, u: string, j: nat)
    requires Inv(w) && Enabled(w, IdleClosed(b, u, j))
    ensures Inv(IdleClose(w, b, u, j))
    ensures Counted(w) ==> Counted(IdleClose(w, b, u, j))
    ensures AtHome(w) ==> AtHome(IdleClose(w, b, u, j))
  {
    IdleCloseOwned(w, b, u, j);
  }

  // ----- whole runs -----

  datatype Action =
    | Arrived
    | Begun(i: nat)
    | Chosen(i: nat, keep: bool, dial: Dial)
    | Finished(i: nat, ok: bool)
    | LoggedIn(i: nat, login: string)
    | Assigned(i: nat, ndx: int, key: Option<string>)
    | Reauthed(i: nat, user: string)
    | IdleClosed(b: nat, u: string, j: nat)
    | Woken(b: nat)
    | Left(i: nat)

  predicate Enabled(w: World, a: Action) {
    match a
    case Arrived => true
    case Begun(i) => i < |w.cons| && w.cons[i].phase == Connecting && w.cons[i].server.None?
    case Chosen(i, _, d) => i < |w.cons| && w.cons[i].phase == Hooked && (d.Refused? || d.id !in w.live)
    case Finished(i, _) => i < |w.cons| && w.cons[i].phase == Connecting && w.cons[i].server.Some?
    case LoggedIn(i, _) => i < |w.cons| && w.cons[i].phase == Served
    case Assigned(i, ndx, key) =>
      && i < |w.cons| && (w.cons[i].phase == Hooked || w.cons[i].phase == Served)
      && (0 <= ndx < |w.backends| ==> Picks(w, ndx, i, key))
    case Reauthed(i, _) => i < |w.cons| && w.cons[i].phase == Served && w.cons[i].server.Some?
    case IdleClosed(b, u, j) => b < |w.backends| && u in w.backends[b].users && j < |w.backends[b].users[u]|
    case Woken(b) => b < |w.backends|
    case Left(i) => i < |w.cons| && w.cons[i].phase != Gone
  }

  function Next(w: World, a: Action): World
    requires Enabled(w, a) && Paired(w)
  {
    match a
    case Arrived => Arrive(w)
    case Begun(i) => Begin(w, i)
    case Chosen(i, keep, d) =>
      assert PairedCon(w.cons[i], |w.backends|);
      Choose(w, i, keep, d)
    case Finished(i, ok) =>
      assert PairedCon(w.cons[i], |w.backends|);
      Finish(w, i, ok)
    case LoggedIn(i, user) => SetCon(w, i, w.cons[i].(user := Some(user)))
    case Assigned(i, ndx, key) =>
      assert PairedCon(w.cons[i], |w.backends|);
      Assign(w, i, ndx, key)
    case Reauthed(i, user) => Reauth(w, i, user)
    case IdleClosed(b, u, j) => IdleClose(w, b, u, j)
    case Woken(b) => SetDown(w, b, false)
    case Left(i) => Leave(w, i)
  }

  /** The two steps that upset a count: a client leaves while its connect is pending or was refused, and a
      client that keeps a pooled connection is sent to another backend. */
  predicate Miscounts(w: World, a: Action)
    requires Enabled(w, a)
  {
    (a.Left? && StillConnecting(w.cons[a.i])) || Misdirects(w, a)
  }

  /** The step that leaves a client, and later a pool, with a connection to another backend. */
  predicate Misdirects(w: World, a: Action)
    requires Enabled(w, a)
  {
    a.Chosen? && Repicks(w, a.i, a.keep)
  }

  /** Every step keeps an open server connection with exactly one client or exactly one pool queue, under its own
      user there.  Each backend's count stays the number of the clients whose connect to it has finished, and
      every connection stays with its own backend, exactly unless the step is one of those named. */
  lemma NextKeeps(w: World, a: Action)
    requires Inv(w) && Enabled(w, a)
    ensures Inv(Next(w, a))
    ensures Counted(w) ==> (Counted(Next(w, a)) <==> !Miscounts(w, a))
    ensures AtHome(w) ==> (AtHome(Next(w, a)) <==> !Misdirects(w, a))
  {
    match a
    case Arrived => ArriveKeeps(w);
    case Begun(i) => BeginKeeps(w, i);
    case Chosen(i, keep, d) => ChooseKeeps(w, i, keep, d);
    case Finished(i, ok) => FinishKeeps(w, i, ok);
    case LoggedIn(i, user) => LogInKeeps(w, i, user);
    case Assigned(i, ndx, key) => AssignKeeps(w, i, ndx, key);
    case Reauthed(i, user) => ReauthKeeps(w, i, user);
    case IdleClosed(b, u, j) => IdleCloseKeeps(w, b, u, j);
    case Woken(b) => WakeKeeps(w, b);
    case Left(i) => LeaveKeeps(w, i);
  }

  /** Backends without clients and with empty pools. */
  predicate Fresh(w: World) {
    w.cons == [] && w.hand.None? && w.live == {} &&
    forall b {:trigger w.backends[b]} :: 0 <= b < |w.backends| ==>
      w.backends[b].users == map[] && w.backends[b].clients == 0
  }

  /** The states of a run from a fresh proxy. */
  ghost predicate IsRun(ws: seq<World>, actions: seq<Action>) {
    && |ws| == |actions| + 1 && Fresh(ws[0])
    && forall n {:trigger RunStep(ws, actions, n)} :: 0 <= n < |actions| ==> RunStep(ws, actions, n)
  }

  ghost predicate RunStep(ws: seq<World>, actions: seq<Action>, n: nat)
    requires |ws| == |actions| + 1 && n < |actions|
  {
    Enabled(ws[n], actions[n]) && (Paired(ws[n]) ==> ws[n + 1] == Next(ws[n], actions[n]))
  }

  /** In every state of every run connections have one owner; and as long as no step upsets them, counts are right
      and connections are with their own backend. */
  lemma {:induction false} RunKeeps(ws: seq<World>, actions: seq<Action>, n: nat)
    requires IsRun(ws, actions) && n < |ws|
    ensures Inv(ws[n])
    ensures (forall k: nat :: k < n ==> Enabled(ws[k], actions[k]) && !Miscounts(ws[k], actions[k])) ==>
      Counted(ws[n]) && AtHome(ws[n])
    decreases n
  {
    if n == 0 {
      assert forall p: Place {:trigger HeldAt(ws[0], p)} :: HeldAt(ws[0], p).None?;
    } else {
      RunKeeps(ws, actions, n - 1);
      assert RunStep(ws, actions, n - 1);
      NextKeeps(ws[n - 1], actions[n - 1]);
    }
  }
}
