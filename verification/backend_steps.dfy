/** Many client connections, many backends: the steps by which server connections are dialed, move between clients
    and pools when a script drops or changes a backend, and close (plugins/proxy/proxy-plugin.c:215-257 and
    :1738-1933, src/network-conn-pool-lua.c:176-287, src/network-mysqld-lua.c:128-142). */
module BackendSteps {
  import opened Common
  import opened ConnPool

  /** Where a client is: waiting for a connect to finish or to be tried again, in the script's `connect_server`
      hook, past it, or gone. */
  datatype Phase = Connecting | Hooked | Served | Gone

  /** A client connection: its server connection, the backend it is assigned to, the backend index a script
      sees, the user name of the client once it has sent one, and its phase. */
  datatype Con = Con(server: Option<Sock>, backend: Option<nat>, ndx: int, user: Option<string>, phase: Phase)

  /** `clients` is the count of connected clients, `down` whether the last connect failed. */
  datatype Backend = Backend(users: Users, minIdle: nat, clients: nat, down: bool, writable: bool)

  /** `hand` is the connection a swap has taken from a pool and not yet given away; `live` are the
      connections that are open. */
  datatype World = World(cons: seq<Con>, backends: seq<Backend>, hand: Option<Sock>, live: set<nat>)

  // ----- the count is an unsigned 32-bit number -----

  const GUINT: nat := 0x1_0000_0000

  function More(n: nat): nat {
    (n + 1) % GUINT
  }

  function Fewer(n: nat): nat {
    (n + GUINT - 1) % GUINT
  }

  // ----- steps -----

  function SetCon(w: World, i: nat, con: Con): World
    requires i < |w.cons|
  {
    w.(cons := w.cons[i := con])
  }

  function SetBackend(w: World, b: nat, backend: Backend): World
    requires b < |w.backends|
  {
    w.(backends := w.backends[b := backend])
  }

  predicate Attached(w: World, i: nat)
    requires i < |w.cons|
  {
    w.cons[i].server.Some? ==> w.cons[i].backend.Some? && w.cons[i].backend.value < |w.backends|
  }

  /** `network_connection_pool_lua_add_connection`: the server connection goes into its backend's pool. */
  function Drop(w: World, i: nat): World
    requires i < |w.cons| && Attached(w, i)
  {
    var con := w.cons[i];
    if con.server.None? then w
    else
      var b := con.backend.value;
      var bk := w.backends[b];
      SetBackend(SetCon(w, i, con.(server := None, backend := None, ndx := -1)), b,
                 bk.(users := Pushed(bk.users, con.server.value), clients := Fewer(bk.clients)))
  }

  function ClientName(con: Con): string {
    if con.user.Some? then con.user.value else ""
  }

  function Ids(socks: seq<Sock>): set<nat> {
    set i | 0 <= i < |socks| :: socks[i].id
  }

  /** Takes the oldest connection of queue `k` of backend `b` in the hand. */
  function Take(w: World, b: nat, name: string, k: string): World
    requires b < |w.backends| && k in w.backends[b].users
  {
    var bk := w.backends[b];
    SetBackend(w, b, bk.(users := Remaining(bk.users, name, k)))
      .(hand := Oldest(bk.users, k), live := w.live - Ids(Destroyed(bk.users, name, k)))
  }

  /** The connection in the hand becomes the server connection of client `i`. */
  function Give(w: World, i: nat, b: nat): World
    requires i < |w.cons| && b < |w.backends|
  {
    var (con, bk) := (w.cons[i], w.backends[b]);
    SetBackend(SetCon(w, i, con.(server := w.hand, backend := Some(b), ndx := b)), b, bk.(clients := More(bk.clients)))
      .(hand := None)
  }

  /** What the pool of backend `b` may answer to client `i`. */
  predicate Picks(w: World, b: nat, i: nat, key: Option<string>)
    requires i < |w.cons| && b < |w.backends|
  {
    Selects(w.backends[b].users, w.backends[b].minIdle, ClientName(w.cons[i]), key)
  }

  /** A script assigns to `backend_ndx`; `key` is the queue that the pool selects, if the backend exists. */
  function Assign(w: World, i: nat, ndx: int, key: Option<string>): World
    requires i < |w.cons| && Attached(w, i)
    requires 0 <= ndx < |w.backends| ==> Picks(w, ndx, i, key)
  {
    if ndx == -1 then Drop(w, i)
    else if !(0 <= ndx < |w.backends|) || key.None? then SetCon(w, i, w.cons[i].(ndx := ndx))
    else
      var w1 := Take(w, ndx, ClientName(w.cons[i]), key.value);
      if w1.hand.None? then SetCon(w1, i, w1.cons[i].(ndx := ndx)) else Give(Drop(w1, i), i, ndx)
  }

  /** The server has closed the idle connection at place `j` of the queue of `u`. */
  function IdleClose(w: World, b: nat, u: string, j: nat): World
    requires b < |w.backends| && u in w.backends[b].users && j < |w.backends[b].users[u]|
  {
    var bk := w.backends[b];
    SetBackend(w, b, bk.(users := Without(bk.users, u, j))).(live := w.live - {bk.users[u][j].id})
  }

  /** The server connection of client `i` has been authenticated again, as `user`. */
  function Reauth(w: World, i: nat, user: string): World
    requires i < |w.cons| && w.cons[i].server.Some?
  {
    SetCon(w, i, w.cons[i].(server := Some(w.cons[i].server.value.(user := user))))
  }

  /** Client `i` has left: its backend counts one less, and its server connection is closed. */
  function Leave(w: World, i: nat): World
    requires i < |w.cons|
  {
    var con := w.cons[i];
    var w1 := SetCon(w, i, Con(None, None, -1, None, Gone)).(live := w.live - IdsOf(con.server));
    if con.backend.None? || con.backend.value >= |w.backends| then w1
    else
      var bk := w.backends[con.backend.value];
      SetBackend(w1, con.backend.value, bk.(clients := Fewer(bk.clients)))
  }

  function IdsOf(s: Option<Sock>): set<nat> {
    if s.Some? then {s.value.id} else {}
  }

  /** A new client, to be connected to a server. */
  function Arrive(w: World): World {
    w.(cons := w.cons + [Con(None, None, -1, None, Connecting)])
  }

  // ----- connecting -----

  /** A backend that new clients may be sent to. */
  predicate Eligible(bk: Backend) {
    !bk.down && bk.writable
  }

  /** The first of the eligible backends before `n` with the fewest clients. */
  function Shortest(backends: seq<Backend>, n: nat): (best: Option<nat>)
    requires n <= |backends|
    ensures best.Some? ==> best.value < n && Eligible(backends[best.value])
  {
    if n == 0 then None
    else
      var best := Shortest(backends, n - 1);
      var least := if best.Some? then backends[best.value].clients else GUINT - 1;
      if Eligible(backends[n - 1]) && backends[n - 1].clients < least then Some(n - 1) else best
  }

  /** Shortest queue first: no eligible backend has fewer clients than the one chosen, none before it has as few,
      and none is chosen only if every eligible one shows the largest count there is. */
  lemma {:induction false} ShortestLeast(backends: seq<Backend>, n: nat)
    requires n <= |backends|
    ensures
      var best := Shortest(backends, n);
      forall b {:trigger backends[b]} :: 0 <= b < n && Eligible(backends[b]) ==>
        if best.None? then backends[b].clients >= GUINT - 1
        else
          && backends[best.value].clients <= backends[b].clients
          && (b < best.value ==> backends[best.value].clients < backends[b].clients)
    ensures Shortest(backends, n).Some? ==> backends[Shortest(backends, n).value].clients < GUINT - 1
  {
    if n > 0 { ShortestLeast(backends, n - 1); }
  }

  /** Connecting starts over: whatever backend was tried before is forgotten, and the script is asked. */
  function Begin(w: World, i: nat): World
    requires i < |w.cons|
  {
    SetCon(w, i, w.cons[i].(backend := None, ndx := -1, phase := Hooked))
  }

  /** The index the script has set, unless that backend is down. */
  function WishedIndex(w: World, i: nat): int
    requires i < |w.cons|
  {
    var ndx := w.cons[i].ndx;
    if 0 <= ndx < |w.backends| && w.backends[ndx].down then -1 else ndx
  }

  /** A backend is chosen, by the script's index or by the shortest queue. */
  function Settled(w: World, i: nat, ndx: int): World
    requires i < |w.cons|
  {
    var (con, best) := (w.cons[i], Shortest(w.backends, |w.backends|));
    if ndx < 0 then
      SetCon(w, i, if best.Some? then con.(backend := best, ndx := best.value) else con.(ndx := ndx))
    else if con.backend.None? && ndx < |w.backends| then
      SetCon(w, i, con.(backend := Some(ndx), ndx := ndx))
    else SetCon(w, i, con.(ndx := ndx))
  }

  /** How the connect to a server begins: it succeeds at once or later, or is refused. */
  datatype Dial = Now(id: nat) | Later(id: nat) | Refused

  function SetDown(w: World, b: nat, down: bool): World
    requires b < |w.backends|
  {
    SetBackend(w, b, w.backends[b].(down := down))
  }

  /** A new connection to backend `b`. */
  function Dialed(w: World, i: nat, b: nat, d: Dial): World
    requires i < |w.cons| && b < |w.backends|
  {
    var con := w.cons[i];
    match d
    case Now(id) =>
      var w1 := SetCon(w, i, con.(server := Some(Sock(id, "", b)), phase := Served)).(live := w.live + {id});
      SetBackend(w1, b, w.backends[b].(clients := More(w.backends[b].clients), down := false))
    case Later(id) =>
      SetCon(w, i, con.(server := Some(Sock(id, "", b)), phase := Connecting)).(live := w.live + {id})
    case Refused => SetCon(SetDown(w, b, true), i, con.(phase := Connecting))
  }

  /** With its backend chosen, the client goes on with the connection it has, is refused, or a connect begins. */
  function Joined(w: World, i: nat, d: Dial): World
    requires i < |w.cons|
  {
    var con := w.cons[i];
    if con.server.Some? || con.backend.None? || con.backend.value >= |w.backends| then
      SetCon(w, i, con.(phase := Served))
    else Dialed(w, i, con.backend.value, d)
  }

  /** The rest of `proxy_connect_server` after the hook; a connection the script took but does not want to `keep`
      goes back first. */
  function Choose(w: World, i: nat, keep: bool, d: Dial): World
    requires i < |w.cons| && Attached(w, i)
  {
    Joined(Settled(if keep then w else Drop(w, i), i, WishedIndex(w, i)), i, d)
  }

  /** A connect that was begun has finished, failed or timed out. */
  function Finish(w: World, i: nat, ok: bool): World
    requires i < |w.cons| && Attached(w, i) && w.cons[i].server.Some?
  {
    var (con, b) := (w.cons[i], w.cons[i].backend.value);
    if ok then
      SetBackend(SetCon(w, i, con.(phase := Served)), b,
                 w.backends[b].(clients := More(w.backends[b].clients), down := false))
    else SetDown(SetCon(w, i, con.(server := None)), b, true).(live := w.live - {con.server.value.id})
  }
}
