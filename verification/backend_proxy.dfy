/** The proxy's own objects: the operations on client connections, backends and pools, each equal to the step it is
    proved about. */
module BackendProxy {
  import opened Common
  import opened ConnPool
  import opened BackendSteps

  class Proxy {
    var cons: seq<Con>
    var backends: seq<Backend>
    ghost var live: set<nat>

    ghost function Current(): World
      reads this
    {
      World(cons, backends, None, live)
    }

    /** Puts the server connection of a client back into the pool and disconnects it from its backend. */
    method AddConnection(i: nat)
      requires i < |cons| && Attached(Current(), i)
      modifies this
      ensures Current() == Drop(old(Current()), i)
    {
      if cons[i].server.None? { return; }
      var b := cons[i].backend.value;
      var pool := new Pool();
      pool.users := backends[b].users;
      pool.Add(cons[i].server.value);
      backends := backends[b := backends[b].(users := pool.users)];
      backends := backends[b := backends[b].(clients := Fewer(backends[b].clients))];
      cons := cons[i := cons[i].(backend := None)];
      cons := cons[i := cons[i].(ndx := -1)];
      cons := cons[i := cons[i].(server := None)];
    }

    /** Takes a connection out of a backend's pool. */
    method TakeFromPool(b: nat, name: string) returns (sock: Option<Sock>, ghost key: Option<string>)
      requires b < |backends|
      modifies this
      ensures Selects(old(backends[b].users), old(backends[b].minIdle), name, key)
      ensures key.None? ==> sock.None? && Current() == old(Current())
      ensures key.Some? ==> Current().(hand := sock) == Take(old(Current()), b, name, key.value)
    {
      var pool := new Pool();
      pool.users, pool.minIdle := backends[b].users, backends[b].minIdle;
      sock, key := pool.Get(name);
      if key.Some? { live := live - Ids(Destroyed(backends[b].users, name, key.value)); }
      backends := backends[b := backends[b].(users := pool.users)];
    }

    /** Takes a connection to backend `ndx` from its pool, if there is one, and drops the current one. */
    method Swap(i: nat, ndx: int) returns (sock: Option<Sock>, ghost key: Option<string>)
      requires i < |cons| && Attached(Current(), i)
      modifies this
      ensures i < |cons| && (sock.Some? ==> 0 <= ndx < |backends|)
      ensures 0 <= ndx < old(|backends|) ==> Picks(old(Current()), ndx, i, key)
      ensures ndx != -1 && sock.Some? ==>
        cons[i].server.None? && Current().(cons := cons[i := cons[i].(server := sock)]) ==
          Assign(old(Current()), i, ndx, key)
      ensures ndx != -1 && sock.None? ==>
        Current().(cons := cons[i := cons[i].(ndx := ndx)]) == Assign(old(Current()), i, ndx, key)
    {
      sock, key := None, None;
      if !(0 <= ndx < |backends|) { return; }
      sock, key := TakeFromPool(ndx, ClientName(cons[i]));
      if sock.None? {
        cons := cons[i := cons[i].(ndx := -1)];
        return;
      }
      AddConnection(i);
      cons := cons[i := cons[i].(backend := Some(ndx))];
      backends := backends[ndx := backends[ndx].(clients := More(backends[ndx].clients))];
      cons := cons[i := cons[i].(ndx := ndx)];
    }

    /** A script assigns to `proxy.connection.backend_ndx` (counted from zero here). */
    method SetBackendNdx(i: nat, ndx: int) returns (ghost key: Option<string>)
      requires i < |cons| && Attached(Current(), i)
      modifies this
      ensures 0 <= ndx < old(|backends|) ==> Picks(old(Current()), ndx, i, key)
      ensures Current() == Assign(old(Current()), i, ndx, key)
    {
      key := None;
      if ndx == -1 {
        AddConnection(i);
      } else {
        var sock;
        sock, key := Swap(i, ndx);
        if sock.Some? {
          cons := cons[i := cons[i].(server := sock)];
        } else {
          cons := cons[i := cons[i].(ndx := ndx)];
        }
      }
    }

    /** `proxy_connect_server` up to the hook, for a client without a pending connect. */
    method BeginConnect(i: nat)
      requires i < |cons|
      modifies this
      ensures Current() == Begin(old(Current()), i)
    {
      cons := cons[i := cons[i].(backend := None)];
      cons := cons[i := cons[i].(ndx := -1)];
      cons := cons[i := cons[i].(phase := Hooked)];
    }

    /** `proxy_connect_server` for a client with a pending connect, and its timeout. */
    method FinishConnect(i: nat, ok: bool)
      requires i < |cons| && Attached(Current(), i) && cons[i].server.Some?
      modifies this
      ensures Current() == Finish(old(Current()), i, ok)
    {
      var b := cons[i].backend.value;
      if ok {
        backends := backends[b := backends[b].(clients := More(backends[b].clients))];
        backends := backends[b := backends[b].(down := false)];
        cons := cons[i := cons[i].(phase := Served)];
      } else {
        backends := backends[b := backends[b].(down := true)];
        live := live - {cons[i].server.value.id};
        cons := cons[i := cons[i].(server := None)];
      }
    }

    /** Shortest queue first: the eligible backend with the fewest clients, the first one if there are several. */
    method ShortestQueue() returns (best: Option<nat>)
      ensures best == Shortest(backends, |backends|)
    {
      best := None;
      var least := GUINT - 1;
      var n := 0;
      while n < |backends|
        invariant n <= |backends| && best == Shortest(backends, n)
        invariant least == if best.Some? then backends[best.value].clients else GUINT - 1
      {
        if !backends[n].down && backends[n].writable && backends[n].clients < least {
          best, least := Some(n), backends[n].clients;
        }
        n := n + 1;
      }
    }

    /** The choice of the backend after the hook. */
    method ChooseBackend(i: nat, ndx: int)
      requires i < |cons|
      modifies this
      ensures Current() == Settled(old(Current()), i, ndx)
    {
      cons := cons[i := cons[i].(ndx := ndx)];
      if ndx < 0 {
        var best := ShortestQueue();
        if best.Some? {
          cons := cons[i := cons[i].(ndx := best.value)];
          cons := cons[i := cons[i].(backend := best)];
        }
      } else if cons[i].backend.None? && ndx < |backends| {
        cons := cons[i := cons[i].(backend := Some(ndx))];
      }
    }

    /** `proxy_connect_server` after the hook. */
    method ConnectAfterHook(i: nat, keep: bool, d: Dial)
      requires i < |cons| && Attached(Current(), i)
      modifies this
      ensures Current() == Choose(old(Current()), i, keep, d)
    {
      var ndx := cons[i].ndx;
      if 0 <= ndx < |backends| && backends[ndx].down { ndx := -1; }
      if cons[i].server.Some? && !keep { AddConnection(i); }
      ChooseBackend(i, ndx);
      JoinBackend(i, d);
    }

    method JoinBackend(i: nat, d: Dial)
      requires i < |cons|
      modifies this
      ensures Current() == Joined(old(Current()), i, d)
    {
      if cons[i].server.Some? || cons[i].backend.None? || cons[i].backend.value >= |backends| {
        cons := cons[i := cons[i].(phase := Served)];
      } else {
        DialBackend(i, cons[i].backend.value, d);
      }
    }

    /** A new socket is connected to the backend. */
    method DialBackend(i: nat, b: nat, d: Dial)
      requires i < |cons| && b < |backends|
      modifies this
      ensures Current() == Dialed(old(Current()), i, b, d)
    {
      match d
      case Later(id) =>
        live := live + {id};
        cons := cons[i := cons[i].(server := Some(Sock(id, "", b)), phase := Connecting)];
      case Now(id) =>
        live := live + {id};
        cons := cons[i := cons[i].(server := Some(Sock(id, "", b)))];
        backends := backends[b := backends[b].(clients := More(backends[b].clients))];
        backends := backends[b := backends[b].(down := false)];
        cons := cons[i := cons[i].(phase := Served)];
      case Refused =>
        backends := backends[b := backends[b].(down := true)];
        cons := cons[i := cons[i].(phase := Connecting)];
    }

    /** `proxy_disconnect_client`, and the end of the connection. */
    method DisconnectClient(i: nat)
      requires i < |cons| && (cons[i].backend.Some? ==> cons[i].backend.value < |backends|)
      modifies this
      ensures Current() == Leave(old(Current()), i)
    {
      if cons[i].backend.Some? {
        var b := cons[i].backend.value;
        backends := backends[b := backends[b].(clients := Fewer(backends[b].clients))];
      }
      live := live - IdsOf(cons[i].server);
      cons := cons[i := Con(None, None, -1, None, Gone)];
    }
  }
}
