/** The pool of idle server connections of one backend, one queue per user (src/network-conn-pool.c). */
module ConnPool {
  import opened Common

  /** A server connection, the user it is authenticated as, and the backend it leads to. */
  datatype Sock = Sock(id: nat, user: string, dst: nat)

  type Users = map<string, seq<Sock>>

  // ----- selection -----

  /** What `get_conns` may answer: the queue of a known user, or else any queue with more than `minIdle`
      entries.  Which one the hash table yields first is not specified. */
  predicate Selects(users: Users, minIdle: nat, name: string, key: Option<string>) {
    if name != "" && name in users then key == Some(name)
    else
      match key
      case Some(k) => k in users && |users[k]| > minIdle
      case None => forall k :: k in users ==> |users[k]| <= minIdle
  }

  /** The pool after a `get` that selected queue `k`: its oldest entry goes, and if that was the last
      one, the queue of the user who asked is removed. */
  function Remaining(users: Users, name: string, k: string): (r: Users)
    requires k in users
  {
    var q := users[k];
    var rest := if q == [] then [] else q[1..];
    var popped := users[k := rest];
    if rest == [] then popped - {name} else popped
  }

  function Oldest(users: Users, k: string): Option<Sock>
    requires k in users
  {
    if users[k] == [] then None else Some(users[k][0])
  }

  /** Entries that go although nobody asked for them: the queue that is removed with them is destroyed. */
  function Destroyed(users: Users, name: string, k: string): seq<Sock>
    requires k in users
  {
    if |users[k]| <= 1 && name in users && name != k then users[name] else []
  }

  function Pushed(users: Users, sock: Sock): Users {
    users[sock.user := (if sock.user in users then users[sock.user] else []) + [sock]]
  }

  function Without(users: Users, u: string, i: nat): Users
    requires u in users && i < |users[u]|
  {
    users[u := users[u][..i] + users[u][i + 1..]]
  }

  /** Every entry sits under its own user. */
  predicate Keyed(users: Users) {
    forall u, i :: u in users && 0 <= i < |users[u]| ==> users[u][i].user == u
  }

  lemma PushedKeyed(users: Users, sock: Sock)
    requires Keyed(users)
    ensures Keyed(Pushed(users, sock))
  {
  }

  lemma RemainingKeyed(users: Users, name: string, k: string)
    requires Keyed(users) && k in users
    ensures Keyed(Remaining(users, name, k))
  {
  }

  /** A user with a queue gets their own oldest idle connection, or none, and nobody else's queue changes. */
  lemma KnownUser(users: Users, minIdle: nat, name: string, key: Option<string>)
    requires Keyed(users) && name != "" && name in users && Selects(users, minIdle, name, key)
    ensures key == Some(name)
    ensures users[name] != [] ==> Oldest(users, name).Some? && Oldest(users, name).value.user == name
    ensures Remaining(users, name, name) - {name} == users - {name}
    ensures if |users[name]| <= 1 then name !in Remaining(users, name, name)
      else Remaining(users, name, name)[name] == users[name][1..]
  {
    var r := Remaining(users, name, name);
    assert forall u :: u in r - {name} <==> u in users - {name};
  }

  /** An unknown user takes one connection from a user with more than the minimum; that user keeps the
      minimum, and every other queue stays. */
  lemma UnknownUser(users: Users, minIdle: nat, name: string, k: string)
    requires name != "" && name !in users && Selects(users, minIdle, name, Some(k))
    ensures var r := Remaining(users, name, k); k in r && r[k] == users[k][1..] && |r[k]| >= minIdle
    ensures Remaining(users, name, k) - {k} == users - {k}
    ensures Oldest(users, k) == Some(users[k][0])
  {
    var r := Remaining(users, name, k);
    assert forall u :: u in r - {k} <==> u in users - {k};
  }

  /** Entry `i` of user `u` is still in the pool, at the front or where it was. */
  predicate Kept(users: Users, r: Users, u: string, i: nat)
    requires u in users && i < |users[u]|
  {
    u in r && users[u][i] in r[u]
  }

  /** Exactly when the guard below is false, a `get` takes out nothing but the entry it returns: the guard
      is the removal of a non-empty queue that belongs to the name asked for, which happens when the empty
      name takes another user's last connection. */
  lemma TakesOneIff(users: Users, minIdle: nat, name: string, k: string)
    requires Selects(users, minIdle, name, Some(k))
    ensures
      (forall u, i :: u in users && 0 <= i < |users[u]| && !(u == k && i == 0) ==>
        Kept(users, Remaining(users, name, k), u, i))
      <==> Destroyed(users, name, k) == []
    ensures name != "" ==> Destroyed(users, name, k) == []
  {
    var r := Remaining(users, name, k);
    if Destroyed(users, name, k) == [] {
      forall u, i | u in users && 0 <= i < |users[u]| && !(u == k && i == 0)
        ensures Kept(users, r, u, i)
      {
        if u == k { assert users[k][1..][i - 1] == users[k][i]; }
      }
    } else {
      assert !Kept(users, r, name, 0);
    }
  }

  /** The empty name takes the only idle connection of another user, and the queue of the empty name goes. */
  lemma EmptyNameDestroys()
    ensures
      var users: Users := map["" := [Sock(1, "", 0)], "bob" := [Sock(2, "bob", 0)]];
      Selects(users, 0, "", Some("bob")) && Remaining(users, "", "bob") == map["bob" := []]
  {
    var users: Users := map["" := [Sock(1, "", 0)], "bob" := [Sock(2, "bob", 0)]];
    var one := [Sock(2, "bob", 0)];
    assert users["bob"] == one && one[1..] == [];
    assert users["bob" := []] - {""} == map["bob" := []];
  }

  // ----- whole runs of adds and gets -----

  /** A connection is put into the pool, or somebody asks for one and queue `key` is selected. */
  datatype Use = Added(sock: Sock) | Asked(name: string, key: Option<string>)

  predicate Usable(users: Users, minIdle: nat, a: Use) {
    a.Asked? ==> Selects(users, minIdle, a.name, a.key)
  }

  function AfterUse(users: Users, a: Use): Users
    requires a.Asked? && a.key.Some? ==> a.key.value in users
  {
    match a
    case Added(sock) => Pushed(users, sock)
    case Asked(name, key) => if key.None? then users else Remaining(users, name, key.value)
  }

  ghost predicate IsUse(minIdle: nat, us: seq<Users>, uses: seq<Use>) {
    |us| == |uses| + 1 && us[0] == map[] &&
    forall n {:trigger UseAt(minIdle, us, uses, n)} :: 0 <= n < |uses| ==> UseAt(minIdle, us, uses, n)
  }

  ghost predicate UseAt(minIdle: nat, us: seq<Users>, uses: seq<Use>, n: nat)
    requires |us| == |uses| + 1 && n < |uses|
  {
    Usable(us[n], minIdle, uses[n]) && us[n + 1] == AfterUse(us[n], uses[n])
  }

  function Queue(users: Users, u: string): seq<Sock> {
    if u in users then users[u] else []
  }

  /** What a use adds to the queue of `u`. */
  function Given(a: Use, u: string): seq<Sock> {
    if a.Added? && a.sock.user == u then [a.sock] else []
  }

  /** The connections of user `u` that came into the pool with the first `n` uses, in order. */
  function Came(uses: seq<Use>, n: nat, u: string): seq<Sock>
    requires n <= |uses|
  {
    if n == 0 then [] else Came(uses, n - 1, u) + Given(uses[n - 1], u)
  }

  /** What a use takes out of the queue of `u`. */
  function Taken(users: Users, a: Use, u: string): seq<Sock> {
    if a.Asked? && a.key == Some(u) && u in users && users[u] != [] then [users[u][0]] else []
  }

  /** The connections that the first `n` uses took out of the queue of `u`, in order. */
  function Went(us: seq<Users>, uses: seq<Use>, n: nat, u: string): seq<Sock>
    requires n <= |uses| < |us|
  {
    if n == 0 then [] else Went(us, uses, n - 1, u) + Taken(us[n - 1], uses[n - 1], u)
  }

  lemma UseQueue(users: Users, minIdle: nat, a: Use, u: string)
    requires Usable(users, minIdle, a) && u != ""
    ensures Taken(users, a, u) + Queue(AfterUse(users, a), u) == Queue(users, u) + Given(a, u)
  {
    if a.Asked? && a.key == Some(u) && u in users && users[u] != [] {
      assert users[u] == [users[u][0]] + users[u][1..];
    }
  }

  lemma UseStep(minIdle: nat, us: seq<Users>, uses: seq<Use>, n: nat, n': nat, u: string)
    requires IsUse(minIdle, us, uses) && n + 1 == n' <= |uses| && u != ""
    ensures Taken(us[n], uses[n], u) + Queue(us[n'], u) == Queue(us[n], u) + Given(uses[n], u)
  {
    assert UseAt(minIdle, us, uses, n);
    UseQueue(us[n], minIdle, uses[n], u);
  }

  lemma Regroup(went: seq<Sock>, took: seq<Sock>, was: seq<Sock>, left: seq<Sock>, given: seq<Sock>, came: seq<Sock>,
                went': seq<Sock>, came': seq<Sock>)
    requires went + was == came && took + left == was + given && went' == went + took && came' == came + given
    ensures went' + left == came'
  {
    assert (went + took) + left == went + (took + left);
    assert (went + was) + given == went + (was + given);
  }

  /** First in, first out: in every run the connections of a user leave the pool in the order in which they came, and
      those still there wait in that order.  (The empty name's queue may be destroyed.) */
  lemma {:induction false} FirstInFirstOut(minIdle: nat, us: seq<Users>, uses: seq<Use>, n: nat, u: string)
    requires IsUse(minIdle, us, uses) && n <= |uses| && u != ""
    ensures Went(us, uses, n, u) + Queue(us[n], u) == Came(uses, n, u)
    decreases n
  {
    if n > 0 {
      var n0 := n - 1;
      FirstInFirstOut(minIdle, us, uses, n0, u);
      UseStep(minIdle, us, uses, n0, n, u);
      OneMoreUse(us, uses, n0, n, u);
    }
  }

  lemma OneMoreUse(us: seq<Users>, uses: seq<Use>, n: nat, n': nat, u: string)
    requires n + 1 == n' <= |uses| < |us| && Went(us, uses, n, u) + Queue(us[n], u) == Came(uses, n, u)
    requires Taken(us[n], uses[n], u) + Queue(us[n'], u) == Queue(us[n], u) + Given(uses[n], u)
    ensures Went(us, uses, n', u) + Queue(us[n'], u) == Came(uses, n', u)
  {
    Regroup(Went(us, uses, n, u), Taken(us[n], uses[n], u), Queue(us[n], u), Queue(us[n'], u), Given(uses[n], u),
            Came(uses, n, u), Went(us, uses, n', u), Came(uses, n', u));
  }

  // ----- the pool object -----

  class Pool {
    var users: Users
    var minIdle: nat

    constructor ()
      ensures users == map[] && minIdle == 0
    {
      users, minIdle := map[], 0;
    }

    /** The queue to take a connection from, by its key. */
    method GetConns(name: string) returns (key: Option<string>)
      ensures Selects(users, minIdle, name, key)
    {
      if name != "" && name in users { return Some(name); }
      var keys := users.Keys;
      while keys != {}
        invariant keys <= users.Keys && forall k :: k in users && k !in keys ==> |users[k]| <= minIdle
        decreases |keys|
      {
        var k :| k in keys;
        if |users[k]| > minIdle { return Some(k); }
        keys := keys - {k};
      }
      return None;
    }

    /** Takes a connection out of the pool. */
    method Get(name: string) returns (sock: Option<Sock>, ghost key: Option<string>)
      modifies this`users
      ensures Selects(old(users), minIdle, name, key)
      ensures key.None? ==> sock == None && users == old(users)
      ensures key.Some? ==> sock == Oldest(old(users), key.value) && users == Remaining(old(users), name, key.value)
    {
      var k := GetConns(name);
      key := k;
      sock := None;
      if k.Some? {
        var conns := users[k.value];
        if |conns| > 0 {
          sock := Some(conns[0]);
          conns := conns[1..];
          users := users[k.value := conns];
        }
        if |conns| == 0 {
          assert users == old(users)[k.value := []];
          users := users - {name};
        }
      }
    }

    method Add(sock: Sock)
      modifies this`users
      ensures users == Pushed(old(users), sock)
    {
      if sock.user !in users {
        users := users[sock.user := []];
      }
      users := users[sock.user := users[sock.user] + [sock]];
    }

    /** Removes the entry of a connection the server has closed; the queue stays, even when empty. */
    method Remove(sock: Sock) returns (removed: bool)
      requires forall u, i, j :: u in users && 0 <= i < j < |users[u]| ==> users[u][i] != users[u][j]
      modifies this`users
      ensures removed <==> sock.user in old(users)
      ensures !removed ==> users == old(users)
      ensures removed && sock !in old(users)[sock.user] ==> users == old(users)
      ensures forall i ::
        sock.user in old(users) && 0 <= i < |old(users)[sock.user]| && old(users)[sock.user][i] == sock ==>
        users == Without(old(users), sock.user, i)
    {
      if sock.user !in users { return false; }
      var conns := users[sock.user];
      var i := 0;
      while i < |conns| && conns[i] != sock
        invariant 0 <= i <= |conns| && sock !in conns[..i]
      {
        i := i + 1;
      }
      if i < |conns| {
        users := users[sock.user := conns[..i] + conns[i + 1..]];
      }
      removed := true;
    }
  }
}
