/** The gateway's index from users to their connections (user_map.go). */
module UserMap {

  /** A connection.  `addr` is the remote address by which the index tells connections apart. */
  datatype Client = Client(connID: nat, userID: string, platformID: int, addr: string, token: string)

  type Index = map<string, seq<Client>>

  // ---------- filters ----------

  function OnPlatform(cs: seq<Client>, platformID: int): seq<Client> {
    if cs == [] then []
    else OnPlatform(cs[..|cs| - 1], platformID) + (if cs[|cs| - 1].platformID == platformID then [cs[|cs| - 1]] else [])
  }

  function Without(cs: seq<Client>, addrs: set<string>): seq<Client> {
    if cs == [] then []
    else Without(cs[..|cs| - 1], addrs) + (if cs[|cs| - 1].addr !in addrs then [cs[|cs| - 1]] else [])
  }

  function Addrs(cs: seq<Client>): set<string> {
    set i | 0 <= i < |cs| :: cs[i].addr
  }

  lemma {:induction false} OnPlatformExact(cs: seq<Client>, platformID: int)
    ensures forall c :: c in OnPlatform(cs, platformID) <==> c in cs && c.platformID == platformID
  {
    if cs != [] {
      OnPlatformExact(cs[..|cs| - 1], platformID);
      assert cs == cs[..|cs| - 1] + [cs[|cs| - 1]];
    }
  }

  ghost predicate NoRepeats(cs: seq<Client>) {
    forall i, j :: 0 <= i < j < |cs| ==> cs[i] != cs[j]
  }

  lemma {:induction false} WithoutExact(cs: seq<Client>, addrs: set<string>)
    ensures forall c :: c in Without(cs, addrs) <==> c in cs && c.addr !in addrs
    ensures NoRepeats(cs) ==> NoRepeats(Without(cs, addrs))
  {
    if cs != [] {
      WithoutExact(cs[..|cs| - 1], addrs);
      assert cs == cs[..|cs| - 1] + [cs[|cs| - 1]];
    }
  }

  // ---------- the index as a value ----------

  /** A key exists exactly when its list is not empty, and lists hold their own user's connections. */
  ghost predicate ValidIndex(m: Index) {
    forall u :: u in m ==> m[u] != [] && forall c :: c in m[u] ==> c.userID == u
  }

  function Of(m: Index, u: string): seq<Client> {
    if u in m then m[u] else []
  }

  function Added(m: Index, c: Client): Index {
    m[c.userID := Of(m, c.userID) + [c]]
  }

  function Removed(m: Index, u: string, addrs: set<string>): Index {
    if u !in m then m
    else if Without(m[u], addrs) == [] then m - {u}
    else m[u := Without(m[u], addrs)]
  }

  /** The index is a collection of connections: adding adds one, removing removes from one
      user exactly the connections with the given addresses, and nothing else changes. */
  lemma IndexIsCollection(m: Index, c: Client, u: string, addrs: set<string>)
    requires ValidIndex(m)
    ensures ValidIndex(Added(m, c)) && ValidIndex(Removed(m, u, addrs))
    ensures forall v, d :: d in Of(Added(m, c), v) <==> d in Of(m, v) || (v == c.userID && d == c)
    ensures forall v, d :: d in Of(Removed(m, u, addrs), v) <==> d in Of(m, v) && !(v == u && d.addr in addrs)
    ensures forall v :: v in m <==> Of(m, v) != []
  {
    WithoutExact(Of(m, u), addrs);
    forall v, d
      ensures d in Of(Removed(m, u, addrs), v) <==> d in Of(m, v) && !(v == u && d.addr in addrs)
    {
      if v == u && u in m {
        assert Of(Removed(m, u, addrs), u) == Without(m[u], addrs);
      }
    }
  }

  // ---------- the object ----------

  class UserMap {
    var m: Index

    constructor ()
      ensures m == map[]
    {
      m := map[];
    }

    method GetAll(key: string) returns (allClients: seq<Client>, ok: bool)
      ensures allClients == Of(m, key) && (ok <==> key in m)
    {
      ok := key in m;
      allClients := if ok then m[key] else [];
    }

    method Get(key: string, platformID: int) returns (clients: seq<Client>, userExisted: bool, clientExisted: bool)
      ensures clients == OnPlatform(Of(m, key), platformID)
      ensures (userExisted <==> key in m) && (clientExisted <==> clients != [])
    {
      if key !in m {
        return [], false, false;
      }
      clients := [];
      var allClients := m[key];
      for i := 0 to |allClients|
        invariant clients == OnPlatform(allClients[..i], platformID)
      {
        assert allClients[..i + 1][..i] == allClients[..i];
        if allClients[i].platformID == platformID {
          clients := clients + [allClients[i]];
        }
      }
      assert allClients[..|allClients|] == allClients;
      return clients, true, |clients| > 0;
    }

    method Set(key: string, v: Client)
      requires v.userID == key
      modifies this
      ensures m == Added(old(m), v)
    {
      if key in m {
        var oldClients := m[key];
        m := m[key := oldClients + [v]];
      } else {
        m := m[key := [v]];
        assert [] + [v] == [v];
      }
    }

    /** Keeps the connections of a user whose address is not listed; both ways of deleting end
        in this. */
    method Keep(key: string, addrs: set<string>) returns (isDeleteUser: bool)
      modifies this
      ensures m == Removed(old(m), key, addrs)
      ensures isDeleteUser <==> key in old(m) && key !in m
    {
      if key !in m {
        return false;
      }
      var oldClients := m[key];
      var a := [];
      for i := 0 to |oldClients|
        invariant m == old(m)
        invariant a == Without(oldClients[..i], addrs)
      {
        assert oldClients[..i + 1][..i] == oldClients[..i];
        if oldClients[i].addr !in addrs {
          a := a + [oldClients[i]];
        }
      }
      assert oldClients[..|oldClients|] == oldClients;
      if |a| == 0 {
        m := m - {key};
        return true;
      } else {
        m := m[key := a];
        return false;
      }
    }

    method Delete(key: string, connRemoteAddr: string) returns (isDeleteUser: bool)
      modifies this
      ensures m == Removed(old(m), key, {connRemoteAddr})
      ensures isDeleteUser <==> key in old(m) && key !in m
    {
      isDeleteUser := Keep(key, {connRemoteAddr});
    }

    method DeleteClients(key: string, clients: seq<Client>) returns (isDeleteUser: bool)
      modifies this
      ensures m == Removed(old(m), key, Addrs(clients))
      ensures isDeleteUser <==> key in old(m) && key !in m
    {
      var addrs := {};
      for i := 0 to |clients|
        invariant m == old(m)
        invariant addrs == Addrs(clients[..i])
      {
        addrs := addrs + {clients[i].addr};
      }
      assert clients[..|clients|] == clients;
      isDeleteUser := Keep(key, addrs);
    }
  }
}
