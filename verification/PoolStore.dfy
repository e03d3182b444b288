/**
 The three pools of a ConnectionPool (connection_pool/connection_pool.go) as RoundRobinStrategy
 objects: the methods that change them do to their maps what module Pool says in one step.
 */
module PoolStore {
  import opened Common
  import opened Pool
  import RoundRobin

  type Strategy = RoundRobin.RoundRobinStrategy

  /** A strategy as a map from address to connection. */
  ghost function MapOf(r: Strategy): map<Addr, Conn>
    reads r
    requires r.Valid()
  {
    RoundRobin.View(r.addrs, r.conns)
  }

  method Store(r: Strategy, addr: Addr, conn: Conn)
    requires r.Valid()
    modifies r
    ensures r.Valid() && MapOf(r) == old(MapOf(r))[addr := conn]
  {
    RoundRobin.AddIsUpdate(r.addrs, r.conns, addr, conn);
    r.AddConn(addr, conn);
  }

  method Take(r: Strategy, addr: Addr) returns (conn: Option<Conn>)
    requires r.Valid()
    modifies r
    ensures r.Valid() && MapOf(r) == old(MapOf(r)) - {addr}
    ensures conn == if addr in old(MapOf(r)) then Some(old(MapOf(r))[addr]) else None
  {
    ghost var addrs, conns := r.addrs, r.conns;
    if addr in addrs {
      RoundRobin.DeleteIsRemove(addrs, conns, addr);
    }
    conn := r.DeleteConnByAddr(addr);
    if addr !in addrs {
      assert MapOf(r) == old(MapOf(r)) - {addr};
    }
  }

  datatype Mode = RW | RO | Any

  /** A pool watcher with the addresses whose connection it watches. */
  datatype PoolWatcher = PoolWatcher(mode: Mode, watched: set<Addr>)

  predicate Concerns(w: PoolWatcher, role: Role) {
    match w.mode
    case RW => role == Master
    case RO => role == Replica
    case Any => true
  }

  /** The first k watchers, as far as the role concerns them, watch the address or no longer do. */
  function Watched(ws: seq<PoolWatcher>, k: nat, addr: Addr, role: Role): (r: seq<PoolWatcher>)
    ensures |r| == |ws|
  {
    seq(|ws|, i requires 0 <= i < |ws| =>
      if i < k && Concerns(ws[i], role) then ws[i].(watched := ws[i].watched + {addr}) else ws[i])
  }

  function Unwatched(ws: seq<PoolWatcher>, k: nat, addr: Addr, role: Role): (r: seq<PoolWatcher>)
    ensures |r| == |ws|
  {
    seq(|ws|, i requires 0 <= i < |ws| =>
      if i < k && Concerns(ws[i], role) then ws[i].(watched := ws[i].watched - {addr}) else ws[i])
  }

  /** No watcher watches the address. */
  function Forgotten(ws: seq<PoolWatcher>, addr: Addr): (r: seq<PoolWatcher>)
    ensures |r| == |ws|
  {
    seq(|ws|, i requires 0 <= i < |ws| => ws[i].(watched := ws[i].watched - {addr}))
  }

  /** A watcher with an entry for the address accepts it; one without has to set up a watcher of the
      connection, which fails for those in failing. */
  predicate Refuses(ws: seq<PoolWatcher>, i: nat, addr: Addr, role: Role, failing: set<nat>)
    requires i < |ws|
  {
    Concerns(ws[i], role) && addr !in ws[i].watched && i in failing
  }

  /** Every watcher watches exactly the stored connections whose role concerns it. */
  ghost predicate Follow(ws: seq<PoolWatcher>, p: Pools) {
    forall i, a :: 0 <= i < |ws| ==> (a in ws[i].watched <==> a in p.any && Concerns(ws[i], RoleIn(p, a)))
  }

  /** Then a watcher for masters watches what is in rwPool, one for replicas what is in roPool, and one for
      any role everything. */
  lemma FollowsPools(ws: seq<PoolWatcher>, p: Pools, i: nat)
    requires Follow(ws, p) && Partitioned(p) && i < |ws|
    ensures ws[i].watched == match ws[i].mode case RW => p.rw.Keys case RO => p.ro.Keys case Any => p.any.Keys
  {
    var keys := match ws[i].mode case RW => p.rw.Keys case RO => p.ro.Keys case Any => p.any.Keys;
    forall a ensures a in ws[i].watched <==> a in keys {
      assert PartOf(Get(p.any, a), Get(p.rw, a), Get(p.ro, a));
    }
  }

  lemma AddKeepsFollow(ws: seq<PoolWatcher>, p: Pools, a: Addr, k: Conn, role: Role)
    requires Follow(ws, p) && Partitioned(p) && a !in p.any
    ensures Follow(Watched(ws, |ws|, a, role), Add(p, a, k, role))
  {
    var q := Add(p, a, k, role);
    assert PartOf(Get(p.any, a), Get(p.rw, a), Get(p.ro, a));
    assert RoleIn(q, a) == role;
    forall b | b != a ensures RoleIn(q, b) == RoleIn(p, b) && (b in q.any <==> b in p.any) {}
  }

  lemma DeleteKeepsFollow(ws: seq<PoolWatcher>, p: Pools, a: Addr)
    requires Follow(ws, p) && Partitioned(p)
    ensures Follow(if a in p.any then Forgotten(ws, a) else ws, Delete(p, a))
  {
    var q := Delete(p, a);
    assert PartOf(Get(p.any, a), Get(p.rw, a), Get(p.ro, a));
    forall b | b != a ensures RoleIn(q, b) == RoleIn(p, b) && (b in q.any <==> b in p.any) {}
  }

  /** Which watchers are affected, and how. */
  lemma EachWatcher(ws: seq<PoolWatcher>, k: nat, addr: Addr, role: Role, i: nat)
    requires i < |ws|
    ensures var touched := i < k && (ws[i].mode == Any || (ws[i].mode == RW && role == Master) || (ws[i].mode == RO && role == Replica));
            && Watched(ws, k, addr, role)[i] == PoolWatcher(ws[i].mode, if touched then ws[i].watched + {addr} else ws[i].watched)
            && Unwatched(ws, k, addr, role)[i] == PoolWatcher(ws[i].mode, if touched then ws[i].watched - {addr} else ws[i].watched)
    ensures Forgotten(ws, addr)[i] == PoolWatcher(ws[i].mode, ws[i].watched - {addr})
  {
  }

  lemma UnwatchedOfWatched(ws: seq<PoolWatcher>, k: nat, a: Addr, role: Role)
    ensures Unwatched(Watched(ws, k, a, role), k, a, role) == Unwatched(ws, k, a, role)
  {
    forall i | 0 <= i < |ws| ensures Unwatched(Watched(ws, k, a, role), k, a, role)[i] == Unwatched(ws, k, a, role)[i] {
      assert ws[i].watched + {a} - {a} == ws[i].watched - {a};
    }
  }

  /** So a failed addConnection of an address that is not stored leaves every watcher as it was. */
  lemma FailureKeepsFollow(ws: seq<PoolWatcher>, p: Pools, k: nat, a: Addr, role: Role)
    requires Follow(ws, p) && a !in p.any
    ensures Unwatched(ws, k, a, role) == ws
  {
    forall i | 0 <= i < |ws| ensures Unwatched(ws, k, a, role)[i] == ws[i] {
      assert a !in ws[i].watched;
      assert ws[i].watched - {a} == ws[i].watched;
    }
  }

  class ConnectionPool {
    const anyPool: Strategy
    const rwPool: Strategy
    const roPool: Strategy
    var watchers: seq<PoolWatcher>

    ghost predicate Valid()
      reads anyPool, rwPool, roPool
    {
      && anyPool != rwPool && anyPool != roPool && rwPool != roPool
      && anyPool.Valid() && rwPool.Valid() && roPool.Valid()
    }

    ghost function State(): Pools
      reads anyPool, rwPool, roPool
      requires Valid()
    {
      Pools(MapOf(anyPool), MapOf(rwPool), MapOf(roPool))
    }

    constructor ()
      ensures Valid() && State() == Pools(map[], map[], map[])
      ensures fresh(anyPool) && fresh(rwPool) && fresh(roPool) && watchers == []
    {
      anyPool := new RoundRobin.RoundRobinStrategy();
      rwPool := new RoundRobin.RoundRobinStrategy();
      roPool := new RoundRobin.RoundRobinStrategy();
      watchers := [];
    }

    /** The connection of an address with the role under which it is stored. */
    method GetConnectionFromPool(addr: Addr) returns (conn: Option<Conn>, role: Role)
      requires Valid()
      ensures role == RoleIn(State(), addr)
      ensures addr in State().rw ==> conn == Some(State().rw[addr])
      ensures addr !in State().rw && addr in State().ro ==> conn == Some(State().ro[addr])
      ensures role == UnknownRole ==>
                conn == if addr in State().any then Some(State().any[addr]) else None
    {
      conn := rwPool.GetConnByAddr(addr);
      if conn.Some? {
        return conn, Master;
      }
      conn := roPool.GetConnByAddr(addr);
      if conn.Some? {
        return conn, Replica;
      }
      conn := anyPool.GetConnByAddr(addr);
      role := UnknownRole;
    }

    /** What is stored for the address leaves all pools and nobody watches it any more. */
    method DeleteConnection(addr: Addr)
      requires Valid()
      modifies this`watchers, anyPool, rwPool, roPool
      ensures Valid() && State() == Delete(old(State()), addr)
      ensures watchers == if addr in old(State()).any then Forgotten(old(watchers), addr) else old(watchers)
    {
      hide MapOf;
      var conn := Take(anyPool, addr);
      if conn.Some? {
        var stored := Take(rwPool, addr);
        if stored.None? {
          var _ := Take(roPool, addr);
        }
        watchers := Forgotten(watchers, addr);
      }
    }

    /** One turn of closeImpl: what is stored for the address leaves all pools, and Deactivated is
        due for it with the role under which it was stored. */
    method CloseOne(addr: Addr) returns (deactivated: Option<(Conn, Role)>)
      requires Valid()
      modifies anyPool, rwPool, roPool
      ensures Valid() && State() == Delete(old(State()), addr)
      ensures deactivated == if addr in old(State()).any then Some((old(State()).any[addr], RoleIn(old(State()), addr)))
                             else None
    {
      hide MapOf;
      deactivated := None;
      var conn := Take(anyPool, addr);
      if conn.Some? {
        var role := UnknownRole;
        var stored := Take(rwPool, addr);
        if stored.Some? {
          role := Master;
        } else {
          stored := Take(roPool, addr);
          if stored.Some? {
            role := Replica;
          }
        }
        deactivated := Some((conn.value, role));
      }
    }

    /** Either the connection is stored in anyPool and the pool of its role and the watchers of that
        role watch it, or the first watcher that refuses it undoes those before it and nothing is
        stored. */
    method AddConnection(addr: Addr, conn: Conn, role: Role, failing: set<nat>) returns (ok: bool)
      requires Valid()
      modifies this`watchers, anyPool, rwPool, roPool
      ensures Valid()
      ensures ok <==> forall i: nat :: i < |old(watchers)| ==> !Refuses(old(watchers), i, addr, role, failing)
      ensures State() == if ok then Add(old(State()), addr, conn, role) else old(State())
      ensures ok ==> watchers == Watched(old(watchers), |old(watchers)|, addr, role)
      ensures !ok ==> exists k: nat :: FirstRefusal(old(watchers), k, addr, role, failing) &&
                                       watchers == Unwatched(old(watchers), k, addr, role)
    {
      hide MapOf;
      ok := Watch(addr, role, failing);
      if !ok {
        return;
      }
      Store(anyPool, addr, conn);
      match role {
        case Master => Store(rwPool, addr, conn);
        case Replica => Store(roPool, addr, conn);
        case UnknownRole =>
      }
    }

    /** The watchers in order; the first refusal takes back those before it. */
    method Watch(addr: Addr, role: Role, failing: set<nat>) returns (ok: bool)
      modifies this`watchers
      ensures ok <==> forall i: nat :: i < |old(watchers)| ==> !Refuses(old(watchers), i, addr, role, failing)
      ensures ok ==> watchers == Watched(old(watchers), |old(watchers)|, addr, role)
      ensures !ok ==> exists k: nat :: FirstRefusal(old(watchers), k, addr, role, failing) &&
                                       watchers == Unwatched(old(watchers), k, addr, role)
    {
      ghost var was := watchers;
      var k := 0;
      while k < |watchers|
        invariant k <= |was| == |watchers|
        invariant watchers == Watched(was, k, addr, role)
        invariant forall i: nat :: i < k ==> !Refuses(was, i, addr, role, failing)
      {
        if Refuses(watchers, k, addr, role, failing) {
          assert FirstRefusal(was, k, addr, role, failing);
          UnwatchedOfWatched(was, k, addr, role);
          watchers := Unwatched(watchers, k, addr, role);
          return false;
        }
        if Concerns(watchers[k], role) {
          watchers := watchers[k := watchers[k].(watched := watchers[k].watched + {addr})];
        }
        k := k + 1;
      }
      ok := true;
    }
  }

  /** The watcher at k is the first that refuses the address. */
  ghost predicate FirstRefusal(ws: seq<PoolWatcher>, k: nat, addr: Addr, role: Role, failing: set<nat>) {
    && k < |ws| && Refuses(ws, k, addr, role, failing)
    && forall i: nat :: i < k ==> !Refuses(ws, i, addr, role, failing)
  }
}
