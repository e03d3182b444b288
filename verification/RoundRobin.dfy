/**
 RoundRobinStrategy (connection_pool/round_robin.go): connections in insertion order, an index
 by address, and a counter that picks the next one.
 */
module RoundRobin {
  import opened Common

  /** Connections and addresses are known here by their identity only. */
  type Conn = nat
  type Addr = nat

  /** Position of addr in the list of addresses, or its length. */
  function Find(addrs: seq<Addr>, addr: Addr): (k: nat)
    ensures k <= |addrs|
    ensures k < |addrs| ==> addrs[k] == addr
    ensures k == |addrs| <==> addr !in addrs
  {
    if addrs == [] || addrs[0] == addr then 0 else 1 + Find(addrs[1..], addr)
  }

  lemma FindIs(addrs: seq<Addr>, k: nat)
    requires Distinct(addrs) && k < |addrs|
    ensures Find(addrs, addrs[k]) == k
  {
    assert Find(addrs, addrs[k]) < |addrs|;
  }

  /** s without position k. */
  ghost function Without<T>(s: seq<T>, k: nat): seq<T>
    requires k < |s|
  {
    s[..k] + s[k + 1..]
  }

  lemma WithoutAt<T>(s: seq<T>, k: nat, i: nat)
    requires k < |s| && i < |s| - 1
    ensures Without(s, k)[i] == s[if i < k then i else i + 1]
  {
  }

  lemma WithoutDistinct(addrs: seq<Addr>, k: nat)
    requires Distinct(addrs) && k < |addrs|
    ensures Distinct(Without(addrs, k))
    ensures forall a :: a in Without(addrs, k) <==> a in addrs && a != addrs[k]
  {
    var rest := Without(addrs, k);
    assert forall i :: 0 <= i < |rest| ==> rest[i] == addrs[if i < k then i else i + 1];
    forall a | a in addrs && a != addrs[k] ensures a in rest {
      var i := Find(addrs, a);
      WithoutAt(addrs, k, if i < k then i else i - 1);
    }
  }

  /** The map is a bijection from the addresses onto their positions. */
  ghost predicate Indexed(addrs: seq<Addr>, index: map<Addr, nat>) {
    && Distinct(addrs)
    && (forall a :: a in index <==> a in addrs)
    && (forall a :: a in index ==> index[a] < |addrs| && addrs[index[a]] == a)
  }

  /** The index map without addr, every position behind k one lower. */
  ghost predicate Shifted(before: map<Addr, nat>, after: map<Addr, nat>, addr: Addr, k: nat) {
    && after.Keys == before.Keys - {addr}
    && (forall a :: a in after ==> after[a] == if before[a] > k then before[a] - 1 else before[a])
  }

  /** Indexes after the deletion of position k still spell the list. */
  lemma IndexAfterDelete(addrs: seq<Addr>, before: map<Addr, nat>, after: map<Addr, nat>, k: nat)
    requires Indexed(addrs, before) && k < |addrs|
    requires Shifted(before, after, addrs[k], k)
    ensures Indexed(Without(addrs, k), after)
  {
    WithoutDistinct(addrs, k);
    forall a | a in after ensures after[a] < |addrs| - 1 && Without(addrs, k)[after[a]] == a {
      assert before[a] != k;
      WithoutAt(addrs, k, after[a]);
    }
  }

  /** One more, for an unsigned counter with w values. */
  function Increment(w: nat, c: nat): (r: nat)
    requires c < w
    ensures r < w
  {
    if c + 1 == w then 0 else c + 1
  }

  class RoundRobinStrategy {
    var conns: seq<Conn>
    var indexByAddr: map<Addr, nat>
    var size: nat
    var current: nat
    ghost var addrs: seq<Addr>        // the address of each connection

    /** indexByAddr is a bijection onto the positions of conns. */
    ghost predicate Valid()
      reads this
    {
      && |addrs| == |conns| == size
      && Indexed(addrs, indexByAddr)
      && current < TWO_TO_THE_64
    }

    constructor ()
      ensures Valid() && addrs == [] && conns == [] && current == 0
    {
      conns, indexByAddr, size, current, addrs := [], map[], 0, 0, [];
    }

    method GetConnByAddr(addr: Addr) returns (conn: Option<Conn>)
      requires Valid()
      ensures var k := Find(addrs, addr);
              conn == if k < |addrs| then Some(conns[k]) else None
    {
      if addr in indexByAddr {
        FindIs(addrs, indexByAddr[addr]);
        conn := Some(conns[indexByAddr[addr]]);
      } else {
        conn := None;
      }
    }

    /** A known address keeps its position and gets the new connection; a new one goes last. */
    method AddConn(addr: Addr, conn: Conn)
      requires Valid()
      modifies this
      ensures Valid() && current == old(current)
      ensures var k := Find(old(addrs), addr);
              if k < |old(addrs)| then addrs == old(addrs) && conns == old(conns)[k := conn]
              else addrs == old(addrs) + [addr] && conns == old(conns) + [conn]
    {
      if addr in indexByAddr {
        FindIs(addrs, indexByAddr[addr]);
        conns := conns[indexByAddr[addr] := conn];
      } else {
        conns := conns + [conn];
        indexByAddr := indexByAddr[addr := size];
        size := size + 1;
        addrs := addrs + [addr];
      }
    }

    /** The connections behind the deleted one move up; their order stays. */
    method DeleteConnByAddr(addr: Addr) returns (conn: Option<Conn>)
      requires Valid()
      modifies this
      ensures Valid() && current == old(current)
      ensures var k := Find(old(addrs), addr);
              if k < |old(addrs)| then
                conn == Some(old(conns)[k]) &&
                addrs == Without(old(addrs), k) && conns == Without(old(conns), k)
              else conn == None && addrs == old(addrs) && conns == old(conns)
    {
      if size == 0 {
        return None;
      }
      if addr !in indexByAddr {
        return None;
      }
      var index := indexByAddr[addr];
      FindIs(addrs, index);
      conn := Some(conns[index]);
      RemoveAt(addr, index);
    }

    method RemoveAt(addr: Addr, index: nat)
      requires Valid() && addr in indexByAddr && indexByAddr[addr] == index
      modifies this
      ensures Valid() && current == old(current)
      ensures addrs == Without(old(addrs), index) && conns == Without(old(conns), index)
    {
      ghost var before := indexByAddr;
      assert index < |addrs| && addrs[index] == addr;
      hide Indexed, Shifted;
      DropIndex(addr, index);
      IndexAfterDelete(addrs, before, indexByAddr, index);
      conns := conns[..index] + conns[index + 1..];
      size := size - 1;
      addrs := Without(addrs, index);
    }

    /** The map part of the deletion: the range loop visits the keys in any order. */
    method DropIndex(addr: Addr, index: nat)
      modifies this`indexByAddr
      ensures Shifted(old(indexByAddr), indexByAddr, addr, index)
    {
      ghost var before := indexByAddr;
      indexByAddr := indexByAddr - {addr};
      var keys := indexByAddr.Keys;
      while keys != {}
        invariant keys <= indexByAddr.Keys == before.Keys - {addr}
        invariant forall a :: a in indexByAddr ==>
                    indexByAddr[a] == if a !in keys && before[a] > index then before[a] - 1 else before[a]
        decreases keys
      {
        var a :| a in keys;
        if indexByAddr[a] > index {
          indexByAddr := indexByAddr[a := indexByAddr[a] - 1];
        }
        keys := keys - {a};
      }
    }

    /** nextIndex: the counter wraps at 2^64. */
    method NextIndex() returns (k: nat)
      requires Valid() && size > 0
      modifies this`current
      ensures Valid() && k == old(current) % size && current == Increment(TWO_TO_THE_64, old(current))
    {
      k := current % size;
      current := Increment(TWO_TO_THE_64, current);
    }

    method GetNextConnection() returns (conn: Option<Conn>)
      requires Valid()
      modifies this`current
      ensures Valid()
      ensures conns == [] ==> conn == None && current == old(current)
      ensures conns != [] ==>
                conn == Some(conns[old(current) % |conns|]) && current == Increment(TWO_TO_THE_64, old(current))
    {
      if size == 0 {
        return None;
      }
      var k := NextIndex();
      conn := Some(conns[k]);
    }
  }

  // ----- the strategy as a map, the form in which module Pool uses it -----

  /** The connection stored for each address. */
  ghost function View(addrs: seq<Addr>, conns: seq<Conn>): (m: map<Addr, Conn>)
    requires |addrs| == |conns|
  {
    map a | a in addrs :: conns[Find(addrs, a)]
  }

  /** AddConn updates the map. */
  lemma AddIsUpdate(addrs: seq<Addr>, conns: seq<Conn>, addr: Addr, conn: Conn)
    requires |addrs| == |conns| && Distinct(addrs)
    ensures var k := Find(addrs, addr);
            && (k < |addrs| ==> View(addrs, conns[k := conn]) == View(addrs, conns)[addr := conn])
            && (k == |addrs| ==> View(addrs + [addr], conns + [conn]) == View(addrs, conns)[addr := conn])
  {
    var k := Find(addrs, addr);
    if k < |addrs| {
      forall a | a in addrs && a != addr ensures Find(addrs, a) != k {
        assert addrs[Find(addrs, a)] == a;
      }
    } else {
      FindAppended(addrs, addr);
    }
  }

  lemma FindAppended(addrs: seq<Addr>, addr: Addr)
    requires addr !in addrs
    ensures Find(addrs + [addr], addr) == |addrs|
    ensures forall a :: a in addrs ==> Find(addrs + [addr], a) == Find(addrs, a)
  {
    if addrs != [] {
      assert (addrs + [addr])[1..] == addrs[1..] + [addr];
      FindAppended(addrs[1..], addr);
    }
  }

  /** An address that stays keeps its connection. */
  lemma FindAfterDelete(addrs: seq<Addr>, conns: seq<Conn>, k: nat, a: Addr)
    requires |addrs| == |conns| && Distinct(addrs) && k < |addrs| && a in Without(addrs, k)
    ensures a in addrs && Without(conns, k)[Find(Without(addrs, k), a)] == conns[Find(addrs, a)]
  {
    var i := Find(Without(addrs, k), a);
    WithoutAt(addrs, k, i);
    WithoutAt(conns, k, i);
    FindIs(addrs, if i < k then i else i + 1);
  }

  /** DeleteConnByAddr removes from the map. */
  lemma DeleteIsRemove(addrs: seq<Addr>, conns: seq<Conn>, addr: Addr)
    requires |addrs| == |conns| && Distinct(addrs) && addr in addrs
    ensures var k := Find(addrs, addr);
            View(Without(addrs, k), Without(conns, k)) == View(addrs, conns) - {addr}
  {
    var k := Find(addrs, addr);
    var rest := Without(addrs, k);
    WithoutDistinct(addrs, k);
    forall a | a in rest ensures View(rest, Without(conns, k))[a] == View(addrs, conns)[a] {
      FindAfterDelete(addrs, conns, k, a);
    }
  }
}
