/**
 The sharded request table of a connection (connection.go): request ids, the choice of shard
 and slot, and the proof that the slot lists behave as one map from live id to future.
 A slot is the contents of one FutureList; its operations are those of that class.
 */
module RequestTable {
  import opened Common
  import opened FutureLists
  import Concurrency

  const REQUESTS_MAP: nat := 128

  // ----- request ids -----

  type Id = id: nat | id < TWO_TO_THE_32

  /** nextRequestId: AddUint32(&counter, 2), which wraps at 2^32. */
  function NextId(counter: Id): Id {
    if counter + 2 < TWO_TO_THE_32 then counter + 2 else counter + 2 - TWO_TO_THE_32
  }

  function IdAfter(counter: Id, calls: nat): Id {
    if calls == 0 then counter else NextId(IdAfter(counter, calls - 1))
  }

  lemma NextKeepsParity(counter: Id)
    ensures NextId(counter) % 2 == counter % 2
  {
  }

  /** Ids of requests without a context stay even and ids with a context stay odd, through any
      number of wrap-arounds of the counters that Connect sets to 0 and 1. */
  lemma {:induction false} ParitySurvivesWrap(calls: nat)
    ensures IdAfter(0, calls) % 2 == 0 && IdAfter(1, calls) % 2 == 1
    ensures !HasContext(IdAfter(0, calls)) && HasContext(IdAfter(1, calls))
  {
    if calls > 0 {
      ParitySurvivesWrap(calls - 1);
      NextKeepsParity(IdAfter(0, calls - 1));
      NextKeepsParity(IdAfter(1, calls - 1));
    }
  }

  /** After so many calls the counter has gone round some whole number of times. */
  lemma {:induction false} IdAfterIs(counter: Id, calls: nat) returns (turns: nat)
    ensures IdAfter(counter, calls) == counter + 2 * calls - TWO_TO_THE_32 * turns
  {
    turns := 0;
    if calls > 0 {
      turns := IdAfterIs(counter, calls - 1);
      if IdAfter(counter, calls - 1) + 2 >= TWO_TO_THE_32 {
        turns := turns + 1;
      }
    }
  }

  /** An id comes back exactly after every 2^31 further requests of its kind. */
  lemma IdsRepeatLate(counter: Id, calls: nat)
    ensures IdAfter(counter, calls) == counter <==> calls % 0x8000_0000 == 0
  {
    var turns := IdAfterIs(counter, calls);
    WholeTurns(counter, IdAfter(counter, calls), calls, turns);
  }

  /** The ids of any two requests of a kind differ if fewer than 2^31 of that kind come between. */
  lemma LiveIdsDistinct(counter: Id, i: nat, j: nat)
    requires i < j < i + 0x8000_0000
    ensures IdAfter(counter, i) != IdAfter(counter, j)
  {
    IdAfterSplit(counter, i, j - i);
    IdsRepeatLate(IdAfter(counter, i), j - i);
  }

  lemma {:induction false} IdAfterSplit(counter: Id, a: nat, b: nat)
    ensures IdAfter(counter, a + b) == IdAfter(IdAfter(counter, a), b)
  {
    if b > 0 {
      IdAfterSplit(counter, a, b - 1);
      assert a + b - 1 == a + (b - 1);
    }
  }

  lemma WholeTurns(a: Id, b: Id, calls: nat, turns: nat)
    requires b == a + 2 * calls - TWO_TO_THE_32 * turns
    ensures b == a <==> calls % 0x8000_0000 == 0
  {
    var rest := calls % 0x8000_0000;
    var q := calls / 0x8000_0000;
    assert calls == 0x8000_0000 * q + rest;
    assert b - a == TWO_TO_THE_32 * (q - turns) + 2 * rest;
  }

  // ----- shards and slots -----

  predicate HasContext(id: nat) {
    id % 2 == 1
  }

  /** Index of the `requests` slot of an id; slots are numbered shard by shard. */
  function BaseSlot(c: nat, id: nat): (k: nat)
    requires c != 0
    ensures k < c * REQUESTS_MAP
  {
    var shard := id % c;
    var pos := (id / c) % REQUESTS_MAP;
    assert shard * REQUESTS_MAP <= (c - 1) * REQUESTS_MAP;
    shard * REQUESTS_MAP + pos
  }

  /** The masks of the source give the same slot for every power of two c; `quotient` is the word
      that dividing id by c gives. */
  lemma SlotOfWords(c: bv32, id: bv32, quotient: bv32)
    requires Concurrency.IsPowerOfTwo(c)
    requires Concurrency.Value(c) > 0
    requires Concurrency.Value(quotient) == Concurrency.Value(id) / Concurrency.Value(c)
    ensures BaseSlot(Concurrency.Value(c), Concurrency.Value(id)) ==
              Concurrency.Value(id & (c - 1)) * REQUESTS_MAP + Concurrency.Value(quotient & (128 - 1))
  {
    Concurrency.MaskIsRemainder(id, c);
    Concurrency.MaskIsRemainder(quotient, 128);
    assert Concurrency.Value(128) == REQUESTS_MAP by {
      Concurrency.ValueOf128();
    }
  }

  /** The slot in which getFutureImp looks for an id: `requestsWithCtx` follows `requests`. */
  function SlotOf(c: nat, id: nat): (k: nat)
    requires c != 0
    ensures k < 2 * (c * REQUESTS_MAP)
  {
    BaseSlot(c, id) + if HasContext(id) then c * REQUESTS_MAP else 0
  }

  type Slots = seq<seq<Future>>

  ghost predicate WellFormed(c: nat, slots: Slots) {
    c != 0 && |slots| == 2 * (c * REQUESTS_MAP)
  }

  /** getFutureImp(id, false) */
  function Lookup(c: nat, slots: Slots, id: nat): Option<Future>
    requires WellFormed(c, slots)
  {
    var slot := slots[SlotOf(c, id)];
    var k := IndexOf(slot, id);
    if k < |slot| then Some(slot[k]) else None
  }

  /** newFuture's addFuture */
  function Register(c: nat, slots: Slots, fut: Future): Slots
    requires WellFormed(c, slots)
  {
    var k := SlotOf(c, fut.requestId);
    slots[k := slots[k] + [fut]]
  }

  /** fetchFuture */
  function Fetch(c: nat, slots: Slots, id: nat): Slots
    requires WellFormed(c, slots)
  {
    var n := SlotOf(c, id);
    var k := IndexOf(slots[n], id);
    if k < |slots[n]| then slots[n := slots[n][..k] + slots[n][k + 1..]] else slots
  }

  /** peekFuture: with a timeout the future is fetched and appended to `requests`. */
  function Peek(c: nat, slots: Slots, id: nat, timeout: bool): Slots
    requires WellFormed(c, slots)
  {
    match Lookup(c, slots, id)
    case None => slots
    case Some(fut) =>
      if timeout then
        var rest := Fetch(c, slots, id);
        rest[BaseSlot(c, id) := rest[BaseSlot(c, id)] + [fut]]
      else slots
  }

  function ClearAll(slots: Slots): Slots {
    seq(|slots|, _ => [])
  }

  // ----- the table is a map -----

  ghost predicate UniqueIds(slot: seq<Future>) {
    forall i, j :: 0 <= i < j < |slot| ==> slot[i].requestId != slot[j].requestId
  }

  /** The slots hold exactly the futures of m, each in the slot of its id. */
  ghost predicate Represents(c: nat, slots: Slots, m: map<nat, Future>) {
    && WellFormed(c, slots)
    && (forall k :: 0 <= k < |slots| ==> UniqueIds(slots[k]))
    && (forall k, fut :: 0 <= k < |slots| && fut in slots[k] ==> SlotOf(c, fut.requestId) == k)
    && (forall id :: id in m ==> m[id].requestId == id && m[id] in slots[SlotOf(c, id)])
    && (forall k, fut :: 0 <= k < |slots| && fut in slots[k] ==> fut.requestId in m)
  }

  lemma SlotFind(slot: seq<Future>, fut: Future)
    requires UniqueIds(slot) && fut in slot
    ensures IndexOf(slot, fut.requestId) < |slot| && slot[IndexOf(slot, fut.requestId)] == fut
  {
    var i :| 0 <= i < |slot| && slot[i] == fut;
    IndexIs(slot, fut.requestId, i);
  }

  /** Lookup reads the map. */
  lemma LookupIsMap(c: nat, slots: Slots, m: map<nat, Future>, id: nat)
    requires Represents(c, slots, m)
    ensures Lookup(c, slots, id) == if id in m then Some(m[id]) else None
  {
    if id in m {
      SlotFind(slots[SlotOf(c, id)], m[id]);
    }
  }

  /** A map is determined by the slots. */
  lemma ViewIsUnique(c: nat, slots: Slots, m: map<nat, Future>, m': map<nat, Future>)
    requires Represents(c, slots, m) && Represents(c, slots, m')
    ensures m == m'
  {
    forall id ensures id in m <==> id in m' {
      LookupIsMap(c, slots, m, id);
      LookupIsMap(c, slots, m', id);
    }
    forall id | id in m && id in m' ensures m[id] == m'[id] {
      LookupIsMap(c, slots, m, id);
      LookupIsMap(c, slots, m', id);
    }
  }

  /** Registration adds one entry to the map exactly if the id is not live. */
  lemma RegisterIsUpdate(c: nat, slots: Slots, m: map<nat, Future>, fut: Future)
    requires Represents(c, slots, m)
    ensures Represents(c, Register(c, slots, fut), m[fut.requestId := fut]) <==> fut.requestId !in m
  {
    if fut.requestId in m {
      var n := SlotOf(c, fut.requestId);
      var slot, after := slots[n], Register(c, slots, fut)[n];
      SlotFind(slot, m[fut.requestId]);
      var k := IndexOf(slot, fut.requestId);
      assert after[k].requestId == after[|slot|].requestId;
    }
  }

  /** What every id finds after a registration: a new future with a live id is found by no lookup
      before the one that has it is gone. */
  lemma RegisterFinds(c: nat, slots: Slots, m: map<nat, Future>, fut: Future, id: nat)
    requires Represents(c, slots, m)
    ensures Lookup(c, Register(c, slots, fut), id) ==
              if id == fut.requestId && id !in m then Some(fut) else Lookup(c, slots, id)
  {
    LookupIsMap(c, slots, m, id);
    var slot := slots[SlotOf(c, id)];
    var k := IndexOf(slot, id);
    if id == fut.requestId {
      IndexIs(slot + [fut], id, k);
    } else {
      IndexOfAppended(slot, fut, id);
    }
  }

  lemma FetchIsRemove(c: nat, slots: Slots, m: map<nat, Future>, id: nat)
    requires Represents(c, slots, m)
    ensures Represents(c, Fetch(c, slots, id), m - {id})
  {
    hide SlotOf, IndexOf;
    var n := SlotOf(c, id);
    var k := IndexOf(slots[n], id);
    if k < |slots[n]| {
      SlotWithout(slots[n], k);
    }
  }

  lemma SlotWithout(slot: seq<Future>, k: nat)
    requires UniqueIds(slot) && k < |slot|
    ensures var rest := slot[..k] + slot[k + 1..];
            UniqueIds(rest) &&
            forall fut :: fut in rest <==> fut in slot && fut.requestId != slot[k].requestId
  {
    var rest := slot[..k] + slot[k + 1..];
    assert forall i :: 0 <= i < |rest| ==> rest[i] == slot[if i < k then i else i + 1];
    forall i | 0 <= i < |slot| && i != k ensures slot[i] in rest {
      assert slot[i] == rest[if i < k then i else i - 1];
    }
  }

  lemma ClearIsEmpty(c: nat, slots: Slots)
    requires WellFormed(c, slots)
    ensures Represents(c, ClearAll(slots), map[])
  {
  }

  /** A push to a request without a context, or without a timeout, leaves the map alone. */
  lemma PeekIsRead(c: nat, slots: Slots, m: map<nat, Future>, id: nat, timeout: bool)
    requires Represents(c, slots, m) && (!timeout || !HasContext(id))
    ensures Represents(c, Peek(c, slots, id, timeout), m)
  {
    LookupIsMap(c, slots, m, id);
    if id in m && timeout {
      FetchIsRemove(c, slots, m, id);
      RegisterIsUpdate(c, Fetch(c, slots, id), m - {id}, m[id]);
      assert (m - {id})[id := m[id]] == m;
    }
  }

  /** A push to a live request keeps it findable exactly if the request has no context or no
      timeout is set; in the other case the future stays in a list where no id leads to it. */
  lemma PeekKeepsFindable(c: nat, slots: Slots, m: map<nat, Future>, id: nat, timeout: bool)
    requires Represents(c, slots, m) && id in m
    ensures var after := Peek(c, slots, id, timeout);
            && (Lookup(c, after, id) == Some(m[id]) <==> !timeout || !HasContext(id))
            && (timeout && HasContext(id) ==> Lookup(c, after, id) == None && m[id] in after[BaseSlot(c, id)])
  {
    LookupIsMap(c, slots, m, id);
    if timeout && HasContext(id) {
      var rest := Fetch(c, slots, id);
      FetchIsRemove(c, slots, m, id);
      LookupIsMap(c, rest, m - {id}, id);
      assert BaseSlot(c, id) != SlotOf(c, id);
    } else {
      PeekIsRead(c, slots, m, id, timeout);
      LookupIsMap(c, Peek(c, slots, id, timeout), m, id);
    }
  }

  /** A request with a context is lost to the first push when a timeout is set. */
  lemma PushLosesContextRequest(c: nat, slots: Slots, fut: Future)
    requires WellFormed(c, slots) && fut.requestId == 1
    ensures var table := Register(c, ClearAll(slots), fut);
            Lookup(c, table, 1) == Some(fut) && Lookup(c, Peek(c, table, 1, true), 1) == None
  {
    var table := Register(c, ClearAll(slots), fut);
    ClearIsEmpty(c, slots);
    RegisterIsUpdate(c, ClearAll(slots), map[], fut);
    LookupIsMap(c, table, map[1 := fut], 1);
    PeekKeepsFindable(c, table, map[1 := fut], 1, true);
  }

  /** The 2^31-th further request of a kind gets the id of the first one again: while that one is live,
      the table has no place for the new one in its map, and no lookup finds it. */
  lemma RepeatedIdIsShadowed(c: nat, slots: Slots, a: Future, b: Future)
    requires WellFormed(c, slots) && a != b
    requires a.requestId == IdAfter(0, 1) && b.requestId == IdAfter(0, 1 + 0x8000_0000)
    ensures b.requestId == a.requestId
    ensures var table := Register(c, Register(c, ClearAll(slots), a), b);
            Lookup(c, table, b.requestId) == Some(a) &&
            !Represents(c, table, map[a.requestId := a][b.requestId := b])
  {
    IdAfterSplit(0, 1, 0x8000_0000);
    IdsRepeatLate(IdAfter(0, 1), 0x8000_0000);
    var one := Register(c, ClearAll(slots), a);
    ClearIsEmpty(c, slots);
    RegisterIsUpdate(c, ClearAll(slots), map[], a);
    assert map[][a.requestId := a] == map[a.requestId := a];
    RegisterIsUpdate(c, one, map[a.requestId := a], b);
    RegisterFinds(c, one, map[a.requestId := a], b, b.requestId);
    LookupIsMap(c, one, map[a.requestId := a], b.requestId);
  }

  lemma IndexOfAppended(slot: seq<Future>, fut: Future, id: nat)
    requires fut.requestId != id
    ensures IndexOf(slot + [fut], id) == if IndexOf(slot, id) < |slot| then IndexOf(slot, id) else |slot| + 1
  {
    var k := IndexOf(slot, id);
    IndexIs(slot + [fut], id, if k < |slot| then k else |slot| + 1);
  }

  /** Even then every other id is looked up as before. */
  lemma PeekSparesOthers(c: nat, slots: Slots, m: map<nat, Future>, id: nat, timeout: bool, other: nat)
    requires Represents(c, slots, m) && other != id
    ensures Lookup(c, Peek(c, slots, id, timeout), other) == Lookup(c, slots, other)
  {
    LookupIsMap(c, slots, m, id);
    if id in m && timeout {
      var rest := Fetch(c, slots, id);
      FetchIsRemove(c, slots, m, id);
      LookupIsMap(c, slots, m, other);
      LookupIsMap(c, rest, m - {id}, other);
      IndexOfAppended(rest[BaseSlot(c, id)], m[id], other);
    }
  }
}
