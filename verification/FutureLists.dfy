/**
 The intrusive list of futures (connection.go, futureList): a first pointer, links through
 Future.next, and a tail pointer that addresses the link holding nil.
 */
module FutureLists {
  import opened Common

  lemma DistinctSplit<T>(s: seq<T>, k: nat)
    requires Distinct(s) && k <= |s|
    ensures forall i :: 0 <= i < k ==> s[i] !in s[k..]
  {
  }

  datatype Outcome = Pending | Response | Failed

  /** What SetError makes of an outcome: a future that is already done keeps it. */
  function Ended(o: Outcome): Outcome {
    if o == Pending then Failed else o
  }

  /** The fields of Future that the lists and completion use. */
  class Future {
    const requestId: nat
    var next: Future?
    var timeout: int
    var outcome: Outcome

    constructor (requestId: nat)
      ensures this.requestId == requestId && next == null && timeout == 0 && outcome == Pending
    {
      this.requestId := requestId;
      next, timeout, outcome := null, 0, Pending;
    }

    /** SetError */
    method SetError()
      modifies this`outcome
      ensures outcome == if old(outcome) == Pending then Failed else old(outcome)
    {
      if outcome == Pending {
        outcome := Failed;
      }
    }
  }

  /** Deadlines never decrease along the list. */
  ghost predicate Sorted(futs: seq<Future>)
    reads futs
  {
    forall i, j :: 0 <= i < j < |futs| ==> futs[i].timeout <= futs[j].timeout
  }

  /** Position of the first future with the given id, or the length of the list. */
  function IndexOf(futs: seq<Future>, reqid: nat): (k: nat)
    ensures k <= |futs|
    ensures k < |futs| ==> futs[k].requestId == reqid
    ensures forall i :: 0 <= i < k ==> futs[i].requestId != reqid
  {
    if futs == [] || futs[0].requestId == reqid then 0 else 1 + IndexOf(futs[1..], reqid)
  }

  /** On a sorted list a prefix that has expired, followed by a deadline that has not, is
      exactly what has expired. */
  lemma PrefixIsExpired(futs: seq<Future>, k: nat, now: int)
    requires Distinct(futs) && Sorted(futs) && k <= |futs|
    requires forall i :: 0 <= i < k ==> futs[i].timeout < now
    requires k < |futs| ==> futs[k].timeout >= now
    ensures forall f :: f in futs ==> (f in futs[k..] <==> f.timeout >= now)
  {
    forall f | f in futs ensures f in futs[k..] <==> f.timeout >= now {
      var i :| 0 <= i < |futs| && futs[i] == f;
      if i >= k {
        assert futs[k..][i - k] == f;
      }
    }
  }

  lemma IndexIs(futs: seq<Future>, reqid: nat, k: nat)
    requires k <= |futs| && (k < |futs| ==> futs[k].requestId == reqid)
    requires forall i :: 0 <= i < k ==> futs[i].requestId != reqid
    ensures IndexOf(futs, reqid) == k
  {
  }

  class FutureList {
    var first: Future?
    var last: Future?           // null: the tail pointer addresses `first`, else `last.next`
    ghost var futs: seq<Future>

    /** The links spell `futs`, and the tail pointer addresses the nil link. */
    ghost predicate Valid()
      reads this, futs
    {
      && Distinct(futs)
      && first == (if futs == [] then null else futs[0])
      && last == (if futs == [] then null else futs[|futs| - 1])
      && (forall i {:trigger futs[i].next} :: 0 <= i < |futs| ==> futs[i].next == if i + 1 < |futs| then futs[i + 1] else null)
    }

    constructor ()
      ensures Valid() && futs == []
    {
      first, last, futs := null, null, [];
    }

    /** addFuture */
    method Add(fut: Future)
      requires Valid() && fut !in futs && fut.next == null
      modifies this, futs
      ensures Valid() && futs == old(futs) + [fut]
      ensures forall f :: f in old(futs) ==> f.timeout == old(f.timeout) && f.outcome == old(f.outcome)
    {
      if last == null {
        first := fut;
      } else {
        last.next := fut;
      }
      last := fut;
      futs := futs + [fut];
    }

    /** Unlinks element i; prev is the element before it, if any. */
    method Unlink(prev: Future?, cur: Future, ghost i: nat)
      requires Valid() && i < |futs| && cur == futs[i] && prev == if i > 0 then futs[i - 1] else null
      modifies this, futs
      ensures Valid() && futs == old(futs)[..i] + old(futs)[i + 1..] && cur.next == null && cur !in futs
      ensures forall f :: f in old(futs) ==> f.timeout == old(f.timeout) && f.outcome == old(f.outcome)
    {
      ghost var was := futs;
      assert forall j :: 0 <= j < |was| && j != i ==> was[j] != cur && (j + 1 != i ==> was[j] != prev);
      if prev == null {
        first := cur.next;
      } else {
        prev.next := cur.next;
      }
      if cur.next == null {
        last := prev;
      } else {
        cur.next := null;
      }
      futs := was[..i] + was[i + 1..];
      assert forall j :: 0 <= j < |futs| ==> futs[j] == was[if j < i then j else j + 1];
    }

    /** findFuture: the first future with this id, unlinked if fetch is set. */
    method Find(reqid: nat, fetch: bool) returns (fut: Future?)
      requires Valid()
      modifies this, futs
      ensures Valid()
      ensures var k := IndexOf(old(futs), reqid);
              if k == |old(futs)| then fut == null && futs == old(futs)
              else fut == old(futs)[k] &&
                   futs == (if fetch then old(futs)[..k] + old(futs)[k + 1..] else old(futs)) &&
                   (fetch ==> fut.next == null && fut !in futs)
      ensures forall f :: f in old(futs) ==> f.timeout == old(f.timeout) && f.outcome == old(f.outcome)
    {
      var prev: Future? := null;
      var cur := first;
      ghost var i := 0;
      while cur != null
        invariant 0 <= i <= |futs| && futs == old(futs) && Valid()
        invariant cur == if i < |futs| then futs[i] else null
        invariant prev == if i > 0 then futs[i - 1] else null
        invariant forall j :: 0 <= j < i ==> futs[j].requestId != reqid
        invariant unchanged(this) && forall f :: f in futs ==> unchanged(f)
        decreases |futs| - i
      {
        if cur.requestId == reqid {
          fut := cur;
          IndexIs(futs, reqid, i);
          if fetch {
            Unlink(prev, cur, i);
          }
          return;
        }
        assert cur == futs[i] && cur.next == if i + 1 < |futs| then futs[i + 1] else null;
        prev, cur := cur, cur.next;
        i := i + 1;
      }
      fut := null;
      IndexIs(futs, reqid, i);
    }

    /** The head leaves the list. */
    method PopHead() returns (fut: Future)
      requires Valid() && futs != []
      modifies this, futs
      ensures Valid() && futs == old(futs)[1..]
      ensures fut == old(futs)[0] && fut.next == null && fut !in futs
      ensures forall f :: f in old(futs) ==> f.timeout == old(f.timeout) && f.outcome == old(f.outcome)
    {
      ghost var was := futs;
      fut := first;
      assert forall i :: 0 < i < |was| ==> was[i] != fut;
      first := fut.next;
      if fut.next == null {
        last := null;
      } else {
        fut.next := null;
      }
      futs := was[1..];
      assert forall i :: 0 <= i < |futs| ==> futs[i] == was[i + 1];
    }

    /** One turn of the inner loop of timeouts: unlinks the head and fails it. */
    method FailHead()
      requires Valid() && futs != []
      modifies this, futs
      ensures Valid() && futs == old(futs)[1..]
      ensures var f := old(futs)[0];
              f.next == null && f.timeout == old(f.timeout) &&
              f.outcome == if old(f.outcome) == Pending then Failed else old(f.outcome)
      ensures forall f :: f in futs ==> f.outcome == old(f.outcome) && f.timeout == old(f.timeout)
    {
      var fut := PopHead();
      fut.SetError();
    }

    /** The first `marked` futures of `was`, which had these outcomes and deadlines, have been popped. */
    ghost predicate Popped(was: seq<Future>, outcomes: seq<Outcome>, deadlines: seq<int>, marked: nat, now: int)
      reads this, futs, was
    {
      && Valid() && Distinct(was) && |was| == |outcomes| == |deadlines| && marked <= |was| && futs == was[marked..]
      && (forall i {:trigger was[i].timeout} :: 0 <= i < |was| ==> was[i].timeout == deadlines[i])
      && (forall i {:trigger was[i].outcome} :: 0 <= i < |was| ==>
            was[i].outcome == if i < marked then Ended(outcomes[i]) else outcomes[i])
      && (forall i {:trigger was[i].next} :: 0 <= i < marked ==> was[i].next == null)
      && (forall i :: 0 <= i < marked ==> deadlines[i] < now)
    }

    method PopExpired(ghost was: seq<Future>, ghost outcomes: seq<Outcome>, ghost deadlines: seq<int>, ghost marked: nat,
                      now: int)
      requires Popped(was, outcomes, deadlines, marked, now) && marked < |was| && deadlines[marked] < now
      modifies this, futs
      ensures Popped(was, outcomes, deadlines, marked + 1, now)
    {
      DistinctSplit(was, marked);
      assert was[marked..][0] == was[marked] && was[marked..][1..] == was[marked + 1..];
      FailHead();
      assert forall i {:trigger was[i]} :: marked < i < |was| ==> was[i] == was[marked + 1..][i - (marked + 1)];
    }

    /** The inner loop of timeouts on one list: pops the head while it has expired, fails it
        and marks it done.  On a sorted list exactly the expired futures leave. */
    method Expire(now: int) returns (marked: nat)
      requires Valid()
      modifies this, futs
      ensures Valid() && marked <= |old(futs)| && futs == old(futs)[marked..]
      ensures forall i :: 0 <= i < |old(futs)| ==>
                var f := old(futs)[i];
                && f.timeout == old(f.timeout)
                && (if i < marked then
                      f.timeout < now && f.next == null && f.outcome == if old(f.outcome) == Pending then Failed else old(f.outcome)
                    else f.outcome == old(f.outcome))
      ensures marked < |old(futs)| ==> old(futs)[marked].timeout >= now
      ensures old(Sorted(futs)) ==> forall f :: f in old(futs) ==> (f in futs <==> f.timeout >= now)
    {
      marked := 0;
      ghost var was := futs;
      ghost var outcomes := seq(|was|, i requires 0 <= i < |was| reads was => was[i].outcome);
      ghost var deadlines := seq(|was|, i requires 0 <= i < |was| reads was => was[i].timeout);
      while first != null && first.timeout < now
        invariant Popped(was, outcomes, deadlines, marked, now)
        decreases |was| - marked
      {
        assert was[marked].timeout == deadlines[marked];
        PopExpired(was, outcomes, deadlines, marked, now);
        marked := marked + 1;
      }
      if old(Sorted(futs)) {
        PrefixIsExpired(was, marked, now);
      }
    }

    /** clear: detaches the whole list, then fails every future on it and marks it done. */
    method Clear() returns (marked: nat)
      requires Valid()
      modifies this, futs
      ensures Valid() && futs == [] && marked == |old(futs)|
      ensures forall f :: f in old(futs) ==>
                f.next == null && f.timeout == old(f.timeout) &&
                f.outcome == if old(f.outcome) == Pending then Failed else old(f.outcome)
    {
      ghost var was := futs;
      var fut := first;
      first, last, futs := null, null, [];
      marked := 0;
      while fut != null
        invariant marked <= |was| && fut == if marked < |was| then was[marked] else null
        invariant first == null && last == null && futs == []
        invariant forall i {:trigger was[i].next} :: 0 <= i < marked ==> was[i].next == null
        invariant forall i {:trigger was[i].outcome} :: 0 <= i < marked ==>
                    was[i].outcome == Ended(old(was[i].outcome))
        invariant forall i {:trigger was[i].outcome} :: marked <= i < |was| ==> was[i].outcome == old(was[i].outcome)
        invariant forall i {:trigger was[i].next} :: marked <= i < |was| ==> was[i].next == if i + 1 < |was| then was[i + 1] else null
        invariant forall i :: 0 <= i < |was| ==> was[i].timeout == old(was[i].timeout)
        decreases |was| - marked
      {
        assert forall i {:trigger was[i]} :: 0 <= i < |was| && i != marked ==> was[i] != fut;
        fut.SetError();
        var next := fut.next;
        fut.next := null;
        fut := next;
        marked := marked + 1;
      }
    }
  }

  /** No future is on both lists. */
  ghost predicate Apart(a: seq<Future>, b: seq<Future>) {
    forall i :: 0 <= i < |b| ==> b[i] !in a
  }

  /** peekFuture with a timeout, for an id without a context: the future goes to the end of its list
      with a new deadline. */
  method Refresh(list: FutureList, reqid: nat, deadline: int) returns (fut: Future?)
    requires list.Valid()
    modifies list, list.futs
    ensures list.Valid()
    ensures var k := IndexOf(old(list.futs), reqid);
            if k == |old(list.futs)| then fut == null && list.futs == old(list.futs)
            else fut == old(list.futs)[k] && fut.timeout == deadline &&
                 list.futs == old(list.futs)[..k] + old(list.futs)[k + 1..] + [fut]
    ensures forall f :: f in old(list.futs) ==>
              f.outcome == old(f.outcome) && (f != fut ==> f.timeout == old(f.timeout))
  {
    hide IndexOf;
    fut := list.Find(reqid, true);
    if fut != null {
      fut.timeout := deadline;
      list.Add(fut);
    }
  }

  /** The same for an id with a context: the future leaves its list for another one. */
  method Transfer(found: FutureList, requests: FutureList, reqid: nat, deadline: int) returns (fut: Future?)
    requires found != requests && found.Valid() && requests.Valid()
    requires Apart(found.futs, requests.futs)
    modifies found, found.futs, requests, requests.futs
    ensures found.Valid() && requests.Valid()
    ensures var k := IndexOf(old(found.futs), reqid);
            if k == |old(found.futs)| then fut == null && found.futs == old(found.futs) && requests.futs == old(requests.futs)
            else fut == old(found.futs)[k] && fut.timeout == deadline &&
                 found.futs == old(found.futs)[..k] + old(found.futs)[k + 1..] &&
                 requests.futs == old(requests.futs) + [fut]
    ensures forall f :: f in old(found.futs) ==> f.outcome == old(f.outcome) && (f != fut ==> f.timeout == old(f.timeout))
    ensures forall f :: f in old(requests.futs) ==> f.outcome == old(f.outcome) && f.timeout == old(f.timeout)
  {
    hide IndexOf;
    fut := found.Find(reqid, true);
    assert unchanged(requests) && forall i :: 0 <= i < |requests.futs| ==> unchanged(requests.futs[i]);
    assert requests.Valid();
    if fut != null {
      fut.timeout := deadline;
      requests.Add(fut);
    }
  }

  /** peekFuture: without a timeout the future stays where it is found; with one it gets a new deadline
      and goes to the end of `requests`, which for an id without a context is the list it was in. */
  method Peek(found: FutureList, requests: FutureList, reqid: nat, timeout: nat, now: int) returns (fut: Future?)
    requires found.Valid() && requests.Valid()
    requires found != requests ==> Apart(found.futs, requests.futs)
    modifies found, found.futs, requests, requests.futs
    ensures found.Valid() && requests.Valid()
    ensures var k := IndexOf(old(found.futs), reqid);
            if k == |old(found.futs)| then fut == null && found.futs == old(found.futs) && requests.futs == old(requests.futs)
            else fut == old(found.futs)[k] &&
                 if timeout == 0 then found.futs == old(found.futs) && requests.futs == old(requests.futs)
                 else
                   && fut.timeout == now + timeout
                   && var rest := old(found.futs)[..k] + old(found.futs)[k + 1..];
                      if found == requests then requests.futs == rest + [fut]
                      else found.futs == rest && requests.futs == old(requests.futs) + [fut]
    ensures forall f :: f in old(found.futs) ==>
              f.outcome == old(f.outcome) && (f != fut || timeout == 0 ==> f.timeout == old(f.timeout))
    ensures forall f :: f in old(requests.futs) ==>
              f.outcome == old(f.outcome) && (f != fut || timeout == 0 ==> f.timeout == old(f.timeout))
  {
    if timeout == 0 {
      fut := found.Find(reqid, false);
    } else if found == requests {
      fut := Refresh(found, reqid, now + timeout);
    } else {
      fut := Transfer(found, requests, reqid, now + timeout);
    }
  }
}
