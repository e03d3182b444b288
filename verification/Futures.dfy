/**
 Future and its response iterator (future.go).  Responses and errors are known by their identity.
 The iterator runs beside the goroutines that fill the future: each time its loop waits, other
 goroutines act first.
 */
module Futures {
  import opened Common

  type Response = nat
  type Error = nat

  /** What another goroutine may do to the future, atomic under its mutex. */
  datatype Act = AppendPush(push: Response) | SetResponse(resp: Response) | SetError(err: Error)

  /** ready counts the unread wake-ups; done stands for both channels being closed. */
  datatype Contents = Contents(pushes: seq<Response>, resp: Option<Response>, err: Option<Error>, ready: nat, done: bool)

  function Acted(c: Contents, act: Act): Contents {
    if c.done then c
    else match act
      case AppendPush(push) => c.(pushes := c.pushes + [push], ready := c.ready + 1)
      case SetResponse(resp) => c.(resp := Some(resp), done := true)
      case SetError(err) => c.(err := Some(err), done := true)
  }

  function ActedAll(c: Contents, acts: seq<Act>): Contents
    decreases |acts|
  {
    if acts == [] then c else ActedAll(Acted(c, acts[0]), acts[1..])
  }

  /** Everything the future has for an iterator, in order. */
  function Stream(c: Contents): seq<Response> {
    c.pushes + if c.resp.Some? then [c.resp.value] else []
  }

  ghost predicate Consistent(c: Contents) {
    && (c.resp.Some? || c.err.Some? <==> c.done)
    && !(c.resp.Some? && c.err.Some?)
  }

  class Future {
    var pushes: seq<Response>
    var resp: Option<Response>
    var err: Option<Error>
    var ready: nat             // wake-ups in the channel
    var readyClosed: bool
    var doneClosed: bool

    ghost predicate Valid()
      reads this
    {
      readyClosed == doneClosed && Consistent(State())
    }

    ghost function State(): Contents
      reads this
    {
      Contents(pushes, resp, err, ready, doneClosed)
    }

    /** NewFuture. */
    constructor ()
      ensures Valid() && State() == Contents([], None, None, 0, false)
    {
      pushes, resp, err, ready, readyClosed, doneClosed := [], None, None, 0, false, false;
    }

    /** A send on a closed channel panics. */
    method Wake()
      requires !readyClosed
      modifies this`ready
      ensures ready == old(ready) + 1
    {
      ready := ready + 1;
    }

    /** A second close of a channel panics. */
    method Finish()
      requires !readyClosed && !doneClosed
      modifies this`readyClosed, this`doneClosed
      ensures readyClosed && doneClosed
    {
      readyClosed := true;
      doneClosed := true;
    }

    method AppendPush(push: Response)
      requires Valid()
      modifies this
      ensures Valid() && State() == Acted(old(State()), Act.AppendPush(push))
    {
      if doneClosed {
        return;
      }
      pushes := pushes + [push];
      Wake();
    }

    method SetResponse(response: Response)
      requires Valid()
      modifies this
      ensures Valid() && State() == Acted(old(State()), Act.SetResponse(response))
    {
      if doneClosed {
        return;
      }
      resp := Some(response);
      Finish();
    }

    method SetError(error: Error)
      requires Valid()
      modifies this
      ensures Valid() && State() == Acted(old(State()), Act.SetError(error))
    {
      if doneClosed {
        return;
      }
      err := Some(error);
      Finish();
    }

    predicate CanReceive()
      reads this
      ensures CanReceive() <==> ready > 0 || readyClosed
    {
      ready > 0 || readyClosed
    }

    /** A receive takes a wake-up; a closed channel without any gives way at once. */
    method Receive()
      requires Valid() && CanReceive()
      modifies this`ready
      ensures Valid() && State() == Woken(old(State()))
    {
      if ready > 0 {
        ready := ready - 1;
      }
    }

    method PerformAll(acts: seq<Act>)
      requires Valid()
      modifies this
      ensures Valid() && State() == ActedAll(old(State()), acts)
    {
      var i := 0;
      while i < |acts|
        invariant i <= |acts| && Valid()
        invariant ActedAll(State(), acts[i..]) == ActedAll(old(State()), acts)
      {
        assert acts[i..][1..] == acts[i + 1..];
        match acts[i] {
          case AppendPush(push) => AppendPush(push);
          case SetResponse(response) => SetResponse(response);
          case SetError(error) => SetError(error);
        }
        i := i + 1;
      }
    }
  }

  // ----- the iterator -----

  /** Why the iterator stopped: the future's error, or a body that does not decode. */
  datatype Fault = FromFuture(err: Error) | Undecodable(response: Response)

  datatype Cursor = Cursor(curPos: nat, resp: Option<Response>, err: Option<Fault>, done: bool)

  /** One wait of the loop: what the others do meanwhile, and whether the timer fires first. */
  datatype Round = Round(acts: seq<Act>, timer: bool)

  /** What a call of Next sees: zero timeout or not, its waits, and whether the body decodes. */
  datatype Call = Call(zeroTimeout: bool, rounds: seq<Round>, decodes: bool)

  function At(c: Contents, curPos: nat): Option<Response> {
    if curPos < |c.pushes| then Some(c.pushes[curPos])
    else if curPos == |c.pushes| then c.resp
    else None
  }

  function AsFault(err: Option<Error>): Option<Fault> {
    if err.Some? then Some(FromFuture(err.value)) else None
  }

  /** The critical section of the loop. */
  function Looked(c: Contents, it: Cursor): Cursor {
    it.(resp := At(c, it.curPos), err := AsFault(c.err))
  }

  predicate CanWake(c: Contents) {
    c.ready > 0 || c.done
  }

  function Woken(c: Contents): Contents {
    if c.ready > 0 then c.(ready := c.ready - 1) else c
  }

  /** Future and iterator after the loop of Next. */
  function Awaited(c: Contents, it: Cursor, zeroTimeout: bool, rounds: seq<Round>): (Contents, Cursor)
    decreases |rounds|
  {
    var seen := Looked(c, it);
    if zeroTimeout || seen.resp.Some? || seen.err.Some? || rounds == [] then (c, seen)
    else
      var acted := ActedAll(c, rounds[0].acts);
      if rounds[0].timer || !CanWake(acted) then (acted, seen)
      else Awaited(Woken(acted), seen, zeroTimeout, rounds[1..])
  }

  /** The part of Next behind the loop, and whether it returns true. */
  function Delivered(c: Contents, it: Cursor, decodes: bool): (Cursor, bool) {
    if it.resp.None? then (it, false)
    else if !decodes then (it.(err := Some(Undecodable(it.resp.value)), resp := None), false)
    else if it.resp == c.resp then (it.(err := None, done := true), true)
    else (it.(err := None, curPos := it.curPos + 1), true)
  }

  function AfterNext(c: Contents, it: Cursor, call: Call): (Contents, Cursor, bool) {
    if it.done || it.err.Some? then (c, it.(resp := None), false)
    else
      var (c1, it1) := Awaited(c, it, call.zeroTimeout, call.rounds);
      var (it2, ok) := Delivered(c1, it1, call.decodes);
      (c1, it2, ok)
  }

  class AsyncResponseIterator {
    const fut: Future
    var curPos: nat
    var resp: Option<Response>
    var err: Option<Fault>
    var done: bool

    ghost function State(): Cursor
      reads this
    {
      Cursor(curPos, resp, err, done)
    }

    constructor (fut: Future)
      ensures this.fut == fut && State() == Cursor(0, None, None, false)
    {
      this.fut, curPos, resp, err, done := fut, 0, None, None, false;
    }

    method NextResponse() returns (r: Option<Response>)
      ensures r == At(fut.State(), curPos)
    {
      r := None;
      var pushesLen := |fut.pushes|;
      if curPos < pushesLen {
        r := Some(fut.pushes[curPos]);
      } else if curPos == pushesLen {
        r := fut.resp;
      }
    }

    method Next(call: Call) returns (ok: bool)
      requires fut.Valid()
      modifies this, fut
      ensures fut.Valid()
      ensures (fut.State(), State(), ok) == AfterNext(old(fut.State()), old(State()), call)
    {
      if done || err.Some? {
        resp := None;
        return false;
      }
      var last := Await(call.zeroTimeout, call.rounds);
      if resp.None? {
        return false;
      }
      if !call.decodes {
        err := Some(Undecodable(resp.value));
        resp := None;
        return false;
      }
      err := None;
      if last {
        done := true;
      } else {
        curPos := curPos + 1;
      }
      return true;
    }

    /** Looks at the future until there is a response or an error, or the time is up; last says
        whether the response seen is the final one. */
    method Await(zeroTimeout: bool, rounds: seq<Round>) returns (last: bool)
      requires fut.Valid()
      modifies this`resp, this`err, fut
      ensures fut.Valid()
      ensures (fut.State(), State()) == Awaited(old(fut.State()), old(State()), zeroTimeout, rounds)
      ensures resp.Some? ==> last == (resp == fut.resp)
    {
      ghost var c0, it0 := fut.State(), State();
      var i := 0;
      var exit := false;
      last := false;
      while !exit
        invariant i <= |rounds| && fut.Valid()
        invariant exit ==> resp.None? && (fut.State(), State()) == Awaited(c0, it0, zeroTimeout, rounds)
        invariant !exit ==> Awaited(fut.State(), State(), zeroTimeout, rounds[i..]) == Awaited(c0, it0, zeroTimeout, rounds)
        decreases !exit, |rounds| - i
      {
        resp := NextResponse();
        err := AsFault(fut.err);
        last := resp == fut.resp;
        if zeroTimeout || resp.Some? || err.Some? || i == |rounds| {
          break;
        }
        var round := rounds[i];
        assert rounds[i..][0] == round && rounds[i..][1..] == rounds[i + 1..];
        fut.PerformAll(round.acts);
        i := i + 1;
        if round.timer || !fut.CanReceive() {
          exit := true;
        } else {
          fut.Receive();
        }
      }
    }
  }

  // ----- runs -----

  /** The future, one iterator of it, and the values its calls of Next have yielded so far. */
  datatype System = System(c: Contents, it: Cursor, yielded: seq<Response>)

  datatype Event = Other(act: Act) | Next(call: Call)

  const FRESH := System(Contents([], None, None, 0, false), Cursor(0, None, None, false), [])

  function Step(s: System, e: Event): System {
    match e
    case Other(act) => s.(c := Acted(s.c, act))
    case Next(call) =>
      var (c, it, ok) := AfterNext(s.c, s.it, call);
      System(c, it, if ok && it.resp.Some? then s.yielded + [it.resp.value] else s.yielded)
  }

  function Run(s: System, events: seq<Event>): System
    decreases |events|
  {
    if events == [] then s else Run(Step(s, events[0]), events[1..])
  }

  /** The iterator has yielded the stream up to its position and stopped for a good reason. */
  ghost predicate Inv(s: System) {
    && Consistent(s.c)
    && s.it.curPos <= |s.c.pushes|
    && (if s.it.done then
          s.it.curPos < |Stream(s.c)| && s.c.resp == Some(Stream(s.c)[s.it.curPos]) && s.yielded == Stream(s.c)[..s.it.curPos + 1]
        else s.yielded == s.c.pushes[..s.it.curPos])
    && (s.it.err.Some? ==> !s.it.done && Stopped(s.c, s.it.curPos, s.it.err.value))
  }

  ghost predicate Stopped(c: Contents, curPos: nat, fault: Fault) {
    match fault
    case FromFuture(err) => curPos == |c.pushes| && c.err == Some(err)
    case Undecodable(response) => At(c, curPos) == Some(response)
  }

  /** What the others do only adds to the stream, and nothing once the future is done. */
  ghost predicate Grown(c: Contents, d: Contents) {
    && Consistent(d)
    && c.pushes <= d.pushes
    && (c.done ==> d == c.(ready := d.ready))
  }

  lemma ActedGrows(c: Contents, act: Act)
    requires Consistent(c)
    ensures Grown(c, Acted(c, act))
  {
  }

  lemma {:induction false} ActedAllGrows(c: Contents, acts: seq<Act>)
    requires Consistent(c)
    ensures Grown(c, ActedAll(c, acts))
    decreases |acts|
  {
    if acts != [] {
      ActedGrows(c, acts[0]);
      ActedAllGrows(Acted(c, acts[0]), acts[1..]);
    }
  }

  lemma {:induction false} AwaitedGrows(c: Contents, it: Cursor, zeroTimeout: bool, rounds: seq<Round>)
    requires Consistent(c) && it.curPos <= |c.pushes|
    ensures var (c1, it1) := Awaited(c, it, zeroTimeout, rounds);
            && Grown(c, c1) && it1.curPos == it.curPos && it1.done == it.done
            && (it1.resp.Some? ==> it1.resp == At(c1, it.curPos))
            && (it1.resp.None? && it1.err.Some? ==> it.curPos == |c1.pushes| && it1.err == AsFault(c1.err))
    decreases |rounds|
  {
    var seen := Looked(c, it);
    if !(zeroTimeout || seen.resp.Some? || seen.err.Some? || rounds == []) {
      ActedAllGrows(c, rounds[0].acts);
      var acted := ActedAll(c, rounds[0].acts);
      if !(rounds[0].timer || !CanWake(acted)) {
        AwaitedGrows(Woken(acted), seen, zeroTimeout, rounds[1..]);
      }
    }
  }

  lemma GrownKeepsInv(s: System, d: Contents)
    requires Inv(s) && Grown(s.c, d)
    ensures Inv(s.(c := d))
  {
  }

  lemma DeliveredKeepsInv(s: System, it: Cursor, decodes: bool)
    requires Inv(s) && !s.it.done && s.it.err.None?
    requires it == s.it.(resp := it.resp, err := it.err)
    requires if it.resp.Some? then it.resp == At(s.c, it.curPos)
             else it.err.Some? ==> it.curPos == |s.c.pushes| && it.err == AsFault(s.c.err)
    ensures var (it2, ok) := Delivered(s.c, it, decodes);
            Inv(System(s.c, it2, if ok && it2.resp.Some? then s.yielded + [it2.resp.value] else s.yielded))
  {
  }

  lemma StepKeepsInv(s: System, e: Event)
    requires Inv(s)
    ensures Inv(Step(s, e)) && Grown(s.c, Step(s, e).c)
  {
    match e
    case Other(act) =>
      ActedGrows(s.c, act);
      GrownKeepsInv(s, Acted(s.c, act));
    case Next(call) =>
      if !s.it.done && s.it.err.None? {
        AwaitedGrows(s.c, s.it, call.zeroTimeout, call.rounds);
        var (c1, it1) := Awaited(s.c, s.it, call.zeroTimeout, call.rounds);
        GrownKeepsInv(s, c1);
        DeliveredKeepsInv(s.(c := c1), it1, call.decodes);
      }
  }

  lemma {:induction false} RunKeepsInv(s: System, events: seq<Event>)
    requires Inv(s)
    ensures Inv(Run(s, events)) && Grown(s.c, Run(s, events).c)
    decreases |events|
  {
    if events != [] {
      StepKeepsInv(s, events[0]);
      RunKeepsInv(Step(s, events[0]), events[1..]);
    }
  }

  // ----- what every run shows -----

  /** The values yielded are a prefix of the pushes followed by the response. */
  lemma YieldsPrefix(events: seq<Event>)
    ensures var s := Run(FRESH, events);
            s.yielded <= Stream(s.c)
  {
    RunKeepsInv(FRESH, events);
  }

  /** The error of the future shows only when every push has been yielded. */
  lemma ErrorAfterAllPushes(events: seq<Event>)
    ensures var s := Run(FRESH, events);
            s.it.err.Some? && s.it.err.value.FromFuture? ==>
              s.yielded == s.c.pushes && s.c.err == Some(s.it.err.value.err) && s.c.done
  {
    RunKeepsInv(FRESH, events);
  }

  /** An iterator that is done has yielded everything, unless the response was also a push. */
  lemma DoneMeansAll(events: seq<Event>)
    ensures var s := Run(FRESH, events);
            s.it.done ==>
              && s.c.resp.Some?
              && (s.c.resp.value !in s.c.pushes ==> s.yielded == s.c.pushes + [s.c.resp.value])
  {
    RunKeepsInv(FRESH, events);
  }

  /** A stopped iterator never yields again, whatever happens. */
  lemma {:induction false} StoppedForGood(s: System, events: seq<Event>)
    requires s.it.done || s.it.err.Some?
    ensures Run(s, events).yielded == s.yielded
    ensures Run(s, events).it.done == s.it.done && Run(s, events).it.err == s.it.err
    decreases |events|
  {
    if events != [] {
      StoppedForGood(Step(s, events[0]), events[1..]);
    }
  }

  /** A call with something left to yield yields the next element of the stream at once. */
  lemma NextTakesNext(s: System, call: Call)
    requires Inv(s) && !s.it.done && s.it.err.None? && |s.yielded| < |Stream(s.c)| && call.decodes
    ensures Step(s, Next(call)).yielded == s.yielded + [Stream(s.c)[|s.yielded|]]
    ensures Step(s, Next(call)).c == s.c && Step(s, Next(call)).it.err.None?
  {
  }

  lemma {:induction false} ArrivalWakes(c: Contents, acts: seq<Act>)
    requires Consistent(c) && !c.done
    ensures |Stream(ActedAll(c, acts))| > |Stream(c)| ==> CanWake(ActedAll(c, acts))
    ensures |c.pushes| < |ActedAll(c, acts).pushes| ==> ActedAll(c, acts).ready > 0
    ensures c.ready <= ActedAll(c, acts).ready
    decreases |acts|
  {
    if acts != [] {
      var d := Acted(c, acts[0]);
      if !d.done {
        ArrivalWakes(d, acts[1..]);
      } else {
        DoneStays(d, acts[1..]);
      }
    }
  }

  lemma {:induction false} DoneStays(c: Contents, acts: seq<Act>)
    requires c.done
    ensures ActedAll(c, acts) == c
    decreases |acts|
  {
    if acts != [] {
      DoneStays(c, acts[1..]);
    }
  }

  /** A call that waits with nothing left to yield, while pushes or the response arrive, is woken and
      yields the first of them, unless its timer fires. */
  lemma WaitYieldsArrival(s: System, acts: seq<Act>, rounds: seq<Round>)
    requires Inv(s) && !s.it.done && s.it.err.None? && !s.c.done && |s.yielded| == |s.c.pushes|
    requires |rounds| > 0 && rounds[0] == Round(acts, false)
    requires |Stream(ActedAll(s.c, acts))| > |Stream(s.c)|
    ensures var t := Step(s, Next(Call(false, rounds, true)));
            t.yielded == s.yielded + [Stream(ActedAll(s.c, acts))[|s.yielded|]]
  {
    var acted := ActedAll(s.c, acts);
    ArrivalWakes(s.c, acts);
    ActedAllGrows(s.c, acts);
    assert At(Woken(acted), s.it.curPos).Some?;
    assert Awaited(s.c, s.it, false, rounds) == Awaited(Woken(acted), Looked(s.c, s.it), false, rounds[1..]);
    assert Awaited(Woken(acted), Looked(s.c, s.it), false, rounds[1..]) == (Woken(acted), Looked(Woken(acted), Looked(s.c, s.it)));
  }

  /** With a zero timeout a call does not wait: nothing happens to the future during it. */
  lemma ZeroTimeoutReturns(s: System, call: Call)
    requires call.zeroTimeout
    ensures Step(s, Next(call)).c == s.c
  {
  }

  /** A call whose timer fires while it waits yields nothing, even if something has just arrived. */
  lemma TimerEnds(s: System, acts: seq<Act>, rounds: seq<Round>, decodes: bool)
    requires Inv(s) && !s.it.done && s.it.err.None? && !s.c.done && |s.yielded| == |s.c.pushes|
    requires |rounds| > 0 && rounds[0] == Round(acts, true)
    ensures var t := Step(s, Next(Call(false, rounds, decodes)));
            t.yielded == s.yielded && t.c == ActedAll(s.c, acts) && t.it.err.None? && !t.it.done
  {
  }

  /** In particular a push that arrives meanwhile. */
  lemma WaitYieldsPush(s: System, push: Response, rounds: seq<Round>)
    requires Inv(s) && !s.it.done && s.it.err.None? && !s.c.done && |s.yielded| == |s.c.pushes|
    requires |rounds| > 0 && rounds[0] == Round([Act.AppendPush(push)], false)
    ensures Step(s, Next(Call(false, rounds, true))).yielded == s.yielded + [push]
  {
    var acts := [Act.AppendPush(push)];
    assert acts[1..] == [];
    assert ActedAll(s.c, acts) == ActedAll(Acted(s.c, acts[0]), []);
    WaitYieldsArrival(s, acts, rounds);
  }

  /** The first place of response r in a stream that ends with it, from position k on. */
  ghost function FirstFrom(stream: seq<Response>, r: Response, k: nat): (j: nat)
    requires k < |stream| && stream[|stream| - 1] == r
    ensures k <= j < |stream| && stream[j] == r
    ensures forall i :: k <= i < j ==> stream[i] != r
    decreases |stream| - k
  {
    if stream[k] == r then k else FirstFrom(stream, r, k + 1)
  }

  /** Any calls whose bodies decode. */
  ghost predicate Reads(events: seq<Event>) {
    forall i :: 0 <= i < |events| ==> events[i].Next? && events[i].call.decodes
  }

  /** Reading on after the response has come stops at the first element that is the response. */
  lemma {:induction false} ReadingStopsAt(s: System, events: seq<Event>)
    requires Inv(s) && !s.it.done && s.it.err.None? && s.c.resp.Some? && Reads(events)
    ensures |s.yielded| < |Stream(s.c)|
    ensures var end := FirstFrom(Stream(s.c), s.c.resp.value, |s.yielded|) + 1;
            && Run(s, events).c == s.c
            && Run(s, events).yielded == Stream(s.c)[..if |s.yielded| + |events| < end then |s.yielded| + |events| else end]
    decreases |events|
  {
    if events != [] {
      var e := events[0];
      assert e.Next? && e.call.decodes;
      NextTakesNext(s, e.call);
      StepKeepsInv(s, e);
      var t := Step(s, e);
      if t.it.done {
        StoppedForGood(t, events[1..]);
        DoneKeepsContents(t, events[1..]);
      } else {
        ReadingStopsAt(t, events[1..]);
      }
    }
  }

  lemma {:induction false} DoneKeepsContents(s: System, events: seq<Event>)
    requires s.it.done && s.c.done
    ensures Run(s, events).c == s.c
    decreases |events|
  {
    if events != [] {
      DoneKeepsContents(Step(s, events[0]), events[1..]);
    }
  }

  lemma FirstIsLast(pushes: seq<Response>, r: Response, k: nat)
    requires k <= |pushes|
    ensures FirstFrom(pushes + [r], r, k) == |pushes| <==> r !in pushes[k..]
  {
    var stream := pushes + [r];
    var j := FirstFrom(stream, r, k);
    if j < |pushes| {
      assert pushes[k..][j - k] == r;
    } else {
      assert forall i :: k <= i < |pushes| ==> stream[i] == pushes[i];
    }
  }

  /** Reading to the end yields everything exactly if no push still to come is the response itself. */
  lemma ReadsAllExactly(s: System, events: seq<Event>)
    requires Inv(s) && !s.it.done && s.it.err.None? && s.c.resp.Some?
    requires Reads(events) && |s.yielded| + |events| >= |Stream(s.c)|
    ensures |s.yielded| <= |s.c.pushes|
    ensures Run(s, events).yielded == Stream(s.c) <==> s.c.resp.value !in s.c.pushes[|s.yielded|..]
  {
    ReadingStopsAt(s, events);
    FirstIsLast(s.c.pushes, s.c.resp.value, |s.yielded|);
    var end := FirstFrom(Stream(s.c), s.c.resp.value, |s.yielded|) + 1;
    assert Run(s, events).yielded == Stream(s.c)[..end];
  }

  /** One object pushed and then set as the response: the iterator is done after the first value, and
      the stream has two. */
  lemma SharedResponseEndsEarly()
    ensures var s := Run(FRESH, [Other(Act.AppendPush(7)), Other(Act.SetResponse(7)), Event.Next(Call(true, [], true))]);
            s.it.done && s.yielded == [7] && Stream(s.c) == [7, 7]
  {
    var call := Event.Next(Call(true, [], true));
    var events := [Other(Act.AppendPush(7)), Other(Act.SetResponse(7)), call];
    var s1 := Step(FRESH, events[0]);
    var s2 := Step(s1, events[1]);
    var s3 := Step(s2, call);
    assert events[1..] == [Other(Act.SetResponse(7)), call] && events[1..][1..] == [call] && [call][1..] == [];
    assert Run(s2, [call]) == Run(s3, []);
    assert Run(FRESH, events) == Run(s1, events[1..]) == Run(s2, [call]);
  }
}
