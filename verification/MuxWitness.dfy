/**
 Runs of the multiplexer that reach the two situations the guarantees leave open: an early return of
 newFuture, and a frame that goes to a later connection.
 */
module MuxWitness {
  import opened Common
  import opened Mux

  const C := Config(1, 4, false, 0, true, true)

  lemma Extended(c: Config, run: seq<State>, s: State, step: Step) returns (more: seq<State>)
    requires IsRun(c, run) && NextStep(c, run[|run| - 1], s, step)
    ensures more == run + [s] && IsRun(c, more)
  {
    hide NextStep, Init;
    more := run + [s];
    forall i: nat | i + 1 < |more| ensures StepAt(c, more, i) {
      if i + 1 < |run| {
        assert StepAt(c, run, i);
      } else {
        assert NextStep(c, more[i], more[i + 1], step);
      }
    }
  }

  function Empty(): Ledger {
    Ledger(0, 0, map[], {}, map[], map[], map[], {}, map[], multiset{})
  }

  function Dialed(conn: ConnState, mutex: Holder, l: Ledger): State {
    State(conn, Some(0), map[0 := 0], 0, 0, mutex, {}, 0, l, [[]], [], map[0 := Writer.Idle], {}, {})
  }

  /** Connected, with nothing sent. */
  lemma OpenRun() returns (run: seq<State>)
    ensures IsRun(C, run) && run[|run| - 1] == Dialed(Connected, Free, Empty())
  {
    var s := State(Disconnected, None, map[], 0, 0, Dialing, {}, 0, Empty(), [[]], [], map[], {}, {});
    run := [s];
    run := Extended(C, run, Dialed(Connected, Dialing, Empty()), ByLifecycle(DialOk(0)));
    run := Extended(C, run, Dialed(Connected, Free, Empty()), ByLifecycle(DialLeave));
  }

  /** A request with a context has loaded the state. */
  function Loaded(): Ledger {
    Move(TakeToken(C, Enter(Empty(), 0, true, false, 0), 0), 0, Checked)
  }

  lemma LoadedRun() returns (run: seq<State>)
    ensures IsRun(C, run) && run[|run| - 1] == Dialed(Connected, Free, Loaded())
  {
    run := OpenRun();
    var l := Enter(Empty(), 0, true, false, 0);
    run := Extended(C, run, Dialed(Connected, Free, l), BySender(Begin(0, true, false, 0)));
    run := Extended(C, run, Dialed(Connected, Free, TakeToken(C, l, 0)), BySender(Admit(0)));
    run := Extended(C, run, Dialed(Connected, Free, Loaded()), BySender(LoadState(0)));
  }

  /** newFuture can return early with "context is done", after which the counter stays up. */
  lemma ContextDoneRun() returns (run: seq<State>)
    ensures IsRun(C, run) && At(run[|run| - 1], 0, Abandoned)
  {
    run := LoadedRun();
    var l := Move(Settle(Loaded(), 0, false), 0, Abandoned);
    run := Extended(C, run, Dialed(Connected, Free, l), BySender(CtxDone(0)));
  }

  /** The request is registered, its watchdog takes it out, and the connection breaks and is replaced
      before the watchdog has set the error. */
  function Taken(): Ledger {
    Remove(Add(Loaded(), 0, 0), 0, 0, false)
  }

  function Redialed(l: Ledger, bufs: seq<seq<nat>>, dirty: seq<nat>, writer: Writer, wire: set<(nat, nat)>): State {
    State(Connected, Some(1), map[0 := 0, 1 := 1], 1, 0, Dialing, {}, 0, l, bufs, dirty,
          map[0 := Writer.Idle, 1 := writer], wire, {})
  }

  lemma RegisteredRun() returns (run: seq<State>)
    ensures IsRun(C, run) && run[|run| - 1] == Dialed(Connected, Free, Add(Loaded(), 0, 0))
  {
    run := LoadedRun();
    run := Extended(C, run, Dialed(Connected, Free, Add(Loaded(), 0, 0)), BySender(Register(0)));
  }

  lemma RedialedRun(start: seq<State>) returns (run: seq<State>)
    requires IsRun(C, start) && start[|start| - 1] == Dialed(Connected, Free, Add(Loaded(), 0, 0))
    ensures IsRun(C, run) && start <= run && run[|run| - 1] == Redialed(Taken(), [[]], [], Writer.Idle, {})
  {
    run := Extended(C, start, Dialed(Connected, Free, Taken()), ByCompleter(Watchdog(0, 0)));
    var closing := EnterClose(Dialed(Connected, Free, Taken()), false, false);
    run := Extended(C, run, closing, ByLifecycle(Reconnect(0)));
    var closed := closing.(session := 1, mutex := Dialing);
    run := Extended(C, run, closed, ByLifecycle(CloseEnd));
    assert closing.bufs == [[]];
    run := Extended(C, run, Redialed(Taken(), [[]], [], Writer.Idle, {}), ByLifecycle(DialOk(1)));
  }

  /** A request with a context can have its bytes written to a connection opened after it was
      registered, under a server that answers only what it was sent. */
  lemma StaleContextRun() returns (run: seq<State>, i: nat)
    ensures C.honest && IsRun(C, run) && i < |run|
    ensures 0 in run[i].l.sends && run[i].l.sends[0].born.Some? && 1 !in run[i].sockets
    ensures (1, 0) in run[|run| - 1].wire
  {
    hide NextStep, Init, Redialed;
    var start := RegisteredRun();
    i := |start| - 1;
    run := RedialedRun(start);
    run := PackedRun(run);
    var pushed;
    run, pushed := PushedRun(run, Packs(Taken(), 0, true, 1));
    run := WrittenRun(run, pushed);
  }

  lemma PushedRun(start: seq<State>, l: Ledger) returns (run: seq<State>, pushed: Ledger)
    requires IsRun(C, start) && start[|start| - 1] == Redialed(l, [[0]], [], Writer.Idle, {})
    requires 0 in l.sends && l.sends[0].pc == Packed(true) && !l.sends[0].async && l.sends[0].shard == 0
    ensures IsRun(C, run) && start <= run && run[|run| - 1] == Redialed(pushed, [[0]], [0], Writer.Idle, {})
  {
    var pushing := Move(l, 0, Pushing(true));
    run := Extended(C, start, Redialed(pushing, [[0]], [], Writer.Idle, {}), BySender(AfterPack(0)));
    pushed := Move(pushing, 0, Ended);
    run := Extended(C, run, Redialed(pushed, [[0]], [0], Writer.Idle, {}), BySender(PushToken(0)));
  }

  lemma PackedRun(start: seq<State>) returns (run: seq<State>)
    requires IsRun(C, start) && start[|start| - 1] == Redialed(Taken(), [[]], [], Writer.Idle, {})
    ensures IsRun(C, run) && start <= run
    ensures run[|run| - 1] == Redialed(Packs(Taken(), 0, true, 1), [[0]], [], Writer.Idle, {})
  {
    var none: seq<nat> := [];
    var before := Redialed(Taken(), [none], [], Writer.Idle, {});
    var after := Redialed(Packs(Taken(), 0, true, 1), [[0]], [], Writer.Idle, {});
    assert before.bufs[0] + [0] == after.bufs[0];
    assert before.bufs[0 := after.bufs[0]] == after.bufs;
    run := Extended(C, start, after, BySender(PutPack(0)));
  }

  lemma WrittenRun(start: seq<State>, l: Ledger) returns (run: seq<State>)
    requires IsRun(C, start) && start[|start| - 1] == Redialed(l, [[0]], [0], Writer.Idle, {})
    ensures IsRun(C, run) && start <= run && (1, 0) in run[|run| - 1].wire
  {
    run := Extended(C, start, Redialed(l, [[0]], [], Holding(0), {}), ByWriter(Take(1)));
    run := Extended(C, run, Redialed(l, [[]], [], Writing([0]), {}), ByWriter(Swap(1)));
    run := Extended(C, run, Redialed(l, [[]], [], Writer.Idle, {(1, 0)}), ByWriter(Write(1, 1)));
  }

  // ----- a request from its send to its answer -----

  const LIMITED := Config(1, 1, true, 1, true, true)

  /** Connected, with a ledger and whatever is on its way to the socket. */
  function On(mutex: Holder, conn: ConnState, l: Ledger, buf: seq<nat>, dirty: seq<nat>, writer: Writer,
              wire: set<(nat, nat)>): State
  {
    State(conn, Some(0), map[0 := 0], 0, 0, mutex, {}, 0, l, [buf], dirty, map[0 := writer], wire, {})
  }

  /** A request without a context, before its registration and with a token. */
  function Sending(): Ledger {
    Move(TakeToken(LIMITED, Enter(Empty(), 0, false, false, 0), 0), 0, Checked)
  }

  lemma SendingRun() returns (run: seq<State>)
    ensures IsRun(LIMITED, run) && run[|run| - 1] == On(Free, Connected, Sending(), [], [], Writer.Idle, {})
  {
    var s := State(Disconnected, None, map[], 0, 0, Dialing, {}, 0, Empty(), [[]], [], map[], {}, {});
    run := [s];
    run := Extended(LIMITED, run, On(Dialing, Connected, Empty(), [], [], Writer.Idle, {}), ByLifecycle(DialOk(0)));
    run := Extended(LIMITED, run, On(Free, Connected, Empty(), [], [], Writer.Idle, {}), ByLifecycle(DialLeave));
    var l := Enter(Empty(), 0, false, false, 0);
    run := Extended(LIMITED, run, On(Free, Connected, l, [], [], Writer.Idle, {}), BySender(Begin(0, false, false, 0)));
    run := Extended(LIMITED, run, On(Free, Connected, TakeToken(LIMITED, l, 0), [], [], Writer.Idle, {}), BySender(Admit(0)));
    run := Extended(LIMITED, run, On(Free, Connected, Sending(), [], [], Writer.Idle, {}), BySender(LoadState(0)));
  }

  function Packing(): Ledger {
    Packs(Add(Sending(), 0, 0), 0, true, 0)
  }

  function Queued(): Ledger {
    Move(Move(Packing(), 0, Pushing(true)), 0, Ended)
  }

  lemma QueuedRun() returns (run: seq<State>)
    ensures IsRun(LIMITED, run) && run[|run| - 1] == On(Free, Connected, Queued(), [0], [0], Writer.Idle, {})
  {
    run := SendingRun();
    run := Extended(LIMITED, run, On(Free, Connected, Add(Sending(), 0, 0), [], [], Writer.Idle, {}), BySender(Register(0)));
    run := PackedFrom(run);
    run := QueuedFrom(run);
  }

  lemma PackedFrom(start: seq<State>) returns (run: seq<State>)
    requires IsRun(LIMITED, start)
    requires start[|start| - 1] == On(Free, Connected, Add(Sending(), 0, 0), [], [], Writer.Idle, {})
    ensures IsRun(LIMITED, run) && run[|run| - 1] == On(Free, Connected, Packing(), [0], [], Writer.Idle, {})
  {
    var none: seq<nat> := [];
    var before := On(Free, Connected, Add(Sending(), 0, 0), none, [], Writer.Idle, {});
    var after := On(Free, Connected, Packing(), [0], [], Writer.Idle, {});
    assert before.bufs[0] + [0] == after.bufs[0];
    assert before.bufs[0 := after.bufs[0]] == after.bufs;
    run := Extended(LIMITED, start, after, BySender(PutPack(0)));
  }

  lemma QueuedFrom(start: seq<State>) returns (run: seq<State>)
    requires IsRun(LIMITED, start)
    requires start[|start| - 1] == On(Free, Connected, Packing(), [0], [], Writer.Idle, {})
    ensures IsRun(LIMITED, run) && run[|run| - 1] == On(Free, Connected, Queued(), [0], [0], Writer.Idle, {})
  {
    var pushing := Move(Packing(), 0, Pushing(true));
    run := Extended(LIMITED, start, On(Free, Connected, pushing, [0], [], Writer.Idle, {}), BySender(AfterPack(0)));
    run := Extended(LIMITED, run, On(Free, Connected, Queued(), [0], [0], Writer.Idle, {}), BySender(PushToken(0)));
  }

  lemma SentRun() returns (run: seq<State>)
    ensures IsRun(LIMITED, run) && run[|run| - 1] == On(Free, Connected, Queued(), [], [], Writer.Idle, {(0, 0)})
  {
    run := QueuedRun();
    hide Queued;
    run := Extended(LIMITED, run, On(Free, Connected, Queued(), [0], [], Holding(0), {}), ByWriter(Take(0)));
    run := Extended(LIMITED, run, On(Free, Connected, Queued(), [], [], Writing([0]), {}), ByWriter(Swap(0)));
    run := Extended(LIMITED, run, On(Free, Connected, Queued(), [], [], Writer.Idle, {(0, 0)}), ByWriter(Write(0, 1)));
  }

  function Read(): Ledger {
    Remove(Queued(), 0, 0, true)
  }

  function Completed(): Ledger {
    SettleTask(Read(), 0)
  }

  function Released(): Ledger {
    ReturnToken(LIMITED, Completed(), 0)
  }

  function CountedOut(): Ledger {
    Discount(Released(), 0)
  }

  lemma ReadRun() returns (run: seq<State>)
    ensures IsRun(LIMITED, run) && run[|run| - 1] == On(Free, Connected, Read(), [], [], Writer.Idle, {(0, 0)})
  {
    run := SentRun();
    assert (0, 0) in run[|run| - 1].wire;
    run := Extended(LIMITED, run, On(Free, Connected, Read(), [], [], Writer.Idle, {(0, 0)}), ByCompleter(ReaderFetch(0, 0)));
  }

  lemma CountedRun() returns (run: seq<State>)
    ensures IsRun(LIMITED, run) && run[|run| - 1] == On(Free, Connected, CountedOut(), [], [], Writer.Idle, {(0, 0)})
  {
    run := ReadRun();
    run := Extended(LIMITED, run, On(Free, Connected, Completed(), [], [], Writer.Idle, {(0, 0)}), ByCompleter(SetOutcome(0)));
    hide Read;
    run := Extended(LIMITED, run, On(Free, Connected, Released(), [], [], Writer.Idle, {(0, 0)}), ByCompleter(Release(0)));
    run := Extended(LIMITED, run, On(Free, Connected, CountedOut(), [], [], Writer.Idle, {(0, 0)}), ByCompleter(Count(0)));
  }

  lemma CountedIs()
    ensures var l := CountedOut();
            && l.requestCnt == 0 && l.tokens == 0 && 0 in l.done && l.done[0] && l.hist[Counted(0)] == 1
  {
  }

  /** A request is sent, answered and counted out, and graceful shutdown then passes its wait. */
  lemma AnsweredRun() returns (run: seq<State>)
    ensures IsRun(LIMITED, run)
    ensures var s := run[|run| - 1];
            && s.mutex.ShutdownPassed? && s.l.requestCnt == 0 && s.l.tokens == 0
            && 0 in s.l.done && s.l.done[0] && s.l.hist[Counted(0)] == 1 && (0, 0) in s.wire
  {
    CountedIs();
    hide CountedOut;
    run := CountedRun();
    var l := CountedOut();
    run := Extended(LIMITED, run, On(ShutdownLoop(0), Shutdown, l, [], [], Writer.Idle, {(0, 0)}), ByLifecycle(ShutdownStart));
    run := Extended(LIMITED, run, On(ShutdownPassed(0), Shutdown, l, [], [], Writer.Idle, {(0, 0)}), ByLifecycle(ShutdownCheck));
  }

  // ----- a writer hands its shard over to its successor -----

  /** Two sockets, the second one current. */
  function Second(l: Ledger, dirty: seq<nat>, former: Writer, young: Writer): State {
    State(Connected, Some(1), map[0 := 0, 1 := 1], 1, 0, Free, {}, 0, l, [[]], dirty, map[0 := former, 1 := young], {}, {0})
  }

  function Failed(): Ledger {
    Expel(Queued(), 0, 0)
  }

  /** The writer of a broken socket holds a token of the dirty shard, and gives it back; the writer of the
      next socket takes it. */
  lemma HandOverRun() returns (run: seq<State>)
    ensures IsRun(LIMITED, run)
    ensures var s := run[|run| - 1];
            && s.sock == Some(1) && 0 in s.writers && s.writers[0] == Gone && 1 in s.writers && s.writers[1] == Holding(0)
            && 0 in s.l.done && !s.l.done[0] && 0 in s.lost
  {
    run := FailedRun();
    FailedIs();
    hide Failed;
    run := Extended(LIMITED, run, Second(Failed(), [], Holding(0), Writer.Idle).(mutex := Dialing), ByLifecycle(DialOk(1)));
    run := Extended(LIMITED, run, Second(Failed(), [], Holding(0), Writer.Idle), ByLifecycle(DialLeave));
    run := TakenOver(run, Failed());
  }

  lemma FailedIs()
    ensures 0 in Failed().done && !Failed().done[0] && NoneCheckedIn(Failed())
  {
  }

  ghost predicate NoneCheckedIn(l: Ledger) {
    forall f :: f in l.sends ==> l.sends[f].pc != Checked
  }

  lemma TakenOver(start: seq<State>, l: Ledger) returns (run: seq<State>)
    requires IsRun(LIMITED, start) && start[|start| - 1] == Second(l, [], Holding(0), Writer.Idle)
    ensures IsRun(LIMITED, run) && run[|run| - 1] == Second(l, [], Gone, Holding(0))
  {
    var none: seq<nat> := [];
    assert none + [0] == [0] && [0][1..] == none;
    run := Extended(LIMITED, start, Second(l, [0], Gone, Writer.Idle), ByWriter(HandOver(0)));
    run := Extended(LIMITED, run, Second(l, [], Gone, Holding(0)), ByWriter(Take(1)));
  }

  /** The connection breaks while the writer holds the token; the request is failed and its frame dropped. */
  lemma FailedRun() returns (run: seq<State>)
    ensures IsRun(LIMITED, run)
    ensures run[|run| - 1] == State(Disconnected, None, map[0 := 0], 1, 0, Dialing, {}, 0, Failed(), [[]], [],
                                    map[0 := Holding(0)], {}, {0})
  {
    run := HoldingRun();
    run := BrokenRun(run);
    run := ClearedRun(run);
  }

  lemma HoldingRun() returns (run: seq<State>)
    ensures IsRun(LIMITED, run) && run[|run| - 1] == On(Free, Connected, Queued(), [0], [], Holding(0), {})
  {
    run := QueuedRun();
    hide Queued;
    run := Extended(LIMITED, run, On(Free, Connected, Queued(), [0], [], Holding(0), {}), ByWriter(Take(0)));
  }

  function Broken(l: Ledger, session: nat, mutex: Holder): State {
    State(Disconnected, None, map[0 := 0], session, 0, mutex, {}, 0, l, [[]], [], map[0 := Holding(0)], {}, {0})
  }

  lemma ClearedRun(start: seq<State>) returns (run: seq<State>)
    requires IsRun(LIMITED, start) && start[|start| - 1] == Broken(Queued(), 0, Closing(false, false))
    ensures IsRun(LIMITED, run) && run[|run| - 1] == Broken(Failed(), 1, Dialing)
  {
    QueuedIs();
    hide Queued;
    run := Extended(LIMITED, start, Broken(Failed(), 0, Closing(false, false)), ByLifecycle(CloseFail(0, 0)));
    assert Failed().table == {};
    hide Failed;
    run := Extended(LIMITED, run, Broken(Failed(), 1, Dialing), ByLifecycle(CloseEnd));
  }

  lemma QueuedIs()
    ensures Queued().table == {0} && Queued().tasks == map[] && NoneCheckedIn(Queued())
  {
  }

  lemma BrokenRun(start: seq<State>) returns (run: seq<State>)
    requires IsRun(LIMITED, start) && start[|start| - 1] == On(Free, Connected, Queued(), [0], [], Holding(0), {})
    ensures IsRun(LIMITED, run)
    ensures run[|run| - 1] == State(Disconnected, None, map[0 := 0], 0, 0, Closing(false, false), {}, 0, Queued(), [[]], [],
                                    map[0 := Holding(0)], {}, {0})
  {
    var s := start[|start| - 1];
    assert s.bufs[0] == [0];
    assert s.bufs == [[0]] && 0 in s.bufs[0];
    forall f ensures f in InBuffers(s.bufs) <==> f == 0 {}
    assert InBuffers(s.bufs) == {0};
    var closing := EnterClose(s, false, false);
    assert closing.bufs == [[]];
    run := Extended(LIMITED, start, closing, ByLifecycle(Reconnect(0)));
  }
}
