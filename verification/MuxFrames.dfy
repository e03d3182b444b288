/**
 Frames on their way to the socket: to which session a buffered or written frame belongs, and
 why a non-empty shard buffer is always going to be flushed.
 */
module MuxFrames {
  import opened Common
  import opened Mux
  import opened MuxLedger
  import opened MuxLifecycle

  // ----- sessions -----

  /** A frame of request f may be buffered for, or written to, the given session: the one in which it
      was packed, and that is its own unless the request has a context and was packed late. */
  ghost predicate FrameOk(c: Config, l: Ledger, f: nat, session: nat) {
    f in l.sends && PastPack(l.sends[f].pc) && l.sends[f].born.Some? && f in l.packed && l.packed[f] == session &&
    (c.honest ==> l.sends[f].born == Some(session) || (l.sends[f].ctx && f in l.late))
  }

  ghost predicate LiveOk(c: Config, s: State, f: nat) {
    && (f in s.l.table && f in s.l.sends ==> s.l.sends[f].born == Some(s.session))
    && (c.honest && f in s.l.sends && !s.l.sends[f].ctx && s.l.sends[f].pc == Accepted ==> f in s.l.table || f in s.l.done)
  }

  /** Under an honest server only a packed request is ever completed with a response. */
  ghost predicate OutcomeOk(c: Config, l: Ledger, f: nat) {
    c.honest && f in l.done && l.done[f] ==> f in l.sends && PastPack(l.sends[f].pc)
  }

  ghost predicate IntentOk(c: Config, l: Ledger, a: nat) {
    c.honest && a in l.tasks && l.tasks[a].ok ==> l.tasks[a].f in l.sends && PastPack(l.sends[l.tasks[a].f].pc)
  }

  ghost predicate BufferOk(c: Config, s: State, n: nat) {
    n < |s.bufs| ==>
      && (s.mutex.Closing? ==> s.bufs[n] == [])
      && forall f :: f in s.bufs[n] ==> FrameOk(c, s.l, f, s.session)
  }

  ghost predicate WriterOk(c: Config, s: State, k: nat) {
    k in s.writers ==>
      k in s.sockets &&
      (s.writers[k].Writing? ==> forall f :: f in s.writers[k].frames ==> FrameOk(c, s.l, f, s.sockets[k]))
  }

  ghost predicate WireOk(c: Config, s: State, k: nat, f: nat) {
    (k, f) in s.wire ==> k in s.sockets && FrameOk(c, s.l, f, s.sockets[k])
  }

  ghost predicate SocketOk(s: State, k: nat) {
    && (s.sock == Some(k) ==> k in s.sockets && s.sockets[k] == s.session)
    && (k in s.sockets ==> s.sockets[k] <= s.session)
  }

  ghost predicate Lives(c: Config, s: State) {
    && (forall f :: LiveOk(c, s, f) && OutcomeOk(c, s.l, f))
    && (forall a :: IntentOk(c, s.l, a))
  }

  ghost predicate Frames(c: Config, s: State) {
    && |s.bufs| == c.shards
    && (forall n :: BufferOk(c, s, n))
    && (forall k :: WriterOk(c, s, k) && SocketOk(s, k))
    && (forall k, f :: WireOk(c, s, k, f))
  }

  lemma FrameStableUnderSender(c: Config, s: State, s': State, step: SenderStep, f: nat, session: nat)
    requires SenderNext(c, s, s', step) && FrameOk(c, s.l, f, session)
    ensures FrameOk(c, s'.l, f, session)
  {
    SenderTouches(c, s, s', step);
    SenderAdvances(c, s, s', step);
    LateGrows(c, s, s', step);
    hide SenderNext;
  }

  lemma LateGrows(c: Config, s: State, s': State, step: SenderStep)
    requires SenderNext(c, s, s', step)
    ensures s.l.late <= s'.l.late
    ensures s'.l.packed == if step.PutPack? then s.l.packed[step.f := s.session] else s.l.packed
    ensures step.PutPack? ==> At(s, step.f, Accepted)
  {
  }

  lemma FrameStableUnderCompleter(c: Config, s: State, s': State, step: CompleterStep, f: nat, session: nat)
    requires CompleterNext(c, s, s', step) && FrameOk(c, s.l, f, session)
    ensures FrameOk(c, s'.l, f, session)
  {
  }

  /** Once a frame may go to a session, nothing takes that back. */
  ghost predicate Stable(c: Config, l: Ledger, l': Ledger) {
    forall f, session :: FrameOk(c, l, f, session) ==> FrameOk(c, l', f, session)
  }

  predicate Fetches(step: SenderStep) {
    step.SendCancel? || step.FailFetch? || step.AsyncFetch?
  }

  /** What a sender's step does to the place of a future. */
  ghost predicate PlacesMove(s: State, s': State, step: SenderStep, f: nat) {
    && (f in s'.l.table ==> f in s.l.table || step == Register(f))
    && (f in s.l.table || step == Register(f) ==> f in s'.l.table || (Fetches(step) && step.f == f))
    && (f in s.l.done ==> f in s'.l.done && s'.l.done[f] == s.l.done[f])
    && (f in s'.l.done && f !in s.l.done ==> !s'.l.done[f])
  }

  lemma FetchMovesPlaces(c: Config, s: State, s': State, step: SenderStep, f: nat)
    requires SenderNext(c, s, s', step) && Fetches(step)
    ensures PlacesMove(s, s', step, f)
  {
  }

  lemma SenderMovesPlaces(c: Config, s: State, s': State, step: SenderStep, f: nat)
    requires SenderNext(c, s, s', step)
    ensures PlacesMove(s, s', step, f)
  {
    hide PlacesMove;
    if Fetches(step) {
      FetchMovesPlaces(c, s, s', step, f);
    } else {
      OthersMovePlaces(c, s, s', step, f);
    }
  }

  lemma OthersMovePlaces(c: Config, s: State, s': State, step: SenderStep, f: nat)
    requires SenderNext(c, s, s', step) && !Fetches(step)
    ensures PlacesMove(s, s', step, f)
  {
  }

  lemma LiveKeptBySender(c: Config, s: State, s': State, step: SenderStep, f: nat)
    requires FutureOk(c, s.l, f) && LiveOk(c, s, f) && OutcomeOk(c, s.l, f) && SenderNext(c, s, s', step)
    ensures LiveOk(c, s', f) && OutcomeOk(c, s'.l, f)
  {
    hide Placed, Recorded;
    SenderTouches(c, s, s', step);
    SenderAdvances(c, s, s', step);
    AcceptedByRegister(c, s, s', step);
    SenderMovesPlaces(c, s, s', step, f);
    hide SenderNext;
  }

  lemma LiveKeptByCompleter(c: Config, s: State, s': State, step: CompleterStep, f: nat)
    requires FutureOk(c, s.l, f) && LiveOk(c, s, f) && OutcomeOk(c, s.l, f) && CompleterNext(c, s, s', step)
    requires forall k, g :: WireOk(c, s, k, g)
    requires forall a :: IntentOk(c, s.l, a)
    ensures LiveOk(c, s', f) && OutcomeOk(c, s'.l, f)
  {
    hide Recorded;
    match step
    case ReaderFetch(g, a) =>
      if c.honest {
        var k :| (k, g) in s.wire;
        assert WireOk(c, s, k, g);
      }
    case SetOutcome(a) => assert IntentOk(c, s.l, a);
    case _ =>
  }

  lemma LiveKeptUnderMutex(c: Config, s: State, s': State, step: LifecycleStep, f: nat)
    requires FutureOk(c, s.l, f) && LiveOk(c, s, f) && OutcomeOk(c, s.l, f) && LifecycleNext(c, s, s', step)
    ensures LiveOk(c, s', f) && OutcomeOk(c, s'.l, f)
  {
  }

  lemma IntentKeptByFetch(c: Config, s: State, s': State, step: SenderStep, a: nat)
    requires TaskOk(c, s.l, a) && IntentOk(c, s.l, a) && Fetches(step) && SenderNext(c, s, s', step)
    ensures IntentOk(c, s'.l, a)
  {
  }

  /** Progress past packing is never undone. */
  lemma PastPackStays(c: Config, s: State, s': State, step: SenderStep, f: nat)
    requires SenderNext(c, s, s', step) && f in s.l.sends && PastPack(s.l.sends[f].pc)
    ensures f in s'.l.sends && PastPack(s'.l.sends[f].pc)
  {
    SenderTouches(c, s, s', step);
    SenderAdvances(c, s, s', step);
    hide SenderNext;
  }

  lemma TasksOfOthers(c: Config, s: State, s': State, step: SenderStep)
    requires !Fetches(step) && SenderNext(c, s, s', step)
    ensures s'.l.tasks == s.l.tasks
  {
  }

  lemma IntentKeptUnderMutex(c: Config, s: State, s': State, step: LifecycleStep, a: nat)
    requires IntentOk(c, s.l, a) && LifecycleNext(c, s, s', step)
    ensures IntentOk(c, s'.l, a)
  {
  }

  lemma IntentKeptBySender(c: Config, s: State, s': State, step: SenderStep, a: nat)
    requires TaskOk(c, s.l, a) && IntentOk(c, s.l, a) && SenderNext(c, s, s', step)
    ensures IntentOk(c, s'.l, a)
  {
    hide SenderNext, TaskOk;
    if Fetches(step) {
      IntentKeptByFetch(c, s, s', step, a);
    } else {
      TasksOfOthers(c, s, s', step);
      if c.honest && a in s.l.tasks && s.l.tasks[a].ok {
        PastPackStays(c, s, s', step, s.l.tasks[a].f);
      }
    }
  }

  lemma IntentKeptByCompleter(c: Config, s: State, s': State, step: CompleterStep, a: nat)
    requires IntentOk(c, s.l, a) && CompleterNext(c, s, s', step)
    requires forall k, g :: WireOk(c, s, k, g)
    ensures IntentOk(c, s'.l, a)
  {
    if step.ReaderFetch? && c.honest {
      var k :| (k, step.f) in s.wire;
      assert WireOk(c, s, k, step.f);
    }
  }

  lemma LivesKept(c: Config, s: State, s': State, step: Step)
    requires Sound(c, s.l) && Lives(c, s) && Frames(c, s) && NextStep(c, s, s', step)
    ensures Lives(c, s')
  {
    forall f ensures LiveOk(c, s', f) && OutcomeOk(c, s'.l, f) { OneLifeKept(c, s, s', step, f); }
    forall a ensures IntentOk(c, s'.l, a) { IntentKept(c, s, s', step, a); }
  }

  lemma OneLifeKept(c: Config, s: State, s': State, step: Step, f: nat)
    requires Sound(c, s.l) && Lives(c, s) && Frames(c, s) && NextStep(c, s, s', step)
    ensures LiveOk(c, s', f) && OutcomeOk(c, s'.l, f)
  {
    hide SenderNext, CompleterNext, LifecycleNext, FutureOk, TaskOk, IntentOk, BufferOk, WriterOk, SocketOk, WireOk;
    assert FutureOk(c, s.l, f) && LiveOk(c, s, f) && OutcomeOk(c, s.l, f);
    match step
    case BySender(x) => LiveKeptBySender(c, s, s', x, f);
    case ByCompleter(x) => LiveKeptByCompleter(c, s, s', x, f);
    case ByWriter(x) =>
    case ByLifecycle(x) => LiveKeptUnderMutex(c, s, s', x, f);
  }

  lemma IntentKept(c: Config, s: State, s': State, step: Step, a: nat)
    requires Sound(c, s.l) && Lives(c, s) && Frames(c, s) && NextStep(c, s, s', step)
    ensures IntentOk(c, s'.l, a)
  {
    hide SenderNext, CompleterNext, LifecycleNext, FutureOk, TaskOk, LiveOk, OutcomeOk;
    assert TaskOk(c, s.l, a) && IntentOk(c, s.l, a);
    match step
    case BySender(x) => IntentKeptBySender(c, s, s', x, a);
    case ByCompleter(x) => IntentKeptByCompleter(c, s, s', x, a);
    case ByWriter(x) =>
    case ByLifecycle(x) => IntentKeptUnderMutex(c, s, s', x, a);
  }

  /** Frames keep their session when only the ledger changes. */
  lemma FramesKeptAcross(c: Config, s: State, l: Ledger)
    requires Frames(c, s) && Stable(c, s.l, l)
    ensures Frames(c, s.(l := l))
  {
    var s' := s.(l := l);
    forall n ensures BufferOk(c, s', n) { assert BufferOk(c, s, n); }
    forall k ensures WriterOk(c, s', k) && SocketOk(s', k) { assert WriterOk(c, s, k) && SocketOk(s, k); }
    forall k, f ensures WireOk(c, s', k, f) { assert WireOk(c, s, k, f) && SocketOk(s, k); }
  }

  lemma FramesKeptByPack(c: Config, s: State, s': State, f: nat)
    requires Sound(c, s.l) && Lives(c, s) && Frames(c, s) && SenderNext(c, s, s', PutPack(f))
    ensures Frames(c, s')
  {
    forall g, session | FrameOk(c, s.l, g, session) ensures FrameOk(c, s'.l, g, session) {
      FrameStableUnderSender(c, s, s', PutPack(f), g, session);
    }
    FramesKeptAcross(c, s, s'.l);
    var m := s.(l := s'.l);
    assert FutureOk(c, s.l, f) && LiveOk(c, s, f);
    assert FrameOk(c, s'.l, f, s.session);
    forall n ensures BufferOk(c, s', n) { assert BufferOk(c, m, n); }
    forall k ensures WriterOk(c, s', k) && SocketOk(s', k) { assert WriterOk(c, m, k) && SocketOk(m, k); }
    forall k, g ensures WireOk(c, s', k, g) { assert WireOk(c, m, k, g); }
  }

  lemma SameBuffers(c: Config, s: State, dirty: seq<nat>)
    requires Frames(c, s)
    ensures Frames(c, s.(dirty := dirty))
  {
    var s' := s.(dirty := dirty);
    forall n ensures BufferOk(c, s', n) { assert BufferOk(c, s, n); }
    forall k ensures WriterOk(c, s', k) && SocketOk(s', k) { assert WriterOk(c, s, k) && SocketOk(s, k); }
    forall k, g ensures WireOk(c, s', k, g) { assert WireOk(c, s, k, g); }
  }

  lemma FramesKeptBySender(c: Config, s: State, s': State, step: SenderStep)
    requires Sound(c, s.l) && Lives(c, s) && Frames(c, s) && SenderNext(c, s, s', step)
    ensures Frames(c, s')
  {
    if step.PutPack? {
      FramesKeptByPack(c, s, s', step.f);
    } else {
      forall g, session | FrameOk(c, s.l, g, session) ensures FrameOk(c, s'.l, g, session) {
        FrameStableUnderSender(c, s, s', step, g, session);
      }
      FramesKeptAcross(c, s, s'.l);
      SameBuffers(c, s.(l := s'.l), s'.dirty);
      assert s' == s.(l := s'.l).(dirty := s'.dirty);
    }
  }

  lemma FramesKeptByCompleter(c: Config, s: State, s': State, step: CompleterStep)
    requires Frames(c, s) && CompleterNext(c, s, s', step)
    ensures Frames(c, s')
  {
    forall g, session | FrameOk(c, s.l, g, session) ensures FrameOk(c, s'.l, g, session) {
      FrameStableUnderCompleter(c, s, s', step, g, session);
    }
    FramesKeptAcross(c, s, s'.l);
    assert s' == s.(l := s'.l);
  }

  lemma FramesKeptByWriter(c: Config, s: State, s': State, step: WriterStep)
    requires Frames(c, s) && WriterNext(c, s, s', step)
    ensures Frames(c, s')
  {
    assert WriterOk(c, s, step.k) && SocketOk(s, step.k);
    forall n ensures BufferOk(c, s', n) { assert BufferOk(c, s, n); }
    forall k ensures WriterOk(c, s', k) && SocketOk(s', k) {
      assert WriterOk(c, s, k) && SocketOk(s, k);
      if step.Swap? {
        assert BufferOk(c, s, s.writers[step.k].n);
      }
    }
    forall k, f ensures WireOk(c, s', k, f) { assert WireOk(c, s, k, f); }
  }

  lemma SendsUnderMutex(c: Config, s: State, s': State, step: LifecycleStep)
    requires LifecycleNext(c, s, s', step)
    ensures s'.l.sends == s.l.sends && s'.l.late == s.l.late && s'.l.packed == s.l.packed && s'.wire == s.wire
  {
  }

  lemma BuffersUnderMutex(c: Config, s: State, s': State, step: LifecycleStep, n: nat)
    requires BufferOk(c, s, n) && LifecycleNext(c, s, s', step)
    ensures |s'.bufs| == |s.bufs| && BufferOk(c, s', n)
  {
    SendsUnderMutex(c, s, s', step);
  }

  lemma WritersUnderMutex(c: Config, s: State, s': State, step: LifecycleStep, k: nat)
    requires Lifecycle(s) && WriterOk(c, s, k) && SocketOk(s, k) && LifecycleNext(c, s, s', step)
    ensures WriterOk(c, s', k) && SocketOk(s', k)
    ensures k in s.sockets ==> k in s'.sockets && s'.sockets[k] == s.sockets[k]
  {
    SendsUnderMutex(c, s, s', step);
  }

  lemma FramesKeptUnderMutex(c: Config, s: State, s': State, step: LifecycleStep)
    requires Lifecycle(s) && Frames(c, s) && LifecycleNext(c, s, s', step)
    ensures Frames(c, s')
  {
    SendsUnderMutex(c, s, s', step);
    BuffersUnderMutex(c, s, s', step, 0);
    hide LifecycleNext, Lifecycle, BufferOk, SocketOk;
    forall n ensures BufferOk(c, s', n) {
      assert BufferOk(c, s, n);
      BuffersUnderMutex(c, s, s', step, n);
    }
    forall k ensures WriterOk(c, s', k) && SocketOk(s', k) {
      assert WriterOk(c, s, k) && SocketOk(s, k);
      WritersUnderMutex(c, s, s', step, k);
    }
    forall k, f ensures WireOk(c, s', k, f) {
      assert WireOk(c, s, k, f) && WriterOk(c, s, k) && SocketOk(s, k);
      WritersUnderMutex(c, s, s', step, k);
    }
  }

  lemma FramesKept(c: Config, s: State, s': State, step: Step)
    requires Sound(c, s.l) && Lifecycle(s) && Lives(c, s) && Frames(c, s) && NextStep(c, s, s', step)
    ensures Frames(c, s')
  {
    match step
    case BySender(x) => FramesKeptBySender(c, s, s', x);
    case ByCompleter(x) => FramesKeptByCompleter(c, s, s', x);
    case ByWriter(x) => FramesKeptByWriter(c, s, s', x);
    case ByLifecycle(x) => FramesKeptUnderMutex(c, s, s', x);
  }
}
