/**
 The connection lifecycle and graceful shutdown: the connection states, the control channel,
 the socket field, and what shutdown knows once it has read requestCnt == 0.
 */
module MuxLifecycle {
  import opened Common
  import opened Mux
  import opened MuxLedger

  /** No sender sits inside newFuture's critical section with connConnected loaded. */
  ghost predicate NoneChecked(l: Ledger) {
    forall f :: f in l.sends ==> l.sends[f].pc != Checked
  }

  ghost predicate Lifecycle(s: State) {
    && (s.sock.Some? <==> s.conn == Connected || s.conn == Shutdown)
    && s.controlCloses == Bit(s.conn == Closed)
    && (s.mutex.Closing? ==> s.conn == if s.mutex.forever then Closed else Disconnected)
    && (s.sock == None ==> NoneChecked(s.l))
    && (s.sock == None && !s.mutex.Closing? ==> s.l.table == {})
  }

  /** After shutdown has read requestCnt == 0 nothing accepted is outstanding, and nothing can
      be accepted until closeConnection is over. */
  ghost predicate Drained(s: State) {
    && (s.mutex.ShutdownPassed? ==>
          s.conn == Shutdown && s.sock == Some(s.mutex.c) && s.l.table == {} && s.l.tasks == map[] && NoneChecked(s.l))
    && (s.mutex.Closing? && s.mutex.graceful ==> s.l.table == {} && s.l.tasks == map[])
  }

  lemma SenderTables(c: Config, s: State, s': State, step: SenderStep)
    requires SenderNext(c, s, s', step)
    ensures step.Register? ==> At(s, step.f, Checked)
    ensures !step.Register? ==> s'.l.table <= s.l.table
    ensures s.l.table == {} ==> s'.l.tasks == s.l.tasks
  {
  }

  /** What a sender's step can do to the parts the lifecycle looks at. */
  lemma SenderEffect(c: Config, s: State, s': State, step: SenderStep)
    requires SenderNext(c, s, s', step)
    ensures s'.conn == s.conn && s'.sock == s.sock && s'.controlCloses == s.controlCloses && s'.mutex == s.mutex
    ensures s.conn != Connected && NoneChecked(s.l) ==> NoneChecked(s'.l)
    ensures step.Register? ==> At(s, step.f, Checked)
    ensures !step.Register? ==> s'.l.table <= s.l.table
    ensures s.l.table == {} ==> s'.l.tasks == s.l.tasks
  {
    SenderTouches(c, s, s', step);
    SenderTables(c, s, s', step);
    CheckedNeedsConnected(c, s, s', step);
    hide SenderNext;
  }

  lemma CompleterEffect(c: Config, s: State, s': State, step: CompleterStep)
    requires CompleterNext(c, s, s', step)
    ensures s'.conn == s.conn && s'.sock == s.sock && s'.controlCloses == s.controlCloses && s'.mutex == s.mutex
    ensures NoneChecked(s.l) ==> NoneChecked(s'.l)
    ensures s'.l.table <= s.l.table
    ensures s.l.table == {} && s.l.tasks == map[] ==> false
  {
  }

  lemma LifecycleKeptUnderMutex(c: Config, s: State, s': State, step: LifecycleStep)
    requires Lifecycle(s) && Drained(s) && LifecycleNext(c, s, s', step)
    ensures Lifecycle(s')
  {
  }

  lemma LifecycleKept(c: Config, s: State, s': State, step: Step)
    requires Lifecycle(s) && Drained(s) && NextStep(c, s, s', step)
    ensures Lifecycle(s')
  {
    hide SenderNext, CompleterNext, LifecycleNext;
    match step
    case BySender(x) => SenderEffect(c, s, s', x);
    case ByCompleter(x) => CompleterEffect(c, s, s', x);
    case ByWriter(x) =>
    case ByLifecycle(x) => LifecycleKeptUnderMutex(c, s, s', x);
  }

  /** requestCnt == 0 means an empty ledger. */
  lemma ZeroMeansIdle(c: Config, l: Ledger)
    requires Sound(c, l) && l.requestCnt == 0
    ensures l.table == {} && l.tasks == map[] && NoneChecked(l)
  {
    hide Sound;
    ZeroExactly(c, l);
  }

  lemma DrainedKeptUnderMutex(c: Config, s: State, s': State, step: LifecycleStep)
    requires Sound(c, s.l) && Drained(s) && LifecycleNext(c, s, s', step)
    ensures Drained(s')
  {
    if step.ShutdownCheck? && s.l.requestCnt == 0 {
      ZeroMeansIdle(c, s.l);
    }
  }

  lemma DrainedKept(c: Config, s: State, s': State, step: Step)
    requires Sound(c, s.l) && Lifecycle(s) && Drained(s) && NextStep(c, s, s', step)
    ensures Drained(s')
  {
    hide Sound, SenderNext, CompleterNext, LifecycleNext;
    match step
    case BySender(x) => SenderEffect(c, s, s', x);
    case ByCompleter(x) => CompleterEffect(c, s, s', x);
    case ByWriter(x) =>
    case ByLifecycle(x) => DrainedKeptUnderMutex(c, s, s', x);
  }
}
