/**
 What the multiplexer guarantees over every run, that is, over every interleaving of its
 goroutines from the start of Connect.
 */
module MuxTheorems {
  import opened Common
  import opened Mux
  import opened MuxLedger
  import opened MuxLifecycle
  import opened MuxFrames
  import opened MuxFlush

  /** A request is registered in an earlier session than any socket still to be opened. */
  ghost predicate BornOk(s: State, f: nat) {
    f in s.l.sends && s.l.sends[f].born.Some? ==>
      && s.l.sends[f].born.value <= s.session
      && (s.sock == None && !s.mutex.Closing? ==> s.l.sends[f].born.value < s.session)
  }

  ghost predicate Good(c: Config, s: State) {
    && Sound(c, s.l) && Lifecycle(s) && Drained(s) && Lives(c, s) && Frames(c, s) && NoLostFlush(s)
    && (forall f :: BornOk(s, f))
  }

  lemma InitGood(c: Config, s: State)
    requires Init(c, s)
    ensures Good(c, s)
  {
    assert Pick(s.l.sends, BeforeRegistration) == {} && Pick(s.l.sends, LeftEarly) == {};
    assert Pick(s.l.sends, HoldsToken) == {};
  }

  /** Registration is final, and it needs an open socket. */
  lemma BornBySender(c: Config, s: State, s': State, step: SenderStep, f: nat)
    requires FutureOk(c, s.l, f) && SenderNext(c, s, s', step)
    ensures s'.sock == s.sock && s'.session == s.session && s'.mutex == s.mutex
    ensures f in s.l.sends ==> f in s'.l.sends && s'.l.sends[f].ctx == s.l.sends[f].ctx
    ensures f in s.l.sends && s.l.sends[f].born.Some? ==> s'.l.sends[f].born == s.l.sends[f].born
    ensures f in s'.l.sends && s'.l.sends[f].born.Some? && !(f in s.l.sends && s.l.sends[f].born.Some?) ==>
              s'.l.sends[f].born == Some(s.session) && !NoneChecked(s.l)
  {
    SenderTouches(c, s, s', step);
    SenderAdvances(c, s, s', step);
    hide SenderNext;
  }

  lemma BornByCompleter(c: Config, s: State, s': State, step: CompleterStep, f: nat)
    requires CompleterNext(c, s, s', step)
    ensures s'.sock == s.sock && s'.session == s.session && s'.mutex == s.mutex
    ensures s'.l.sends.Keys == s.l.sends.Keys
    ensures f in s.l.sends ==> s'.l.sends[f].born == s.l.sends[f].born && s'.l.sends[f].ctx == s.l.sends[f].ctx
  {
  }

  lemma BornUnderMutex(c: Config, s: State, s': State, step: LifecycleStep, f: nat)
    requires Lifecycle(s) && BornOk(s, f) && LifecycleNext(c, s, s', step)
    ensures BornOk(s', f) && s'.l.sends == s.l.sends
  {
  }

  lemma BornKept(c: Config, s: State, s': State, step: Step, f: nat)
    requires Good(c, s) && NextStep(c, s, s', step)
    ensures BornOk(s', f)
    ensures f in s.l.sends ==> f in s'.l.sends && s'.l.sends[f].ctx == s.l.sends[f].ctx
    ensures f in s.l.sends && s.l.sends[f].born.Some? ==> s'.l.sends[f].born == s.l.sends[f].born
  {
    hide FutureOk, Drained, Lives, Frames, NoLostFlush, SenderNext, CompleterNext, LifecycleNext;
    assert BornOk(s, f) && FutureOk(c, s.l, f);
    match step
    case BySender(x) => BornBySender(c, s, s', x, f);
    case ByCompleter(x) => BornByCompleter(c, s, s', x, f);
    case ByWriter(x) =>
    case ByLifecycle(x) => BornUnderMutex(c, s, s', x, f);
  }

  lemma StepGood(c: Config, s: State, s': State)
    requires Good(c, s) && Next(c, s, s')
    ensures Good(c, s')
  {
    var step :| NextStep(c, s, s', step);
    StepKeepsSound(c, s, s', step);
    LifecycleKept(c, s, s', step);
    DrainedKept(c, s, s', step);
    LivesKept(c, s, s', step);
    FramesKept(c, s, s', step);
    FlushKept(c, s, s', step);
    forall f ensures BornOk(s', f) { BornKept(c, s, s', step, f); }
  }

  lemma {:induction false} RunGood(c: Config, run: seq<State>, i: nat)
    requires IsRun(c, run) && i < |run|
    ensures Good(c, run[i])
  {
    if i == 0 {
      InitGood(c, run[0]);
    } else {
      RunGood(c, run, i - 1);
      assert StepAt(c, run, i - 1);
      StepGood(c, run[i - 1], run[i]);
    }
  }

  // ----- the ledger -----

  /** Every registered future leaves the tables at most once, is completed at most once and
      only after it left, and is marked done at most once and only after that. */
  lemma ExactlyOnce(c: Config, run: seq<State>, i: nat, f: nat)
    requires IsRun(c, run) && i < |run|
    ensures var h := run[i].l.hist;
            && h[Counted(f)] <= h[Left(f)] <= h[Registered(f)] <= 1
            && h[Counted(f)] <= h[Settled(f)] <= 1
            && (h[Registered(f)] == 1 ==> h[Settled(f)] <= h[Left(f)])
            && (h[Settled(f)] == 1 <==> f in run[i].l.done)
    ensures run[i].l.table == {} && run[i].l.tasks == map[] && run[i].l.hist[Registered(f)] == 1 ==>
              run[i].l.hist[Left(f)] == 1 && run[i].l.hist[Settled(f)] == 1 && run[i].l.hist[Counted(f)] == 1
  {
    RunGood(c, run, i);
    assert FutureOk(c, run[i].l, f);
  }

  /** SetResponse and SetError of whoever removed a future never find it done already, so the
      outcome of a future is the one its remover chose. */
  lemma CompletionIsEffective(c: Config, run: seq<State>, i: nat, a: nat)
    requires IsRun(c, run) && i + 1 < |run| && CompleterNext(c, run[i], run[i + 1], SetOutcome(a))
    ensures var t := run[i].l.tasks[a];
            t.f !in run[i].l.done && run[i + 1].l.done == run[i].l.done[t.f := t.ok]
  {
    RunGood(c, run, i);
    assert TaskOk(c, run[i].l, a);
  }

  /** So are the errors set inside a removal, by the timeout sweep and by the clear of
      closeConnection. */
  lemma ExpulsionIsEffective(c: Config, run: seq<State>, i: nat, f: nat, a: nat)
    requires IsRun(c, run) && i + 1 < |run|
    requires CompleterNext(c, run[i], run[i + 1], Sweep(f, a)) || LifecycleNext(c, run[i], run[i + 1], CloseFail(f, a))
    ensures f !in run[i].l.done && run[i + 1].l.done == run[i].l.done[f := false]
    ensures f in run[i].l.table && run[i + 1].l.table == run[i].l.table - {f}
  {
    hide Lifecycle, Drained, Lives, Frames, NoLostFlush, BornOk;
    RunGood(c, run, i);
    assert FutureOk(c, run[i].l, f);
  }

  /** The steps that complete a future with a response rather than an error. */
  predicate Answers(step: Step) {
    (step.ByCompleter? && step.completer.ReaderFetch?) || (step.BySender? && step.sender.AsyncFetch?)
  }

  /** A future that has left the tables and whose outcome is, or is going to be, a response or an error. */
  ghost predicate Decided(l: Ledger, f: nat, answered: bool) {
    && f in l.sends && l.sends[f].born.Some? && f !in l.table
    && if f in l.done then l.done[f] == answered
       else f in l.held && l.held[f] in l.tasks && l.tasks[l.held[f]].f == f && l.tasks[l.held[f]].ok == answered
  }

  lemma DecidedBySender(c: Config, s: State, s': State, step: SenderStep, f: nat)
    requires FutureOk(c, s.l, f) && SenderNext(c, s, s', step) && f in s.l.table && f !in s'.l.table
    ensures Decided(s'.l, f, step.AsyncFetch?)
  {
  }

  lemma DecidedByCompleter(c: Config, s: State, s': State, step: CompleterStep, f: nat)
    requires FutureOk(c, s.l, f) && CompleterNext(c, s, s', step) && f in s.l.table && f !in s'.l.table
    ensures Decided(s'.l, f, step.ReaderFetch?)
  {
  }

  lemma DecidedUnderMutex(c: Config, s: State, s': State, step: LifecycleStep, f: nat)
    requires FutureOk(c, s.l, f) && LifecycleNext(c, s, s', step) && f in s.l.table && f !in s'.l.table
    ensures Decided(s'.l, f, false)
  {
  }

  /** Leaving the tables decides the outcome. */
  lemma LeavingDecides(c: Config, s: State, s': State, step: Step, f: nat)
    requires Good(c, s) && NextStep(c, s, s', step) && f in s.l.table && f !in s'.l.table
    ensures Decided(s'.l, f, Answers(step))
  {
    hide FutureOk, TaskOk, Lifecycle, Drained, Lives, Frames, NoLostFlush, BornOk, SenderNext, CompleterNext,
      LifecycleNext, Decided;
    assert FutureOk(c, s.l, f);
    match step
    case BySender(x) => DecidedBySender(c, s, s', x, f);
    case ByCompleter(x) => DecidedByCompleter(c, s, s', x, f);
    case ByWriter(x) =>
    case ByLifecycle(x) => DecidedUnderMutex(c, s, s', x, f);
  }

  lemma StaysDecidedByFetch(c: Config, s: State, s': State, step: SenderStep, f: nat, answered: bool)
    requires SenderNext(c, s, s', step) && Fetches(step) && Decided(s.l, f, answered)
    ensures Decided(s'.l, f, answered)
  {
  }

  lemma StaysDecidedBySender(c: Config, s: State, s': State, step: SenderStep, f: nat, answered: bool)
    requires FutureOk(c, s.l, step.f) && SenderNext(c, s, s', step) && Decided(s.l, f, answered)
    ensures Decided(s'.l, f, answered)
  {
    if Fetches(step) {
      hide SenderNext, Decided;
      StaysDecidedByFetch(c, s, s', step, f, answered);
    } else {
      TasksOfOthers(c, s, s', step);
      SenderTouches(c, s, s', step);
      SenderAdvances(c, s, s', step);
      SenderMovesPlaces(c, s, s', step, f);
      HeldByOthers(c, s, s', step);
      hide SenderNext, Recorded;
    }
  }

  lemma HeldByOthers(c: Config, s: State, s': State, step: SenderStep)
    requires !Fetches(step) && SenderNext(c, s, s', step)
    ensures s'.l.held == s.l.held
    ensures forall f :: f in s'.l.done && f !in s.l.done ==> f == step.f && (step.CtxDone? || step.FailWait?)
    ensures step.CtxDone? ==> At(s, step.f, Checked)
    ensures step.FailWait? ==> step.f in s.l.done
  {
  }

  predicate Removes(step: CompleterStep) {
    step.Watchdog? || step.ReaderFetch? || step.Sweep?
  }

  lemma StaysDecidedByRemoval(c: Config, s: State, s': State, step: CompleterStep, f: nat, answered: bool)
    requires CompleterNext(c, s, s', step) && Removes(step) && Decided(s.l, f, answered)
    ensures Decided(s'.l, f, answered)
  {
  }

  lemma StaysDecidedByCompleter(c: Config, s: State, s': State, step: CompleterStep, f: nat, answered: bool)
    requires f in s.l.held ==> TaskOk(c, s.l, s.l.held[f])
    requires !Removes(step) ==> TaskOk(c, s.l, step.a)
    requires CompleterNext(c, s, s', step) && Decided(s.l, f, answered)
    ensures Decided(s'.l, f, answered)
  {
    if Removes(step) {
      hide CompleterNext, Decided;
      StaysDecidedByRemoval(c, s, s', step, f, answered);
    }
  }

  lemma StaysDecidedUnderMutex(c: Config, s: State, s': State, step: LifecycleStep, f: nat, answered: bool)
    requires LifecycleNext(c, s, s', step) && Decided(s.l, f, answered)
    ensures Decided(s'.l, f, answered)
  {
  }

  lemma StaysDecided(c: Config, s: State, s': State, f: nat, answered: bool)
    requires Good(c, s) && Next(c, s, s') && Decided(s.l, f, answered)
    ensures Decided(s'.l, f, answered)
  {
    hide FutureOk, TaskOk, Lifecycle, Drained, Lives, Frames, NoLostFlush, BornOk, SenderNext, CompleterNext,
      LifecycleNext, Decided;
    var step :| NextStep(c, s, s', step);
    match step
    case BySender(x) =>
      assert FutureOk(c, s.l, x.f);
      StaysDecidedBySender(c, s, s', x, f, answered);
    case ByCompleter(x) =>
      assert f in s.l.held ==> TaskOk(c, s.l, s.l.held[f]);
      assert !Removes(x) ==> TaskOk(c, s.l, x.a);
      StaysDecidedByCompleter(c, s, s', x, f, answered);
    case ByWriter(x) =>
    case ByLifecycle(x) => StaysDecidedUnderMutex(c, s, s', x, f, answered);
  }

  lemma {:induction false} DecidedForGood(c: Config, run: seq<State>, i: nat, j: nat, f: nat, answered: bool)
    requires IsRun(c, run) && i <= j < |run| && Decided(run[i].l, f, answered)
    ensures Decided(run[j].l, f, answered)
  {
    hide Good, NextStep, Init, Decided;
    if i < j {
      DecidedForGood(c, run, i, j - 1, f, answered);
      RunGood(c, run, j - 1);
      assert StepAt(c, run, j - 1);
      StaysDecided(c, run[j - 1], run[j], f, answered);
    }
  }

  /** How a future leaves the tables decides its outcome for good: a response if the reader or an async
      send has taken it, an error if anybody else has. */
  lemma RemovalDecidesOutcome(c: Config, run: seq<State>, i: nat, j: nat, step: Step, f: nat)
    requires IsRun(c, run) && i < j < |run| && NextStep(c, run[i], run[i + 1], step)
    requires f in run[i].l.table && f !in run[i + 1].l.table
    ensures f in run[j].l.done ==> run[j].l.done[f] == Answers(step)
    ensures f !in run[j].l.table
  {
    hide Good, NextStep, IsRun, Decided;
    RunGood(c, run, i);
    LeavingDecides(c, run[i], run[i + 1], step, f);
    DecidedForGood(c, run, i + 1, j, f, Answers(step));
    DecidedOutcome(run[j].l, f, Answers(step));
  }

  lemma DecidedOutcome(l: Ledger, f: nat, answered: bool)
    requires Decided(l, f, answered)
    ensures f !in l.table && (f in l.done ==> l.done[f] == answered)
  {
  }

  /** The future a step is about, if the step takes one out of the tables. */
  function Taken(step: Step): Option<nat> {
    match step
    case BySender(SendCancel(f, _)) => Some(f)
    case BySender(FailFetch(f, _)) => Some(f)
    case BySender(AsyncFetch(f, _)) => Some(f)
    case ByCompleter(Watchdog(f, _)) => Some(f)
    case ByCompleter(ReaderFetch(f, _)) => Some(f)
    case ByCompleter(Sweep(f, _)) => Some(f)
    case ByLifecycle(CloseFail(f, _)) => Some(f)
    case _ => None
  }

  /** These steps take their future out of the tables and no other; no other step takes any. */
  lemma TakenLeaves(c: Config, s: State, s': State, step: Step, f: nat)
    requires NextStep(c, s, s', step) && f in s.l.table
    ensures f in s'.l.table <==> Taken(step) != Some(f)
  {
    hide SenderNext, CompleterNext, LifecycleNext;
    match step
    case BySender(x) => TakenBySender(c, s, s', x, f);
    case ByCompleter(x) => TakenByCompleter(c, s, s', x, f);
    case ByWriter(x) =>
    case ByLifecycle(x) => TakenUnderMutex(c, s, s', x, f);
  }

  lemma TakenBySender(c: Config, s: State, s': State, step: SenderStep, f: nat)
    requires SenderNext(c, s, s', step) && f in s.l.table
    ensures f in s'.l.table <==> Taken(BySender(step)) != Some(f)
  {
  }

  lemma TakenByCompleter(c: Config, s: State, s': State, step: CompleterStep, f: nat)
    requires CompleterNext(c, s, s', step) && f in s.l.table
    ensures f in s'.l.table <==> Taken(ByCompleter(step)) != Some(f)
  {
  }

  lemma TakenUnderMutex(c: Config, s: State, s': State, step: LifecycleStep, f: nat)
    requires LifecycleNext(c, s, s', step) && f in s.l.table
    ensures f in s'.l.table <==> Taken(ByLifecycle(step)) != Some(f)
  {
  }

  /** So a future that the reader has taken is completed with a response and with nothing else, and so is
      a live one taken by an async send; one taken by a watchdog, the sweep, a close, a cancelled send or
      a failed pack is completed with an error. */
  lemma OutcomeOfTaken(c: Config, run: seq<State>, i: nat, j: nat, step: Step, f: nat)
    requires IsRun(c, run) && i < j < |run| && NextStep(c, run[i], run[i + 1], step)
    requires Taken(step) == Some(f) && f in run[i].l.table
    ensures f in run[j].l.done ==> run[j].l.done[f] == Answers(step)
  {
    TakenLeaves(c, run[i], run[i + 1], step, f);
    RemovalDecidesOutcome(c, run, i, j, step, f);
  }

  lemma DoneBySender(c: Config, s: State, s': State, step: SenderStep, f: nat)
    requires SenderNext(c, s, s', step) && f in s.l.done
    ensures f in s'.l.done && s'.l.done[f] == s.l.done[f]
  {
    SenderMovesPlaces(c, s, s', step, f);
    hide SenderNext;
  }

  lemma DoneByCompleter(c: Config, s: State, s': State, step: CompleterStep, f: nat)
    requires CompleterNext(c, s, s', step) && f in s.l.done
    ensures f in s'.l.done && s'.l.done[f] == s.l.done[f]
  {
  }

  lemma DoneUnderMutex(c: Config, s: State, s': State, step: LifecycleStep, f: nat)
    requires LifecycleNext(c, s, s', step) && f in s.l.done
    ensures f in s'.l.done && s'.l.done[f] == s.l.done[f]
  {
  }

  lemma DoneKept(c: Config, s: State, s': State, f: nat)
    requires Next(c, s, s') && f in s.l.done
    ensures f in s'.l.done && s'.l.done[f] == s.l.done[f]
  {
    hide SenderNext, CompleterNext, LifecycleNext;
    var step :| NextStep(c, s, s', step);
    match step
    case BySender(x) => DoneBySender(c, s, s', x, f);
    case ByCompleter(x) => DoneByCompleter(c, s, s', x, f);
    case ByWriter(x) =>
    case ByLifecycle(x) => DoneUnderMutex(c, s, s', x, f);
  }

  /** Once completed, a future keeps its outcome. */
  lemma {:induction false} OutcomeIsFinal(c: Config, run: seq<State>, i: nat, j: nat, f: nat)
    requires IsRun(c, run) && i <= j < |run| && f in run[i].l.done
    ensures f in run[j].l.done && run[j].l.done[f] == run[i].l.done[f]
  {
    hide NextStep, Init;
    if i < j {
      OutcomeIsFinal(c, run, i, j - 1, f);
      assert StepAt(c, run, j - 1);
      DoneKept(c, run[j - 1], run[j], f);
    }
  }

  /** requestCnt is exactly the sum of its four kinds of request. */
  lemma RequestCount(c: Config, run: seq<State>, i: nat)
    requires IsRun(c, run) && i < |run|
    ensures var l := run[i].l;
            l.requestCnt == |l.table| + |l.tasks.Keys|
                            + |set f | f in l.sends && BeforeRegistration(l.sends[f])|
                            + |set f | f in l.sends && l.sends[f].pc == Abandoned|
  {
    RunGood(c, run, i);
    var l := run[i].l;
    assert Pick(l.sends, BeforeRegistration) == set f | f in l.sends && BeforeRegistration(l.sends[f]);
    assert Pick(l.sends, LeftEarly) == set f | f in l.sends && l.sends[f].pc == Abandoned;
  }

  /** In RLimitDrop mode there are never more live futures than RateLimit, and the receive in
      markDone never has to wait for a token. */
  lemma RateLimited(c: Config, run: seq<State>, i: nat)
    requires IsRun(c, run) && i < |run| && c.limited
    ensures |run[i].l.table| <= c.rateLimit && run[i].l.tokens <= c.rateLimit
    ensures forall a :: a in run[i].l.tasks && run[i].l.tasks[a].stage != ToCount ==> run[i].l.tokens > 0
  {
    RunGood(c, run, i);
    var l := run[i].l;
    forall f | f in l.table ensures f in Pick(l.sends, HoldsToken) {
      assert FutureOk(c, l, f);
    }
    SubsetSize(l.table, Pick(l.sends, HoldsToken));
    forall a | a in l.tasks && l.tasks[a].stage != ToCount ensures l.tokens > 0 {
      TokenAvailable(c, l, a);
    }
  }

  /** A request is refused for two reasons only, and for each of them always: in RLimitDrop mode RateLimit
      requests hold a token, or the connection is not in Connected when its state is loaded. */
  lemma RefusedExactly(c: Config, run: seq<State>, i: nat, step: SenderStep, f: nat)
    requires IsRun(c, run) && i + 1 < |run| && SenderNext(c, run[i], run[i + 1], step)
    requires step == Admit(f) || step == Drop(f) || step == LoadState(f)
    ensures step.Admit? || step.Drop? ==>
              (At(run[i + 1], f, Refused) <==> c.limited && run[i].l.tokens == c.rateLimit)
    ensures step.LoadState? ==> (At(run[i + 1], f, Refused) <==> run[i].conn != Connected)
    ensures At(run[i + 1], f, Refused) ==> run[i + 1].l.table == run[i].l.table && run[i + 1].l.tokens == run[i].l.tokens
  {
    if c.limited {
      RateLimited(c, run, i);
    }
  }

  lemma {:induction false} SubsetSize(a: set<nat>, b: set<nat>)
    requires a <= b
    ensures |a| <= |b|
  {
    if x :| x in a {
      SubsetSize(a - {x}, b - {x});
    }
  }

  // ----- graceful shutdown -----

  /** Once shutdown has passed its wait, every request ever accepted has been completed and
      counted out. */
  lemma ShutdownLosesNothing(c: Config, run: seq<State>, i: nat)
    requires IsRun(c, run) && i < |run|
    requires run[i].mutex.ShutdownPassed? || (run[i].mutex.Closing? && run[i].mutex.graceful)
    ensures run[i].l.table == {}
    ensures forall f :: run[i].l.hist[Registered(f)] == 1 ==>
              f in run[i].l.done && run[i].l.hist[Left(f)] == 1 && run[i].l.hist[Counted(f)] == 1
  {
    RunGood(c, run, i);
    forall f | run[i].l.hist[Registered(f)] == 1
      ensures f in run[i].l.done && run[i].l.hist[Left(f)] == 1 && run[i].l.hist[Counted(f)] == 1
    {
      ExactlyOnce(c, run, i, f);
    }
  }

  /** From then until closeConnection is over, no request can register, and the clear of that
      closeConnection fails nobody. */
  lemma ShutdownAdmitsNobody(c: Config, run: seq<State>, i: nat, step: Step)
    requires IsRun(c, run) && i + 1 < |run| && NextStep(c, run[i], run[i + 1], step)
    requires run[i].mutex.ShutdownPassed? || (run[i].mutex.Closing? && run[i].mutex.graceful)
    ensures !(step.BySender? && step.sender.Register?)
    ensures !(step.ByLifecycle? && step.lifecycle.CloseFail?)
    ensures run[i + 1].mutex.ShutdownPassed? || (run[i + 1].mutex.Closing? && run[i + 1].mutex.graceful)
            || (step == ByLifecycle(CloseEnd) && run[i + 1].session == run[i].session + 1)
  {
    hide Sound, Lives, Frames, NoLostFlush, BornOk, SenderNext, CompleterNext;
    RunGood(c, run, i);
    match step
    case BySender(x) => SenderEffect(c, run[i], run[i + 1], x);
    case ByCompleter(x) => CompleterEffect(c, run[i], run[i + 1], x);
    case _ =>
  }

  /** requestCnt is zero exactly if nothing is live, under way, on its way in, or lost to the early
      "context is done" return. */
  lemma ZeroCount(c: Config, run: seq<State>, i: nat)
    requires IsRun(c, run) && i < |run|
    ensures run[i].l.requestCnt == 0 <==>
              && run[i].l.table == {} && run[i].l.tasks == map[]
              && forall f :: f in run[i].l.sends ==>
                   !BeforeRegistration(run[i].l.sends[f]) && run[i].l.sends[f].pc != Abandoned
  {
    hide Sound;
    RunGood(c, run, i);
    ZeroExactly(c, run[i].l);
  }

  /** So shutdown passes its wait at a check exactly if the connection is still the one it started
      on and all that is so; otherwise it leaves or waits on. */
  lemma ShutdownPassesExactly(c: Config, run: seq<State>, i: nat)
    requires IsRun(c, run) && i + 1 < |run| && NextStep(c, run[i], run[i + 1], ByLifecycle(ShutdownCheck))
    ensures run[i + 1].mutex.ShutdownPassed? <==>
              && run[i].conn == Shutdown && run[i].sock == Some(run[i].mutex.c)
              && run[i].l.table == {} && run[i].l.tasks == map[]
              && forall f :: f in run[i].l.sends ==>
                   !BeforeRegistration(run[i].l.sends[f]) && run[i].l.sends[f].pc != Abandoned
  {
    ZeroCount(c, run, i);
  }

  /** A connection that is shutting down has a goroutine that sees to it: it is in its loop, past its wait,
      or to be woken. */
  ghost predicate Attended(s: State) {
    s.conn == Shutdown && s.sock.Some? ==>
      s.mutex == ShutdownLoop(s.sock.value) || s.mutex == ShutdownPassed(s.sock.value) || s.sock.value in s.waiters
  }

  lemma AttendedUnderMutex(c: Config, s: State, s': State, step: LifecycleStep)
    requires Lifecycle(s) && Drained(s) && Attended(s) && LifecycleNext(c, s, s', step)
    ensures Attended(s')
  {
  }

  lemma AttendedKept(c: Config, s: State, s': State)
    requires Good(c, s) && Attended(s) && Next(c, s, s')
    ensures Attended(s')
  {
    hide Sound, Lifecycle, Drained, Lives, Frames, NoLostFlush, BornOk, SenderNext, CompleterNext, LifecycleNext;
    var step :| NextStep(c, s, s', step);
    match step
    case BySender(x) => SenderTouches(c, s, s', x);
    case ByCompleter(x) => OnlyLedger(c, s, s', x);
    case ByWriter(x) =>
    case ByLifecycle(x) => AttendedUnderMutex(c, s, s', x);
  }

  lemma {:induction false} ShutdownIsAttended(c: Config, run: seq<State>, i: nat)
    requires IsRun(c, run) && i < |run|
    ensures Attended(run[i])
  {
    hide Good, NextStep;
    if i > 0 {
      ShutdownIsAttended(c, run, i - 1);
      RunGood(c, run, i - 1);
      assert StepAt(c, run, i - 1);
      AttendedKept(c, run[i - 1], run[i]);
    }
  }

  lemma AbandonedBySender(c: Config, s: State, s': State, step: SenderStep, f: nat)
    requires SenderNext(c, s, s', step) && At(s, f, Abandoned)
    ensures At(s', f, Abandoned)
  {
    SenderTouches(c, s, s', step);
    SenderAdvances(c, s, s', step);
    hide SenderNext;
  }

  lemma AbandonedByCompleter(c: Config, s: State, s': State, step: CompleterStep, f: nat)
    requires CompleterNext(c, s, s', step) && At(s, f, Abandoned)
    ensures At(s', f, Abandoned)
  {
  }

  lemma AbandonedStays(c: Config, s: State, s': State, f: nat)
    requires Next(c, s, s') && At(s, f, Abandoned)
    ensures At(s', f, Abandoned)
  {
    hide SenderNext, CompleterNext, LifecycleNext;
    var step :| NextStep(c, s, s', step);
    match step
    case BySender(x) => AbandonedBySender(c, s, s', x, f);
    case ByCompleter(x) => AbandonedByCompleter(c, s, s', x, f);
    case ByWriter(x) =>
    case ByLifecycle(x) => SendsUnderMutex(c, s, s', x);
  }

  lemma AbandonedIsCounted(c: Config, l: Ledger, f: nat)
    requires Sound(c, l) && f in l.sends && l.sends[f].pc == Abandoned
    ensures l.requestCnt > 0
  {
    assert f in Pick(l.sends, LeftEarly);
  }

  lemma {:induction false} AbandonedForGood(c: Config, run: seq<State>, i: nat, j: nat, f: nat)
    requires IsRun(c, run) && i <= j < |run| && At(run[i], f, Abandoned)
    ensures At(run[j], f, Abandoned)
  {
    hide NextStep, Init;
    if i < j {
      AbandonedForGood(c, run, i, j - 1, f);
      assert StepAt(c, run, j - 1);
      AbandonedStays(c, run[j - 1], run[j], f);
    }
  }

  /** The price of the early "context is done" return: requestCnt never reaches 0 again, so no
      later graceful shutdown of this connection can pass its wait. */
  lemma AbandonedBlocksShutdown(c: Config, run: seq<State>, i: nat, j: nat, f: nat)
    requires IsRun(c, run) && i <= j < |run| && At(run[i], f, Abandoned)
    ensures run[j].l.requestCnt > 0
  {
    AbandonedForGood(c, run, i, j, f);
    RunGood(c, run, j);
    AbandonedIsCounted(c, run[j].l, f);
  }

  // ----- lifecycle -----

  lemma ClosedStays(c: Config, s: State, s': State)
    requires Good(c, s) && Next(c, s, s') && s.conn == Closed
    ensures s'.conn == Closed
  {
    hide Sound, Lives, Frames, NoLostFlush, BornOk, SenderNext, CompleterNext;
    var step :| NextStep(c, s, s', step);
    match step
    case BySender(x) => SenderEffect(c, s, s', x);
    case ByCompleter(x) => CompleterEffect(c, s, s', x);
    case ByWriter(x) =>
    case ByLifecycle(x) =>
  }

  /** Closed is absorbing and conn.control is closed exactly once, when Closed is entered. */
  lemma {:induction false} ClosedIsFinal(c: Config, run: seq<State>, i: nat, j: nat)
    requires IsRun(c, run) && i <= j < |run|
    ensures run[j].controlCloses == if run[j].conn == Closed then 1 else 0
    ensures run[i].conn == Closed ==> run[j].conn == Closed
  {
    hide Sound, Drained, Lives, Frames, NoLostFlush, BornOk, NextStep;
    RunGood(c, run, j);
    if i < j {
      ClosedIsFinal(c, run, i, j - 1);
      RunGood(c, run, j - 1);
      assert StepAt(c, run, j - 1);
      if run[i].conn == Closed {
        ClosedStays(c, run[j - 1], run[j]);
      }
    }
  }

  /** Loops of createConnection that run, sleep or are about to run. */
  function Dialers(s: State): nat {
    s.sleepers + Bit(s.mutex == Dialing) + Bit(s.mutex.Closing? && !s.mutex.forever)
  }

  ghost predicate DialersOk(s: State) {
    && Dialers(s) <= 1
    && (s.conn == Disconnected ==> Dialers(s) == 1)
    && (s.sock.Some? ==> s.sleepers == 0)
  }

  lemma DialersUnderMutex(c: Config, s: State, s': State, step: LifecycleStep)
    requires Lifecycle(s) && Drained(s) && DialersOk(s) && LifecycleNext(c, s, s', step)
    ensures DialersOk(s')
  {
  }

  lemma DialersKept(c: Config, s: State, s': State)
    requires Good(c, s) && DialersOk(s) && Next(c, s, s')
    ensures DialersOk(s')
  {
    hide Sound, Lifecycle, Drained, Lives, Frames, NoLostFlush, BornOk, SenderNext, CompleterNext, LifecycleNext;
    var step :| NextStep(c, s, s', step);
    match step
    case BySender(x) => SenderTouches(c, s, s', x);
    case ByCompleter(x) => OnlyLedger(c, s, s', x);
    case ByWriter(x) =>
    case ByLifecycle(x) => DialersUnderMutex(c, s, s', x);
  }

  lemma OnlyLedger(c: Config, s: State, s': State, step: CompleterStep)
    requires CompleterNext(c, s, s', step)
    ensures s' == s.(l := s'.l)
  {
  }

  /** A disconnected connection is being dialed by exactly one loop of createConnection, and there are never
      two, whatever breaks in the meantime. */
  lemma {:induction false} OneDialer(c: Config, run: seq<State>, i: nat)
    requires IsRun(c, run) && i < |run|
    ensures Dialers(run[i]) <= 1
    ensures run[i].conn == Disconnected ==> Dialers(run[i]) == 1
    ensures DialersOk(run[i])
  {
    hide Good, NextStep;
    if i > 0 {
      OneDialer(c, run, i - 1);
      RunGood(c, run, i - 1);
      assert StepAt(c, run, i - 1);
      DialersKept(c, run[i - 1], run[i]);
    }
  }

  /** closeConnection begins in four ways.  It closes the connection for good after Close, a failed dial,
      or without the Reconnect option, and otherwise leaves it to be dialed again; a broken socket that is
      no longer the current one does not disturb its successor. */
  lemma ClosingExactly(c: Config, run: seq<State>, i: nat, step: Step)
    requires IsRun(c, run) && i + 1 < |run| && NextStep(c, run[i], run[i + 1], step)
    requires !run[i].mutex.Closing? && run[i + 1].mutex.Closing?
    ensures step.ByLifecycle? && var x := step.lifecycle;
            && (x.UserClose? || x.GiveUp? || x.Reconnect? || x.ShutdownReconnect?)
            && run[i + 1].conn == (if x.UserClose? || x.GiveUp? || !c.reconnect then Closed else Disconnected)
            && (run[i + 1].mutex.graceful <==> x.ShutdownReconnect?)
            && (x.Reconnect? && c.reconnect ==> run[i].sock == Some(x.k))
    ensures run[i + 1].sock == None && InBuffers(run[i + 1].bufs) == {}
  {
    hide SenderNext, CompleterNext, IsRun;
    match step
    case BySender(x) => SenderTouches(c, run[i], run[i + 1], x);
    case ByCompleter(x) => CompleterEffect(c, run[i], run[i + 1], x);
    case ByWriter(x) =>
    case ByLifecycle(x) =>
  }

  /** And it ends with every future completed and the mutex free, or held for dialing again. */
  lemma ClosingEnds(c: Config, run: seq<State>, i: nat)
    requires IsRun(c, run) && i + 1 < |run| && NextStep(c, run[i], run[i + 1], ByLifecycle(CloseEnd))
    ensures run[i + 1].mutex == if run[i].conn == Closed then Free else Dialing
    ensures run[i + 1].l.table == {} && run[i + 1].conn == run[i].conn
    ensures run[i].conn == Closed || run[i].conn == Disconnected
  {
    hide Sound, Drained, Lives, Frames, NoLostFlush, BornOk;
    RunGood(c, run, i);
  }

  /** With the shard locks free, the socket is set exactly in Connected and Shutdown, and the
      tables are empty in Disconnected and Closed. */
  lemma SocketMatchesState(c: Config, run: seq<State>, i: nat)
    requires IsRun(c, run) && i < |run|
    ensures var s := run[i];
            && (s.sock.Some? <==> s.conn == Connected || s.conn == Shutdown)
            && (!s.mutex.Closing? && (s.conn == Disconnected || s.conn == Closed) ==> s.l.table == {})
  {
    RunGood(c, run, i);
  }

  // ----- locks and channels -----

  /** The channel of dirty shards within its capacity, and one sender at a time in the critical section of
      a shard. */
  ghost predicate WithinBounds(c: Config, s: State) {
    && |s.dirty| <= c.dirtyCap
    && (forall f :: f in s.l.sends ==> s.l.sends[f].shard < c.shards)
    && (forall f, g :: At(s, f, Checked) && At(s, g, Checked) && s.l.sends[f].shard == s.l.sends[g].shard ==> f == g)
  }

  lemma ShardsBySender(c: Config, s: State, s': State, step: SenderStep)
    requires SenderNext(c, s, s', step)
    ensures |s.dirty| <= c.dirtyCap ==> |s'.dirty| <= c.dirtyCap
    ensures step.f in s'.l.sends && (step.Begin? ==> s'.l.sends[step.f].shard < c.shards)
    ensures !step.Begin? ==> step.f in s.l.sends && s'.l.sends[step.f].shard == s.l.sends[step.f].shard
    ensures At(s', step.f, Checked) ==>
              forall g :: At(s, g, Checked) ==> s.l.sends[g].shard != s'.l.sends[step.f].shard
  {
  }

  lemma BoundsBySender(c: Config, s: State, s': State, step: SenderStep)
    requires SenderNext(c, s, s', step) && WithinBounds(c, s)
    ensures WithinBounds(c, s')
  {
    SenderTouches(c, s, s', step);
    ShardsBySender(c, s, s', step);
    hide SenderNext;
    forall g | g != step.f ensures At(s', g, Checked) <==> At(s, g, Checked) {}
  }

  lemma SendsByCompleter(c: Config, s: State, s': State, step: CompleterStep)
    requires CompleterNext(c, s, s', step)
    ensures s'.l.sends.Keys == s.l.sends.Keys && s'.dirty == s.dirty
    ensures forall f :: f in s.l.sends ==> s'.l.sends[f].pc == s.l.sends[f].pc && s'.l.sends[f].shard == s.l.sends[f].shard
  {
  }

  lemma DirtyUnderMutex(c: Config, s: State, s': State, step: LifecycleStep)
    requires LifecycleNext(c, s, s', step)
    ensures s'.dirty == s.dirty && s'.l.sends == s.l.sends
  {
  }

  lemma BoundsKept(c: Config, s: State, s': State)
    requires Next(c, s, s') && WithinBounds(c, s)
    ensures WithinBounds(c, s')
  {
    hide SenderNext, CompleterNext, LifecycleNext;
    var step :| NextStep(c, s, s', step);
    match step
    case BySender(x) => BoundsBySender(c, s, s', x);
    case ByCompleter(x) => SendsByCompleter(c, s, s', x);
    case ByWriter(x) =>
    case ByLifecycle(x) => DirtyUnderMutex(c, s, s', x);
  }

  lemma {:induction false} RunBounds(c: Config, run: seq<State>, i: nat)
    requires IsRun(c, run) && i < |run|
    ensures WithinBounds(c, run[i])
  {
    hide NextStep;
    if i > 0 {
      RunBounds(c, run, i - 1);
      assert StepAt(c, run, i - 1);
      BoundsKept(c, run[i - 1], run[i]);
    }
  }

  /** The rmut of a shard admits one sender at a time, and none while closeConnection has the locks. */
  lemma OneInSection(c: Config, run: seq<State>, i: nat, f: nat)
    requires IsRun(c, run) && i < |run| && At(run[i], f, Checked)
    ensures !run[i].mutex.Closing?
    ensures forall g :: At(run[i], g, Checked) && run[i].l.sends[g].shard == run[i].l.sends[f].shard ==> g == f
  {
    RunBounds(c, run, i);
    RunGood(c, run, i);
  }

  /** A request always finds the buffer of its shard, and the dirty-shard channel never holds more than it
      can. */
  lemma ShardsInRange(c: Config, run: seq<State>, i: nat, f: nat)
    requires IsRun(c, run) && i < |run|
    ensures |run[i].dirty| <= c.dirtyCap
    ensures f in run[i].l.sends ==> run[i].l.sends[f].shard < |run[i].bufs|
  {
    RunBounds(c, run, i);
    RunGood(c, run, i);
  }

  // ----- frames -----

  lemma SocketsByCompleter(c: Config, s: State, s': State, step: CompleterStep)
    requires CompleterNext(c, s, s', step)
    ensures s'.sockets == s.sockets
  {
  }

  /** Only dialing opens a socket, in the session of that moment. */
  lemma SocketsUnderMutex(c: Config, s: State, s': State, step: LifecycleStep)
    requires LifecycleNext(c, s, s', step)
    ensures s'.sockets == if step.DialOk? then s.sockets[step.k := s.session] else s.sockets
    ensures step.DialOk? ==> s.sock == None && !s.mutex.Closing? && step.k !in s.sockets
  {
  }

  lemma NewSocketIsYounger(c: Config, s: State, s': State, k: nat, f: nat)
    requires Good(c, s) && Next(c, s, s') && f in s.l.sends && s.l.sends[f].born.Some?
    requires k in s.sockets ==> s.l.sends[f].born.value < s.sockets[k]
    ensures f in s'.l.sends && s'.l.sends[f].born == s.l.sends[f].born && s'.l.sends[f].ctx == s.l.sends[f].ctx
    ensures k in s'.sockets ==> s.l.sends[f].born.value < s'.sockets[k]
  {
    hide Sound, Lifecycle, Drained, Lives, Frames, NoLostFlush, SenderNext, CompleterNext, LifecycleNext;
    var step :| NextStep(c, s, s', step);
    BornKept(c, s, s', step, f);
    assert BornOk(s, f);
    match step
    case BySender(x) => SenderTouches(c, s, s', x);
    case ByCompleter(x) => SocketsByCompleter(c, s, s', x);
    case ByWriter(x) =>
    case ByLifecycle(x) => SocketsUnderMutex(c, s, s', x);
  }

  lemma {:induction false} SocketsAreYounger(c: Config, run: seq<State>, i: nat, j: nat, k: nat, f: nat)
    requires IsRun(c, run) && i <= j < |run|
    requires f in run[i].l.sends && run[i].l.sends[f].born.Some? && k !in run[i].sockets
    ensures f in run[j].l.sends && run[j].l.sends[f].born == run[i].l.sends[f].born
    ensures run[j].l.sends[f].ctx == run[i].l.sends[f].ctx
    ensures k in run[j].sockets ==> run[i].l.sends[f].born.value < run[j].sockets[k]
  {
    hide Good, NextStep, Init;
    if i < j {
      SocketsAreYounger(c, run, i, j - 1, k, f);
      RunGood(c, run, j - 1);
      assert StepAt(c, run, j - 1);
      NewSocketIsYounger(c, run[j - 1], run[j], k, f);
    }
  }

  lemma SocketStays(c: Config, s: State, s': State, k: nat)
    requires Next(c, s, s') && k in s.sockets
    ensures k in s'.sockets && s'.sockets[k] == s.sockets[k]
  {
    hide SenderNext, CompleterNext, LifecycleNext;
    var step :| NextStep(c, s, s', step);
    match step
    case BySender(x) => SenderTouches(c, s, s', x);
    case ByCompleter(x) => SocketsByCompleter(c, s, s', x);
    case ByWriter(x) =>
    case ByLifecycle(x) => SocketsUnderMutex(c, s, s', x);
  }

  /** A socket keeps its session. */
  lemma {:induction false} SocketsAreFixed(c: Config, run: seq<State>, i: nat, j: nat, k: nat)
    requires IsRun(c, run) && i <= j < |run| && k in run[i].sockets
    ensures k in run[j].sockets && run[j].sockets[k] == run[i].sockets[k]
  {
    hide NextStep, Init;
    if i < j {
      SocketsAreFixed(c, run, i, j - 1, k);
      assert StepAt(c, run, j - 1);
      SocketStays(c, run[j - 1], run[j], k);
    }
  }

  /** Packed once, in that session, and past it. */
  ghost predicate PackedIn(l: Ledger, f: nat, session: nat) {
    f in l.sends && PastPack(l.sends[f].pc) && f in l.packed && l.packed[f] == session
  }

  lemma PackedBySender(c: Config, s: State, s': State, step: SenderStep, f: nat, session: nat)
    requires SenderNext(c, s, s', step) && PackedIn(s.l, f, session)
    ensures PackedIn(s'.l, f, session)
  {
    PastPackStays(c, s, s', step, f);
    LateGrows(c, s, s', step);
    hide SenderNext;
  }

  lemma PackedByCompleter(c: Config, s: State, s': State, step: CompleterStep, f: nat, session: nat)
    requires CompleterNext(c, s, s', step) && PackedIn(s.l, f, session)
    ensures PackedIn(s'.l, f, session)
  {
  }

  lemma PackedStays(c: Config, s: State, s': State, f: nat, session: nat)
    requires Next(c, s, s') && PackedIn(s.l, f, session)
    ensures PackedIn(s'.l, f, session)
  {
    hide SenderNext, CompleterNext, LifecycleNext;
    var step :| NextStep(c, s, s', step);
    match step
    case BySender(x) => PackedBySender(c, s, s', x, f, session);
    case ByCompleter(x) => PackedByCompleter(c, s, s', x, f, session);
    case ByWriter(x) =>
    case ByLifecycle(x) => SendsUnderMutex(c, s, s', x);
  }

  lemma {:induction false} PackedForGood(c: Config, run: seq<State>, i: nat, j: nat, f: nat, session: nat)
    requires IsRun(c, run) && i <= j < |run| && PackedIn(run[i].l, f, session)
    ensures PackedIn(run[j].l, f, session)
  {
    hide NextStep, Init, PackedIn;
    if i < j {
      PackedForGood(c, run, i, j - 1, f, session);
      assert StepAt(c, run, j - 1);
      PackedStays(c, run[j - 1], run[j], f, session);
    }
  }

  /** Bytes of a request are only ever written to a socket of the session in which it was packed. */
  lemma WrittenWherePacked(c: Config, run: seq<State>, i: nat, j: nat, k: nat, f: nat)
    requires IsRun(c, run) && i < j < |run| && NextStep(c, run[i], run[i + 1], BySender(PutPack(f)))
    requires (k, f) in run[j].wire
    ensures k in run[j].sockets && run[j].sockets[k] == run[i].session
  {
    PackedForGood(c, run, i + 1, j, f, run[i].session);
    hide Sound, Lifecycle, Drained, Lives, NoLostFlush, BornOk, IsRun, NextStep;
    RunGood(c, run, j);
    assert WireOk(c, run[j], k, f);
  }

  /** A request is written to a socket that was opened after its registration exactly if a
      closeConnection has ended between its registration and its packing: r is a state in which the
      request is registered and still in its session, i the step that packs it. */
  lemma StaleExactly(c: Config, run: seq<State>, r: nat, i: nat, j: nat, k: nat, f: nat)
    requires IsRun(c, run) && r <= i < j < |run| && NextStep(c, run[i], run[i + 1], BySender(PutPack(f)))
    requires f in run[r].l.sends && run[r].l.sends[f].born == Some(run[r].session)
    requires (k, f) in run[j].wire
    ensures k !in run[r].sockets <==> run[i].session != run[r].session
  {
    WrittenWherePacked(c, run, i, j, k, f);
    hide Sound, Lifecycle, Drained, Lives, NoLostFlush, IsRun, NextStep;
    if k !in run[r].sockets {
      SocketsAreYounger(c, run, r, j, k, f);
    } else {
      SocketsAreFixed(c, run, r, j, k);
      RunGood(c, run, r);
      assert SocketOk(run[r], k);
      BornForGood(c, run, r, i, f);
      RunGood(c, run, i);
      assert BornOk(run[i], f);
    }
  }

  lemma {:induction false} BornForGood(c: Config, run: seq<State>, i: nat, j: nat, f: nat)
    requires IsRun(c, run) && i <= j < |run| && f in run[i].l.sends && run[i].l.sends[f].born.Some?
    ensures f in run[j].l.sends && run[j].l.sends[f].born == run[i].l.sends[f].born
  {
    hide Good, NextStep, Init;
    if i < j {
      BornForGood(c, run, i, j - 1, f);
      RunGood(c, run, j - 1);
      assert StepAt(c, run, j - 1);
      BornStays(c, run[j - 1], run[j], f);
    }
  }

  lemma BornStays(c: Config, s: State, s': State, f: nat)
    requires Good(c, s) && Next(c, s, s') && f in s.l.sends && s.l.sends[f].born.Some?
    ensures f in s'.l.sends && s'.l.sends[f].born == s.l.sends[f].born
  {
    hide Good, NextStep;
    var step :| NextStep(c, s, s', step);
    BornKept(c, s, s', step, f);
  }

  /** A request registered before a socket was opened never has bytes written to that socket, in
      whole or in part, unless it has a context and was packed late; provided the server only answers
      requests it was sent. */
  lemma StaleSendIsLate(c: Config, run: seq<State>, i: nat, j: nat, k: nat, f: nat)
    requires IsRun(c, run) && i <= j < |run| && c.honest
    requires f in run[i].l.sends && run[i].l.sends[f].born.Some? && k !in run[i].sockets
    requires (k, f) in run[j].wire
    ensures run[i].l.sends[f].ctx && f in run[j].l.late
  {
    hide Sound, Lifecycle, Drained, Lives, NoLostFlush, BornOk, IsRun;
    SocketsAreYounger(c, run, i, j, k, f);
    RunGood(c, run, j);
    assert WireOk(c, run[j], k, f);
  }

  /** A context-free request never does. */
  lemma NoStaleSend(c: Config, run: seq<State>, i: nat, j: nat, k: nat, f: nat)
    requires IsRun(c, run) && i <= j < |run| && c.honest
    requires f in run[i].l.sends && run[i].l.sends[f].born.Some? && !run[i].l.sends[f].ctx
    requires k !in run[i].sockets
    ensures (k, f) !in run[j].wire
  {
    if (k, f) in run[j].wire {
      StaleSendIsLate(c, run, i, j, k, f);
    }
  }

  lemma LateBySender(c: Config, s: State, s': State, step: SenderStep, f: nat)
    requires SenderNext(c, s, s', step) && f in s'.l.late && f !in s.l.late
    ensures step == PutPack(f) && At(s, f, Accepted) && f !in s.l.table && f !in s.l.done
  {
  }

  lemma LateByCompleter(c: Config, s: State, s': State, step: CompleterStep)
    requires CompleterNext(c, s, s', step)
    ensures s'.l.late == s.l.late
  {
  }

  /** Who has a future that is accepted, but neither live nor done. */
  lemma AcceptedButTaken(c: Config, s: State, f: nat)
    requires Sound(c, s.l) && Lives(c, s) && c.honest
    requires At(s, f, Accepted) && f !in s.l.table && f !in s.l.done
    ensures s.l.sends[f].ctx
    ensures f in s.l.held && s.l.held[f] in s.l.tasks && s.l.tasks[s.l.held[f]] == Task(f, false, ToSet)
  {
    assert FutureOk(c, s.l, f) && LiveOk(c, s, f);
    assert TaskOk(c, s.l, s.l.held[f]) && IntentOk(c, s.l, s.l.held[f]);
  }

  /** A request is packed late in one way only: its context is done, the watchdog has taken it out of
      the tables and not yet set its error, and in between putFuture appends its frame. */
  lemma LateOnlyAfterWatchdog(c: Config, run: seq<State>, i: nat, f: nat)
    requires IsRun(c, run) && i + 1 < |run| && c.honest
    requires f in run[i + 1].l.late && f !in run[i].l.late
    ensures var l := run[i].l;
            && At(run[i], f, Accepted) && l.sends[f].ctx && f !in l.table && f !in l.done
            && f in l.held && l.held[f] in l.tasks && l.tasks[l.held[f]] == Task(f, false, ToSet)
  {
    hide Sound, Lifecycle, Drained, Lives, Frames, NoLostFlush, BornOk, SenderNext, CompleterNext, LifecycleNext;
    var s, s' := run[i], run[i + 1];
    RunGood(c, run, i);
    assert StepAt(c, run, i);
    var step :| NextStep(c, s, s', step);
    match step {
      case BySender(x) => LateBySender(c, s, s', x, f);
      case ByCompleter(x) => LateByCompleter(c, s, s', x);
      case ByWriter(x) =>
      case ByLifecycle(x) => SendsUnderMutex(c, s, s', x);
    }
    AcceptedButTaken(c, s, f);
  }

  /** The panic "Future removed from queue without error" of putFuture is unreachable under
      an honest server: whoever took the future of a failed pack completed it with an error. */
  lemma NoPanicAfterFailedPack(c: Config, run: seq<State>, i: nat, f: nat)
    requires IsRun(c, run) && i < |run| && c.honest
    requires f in run[i].l.sends && run[i].l.sends[f].pc == Waiting && f in run[i].l.done
    ensures run[i].l.done[f] == false
  {
    RunGood(c, run, i);
    assert OutcomeOk(c, run[i].l, f);
  }

  /** No flush is ever lost. */
  lemma FlushIsOwed(c: Config, run: seq<State>, i: nat, n: nat)
    requires IsRun(c, run) && i < |run| && n < |run[i].bufs| && run[i].bufs[n] != []
    ensures || n in run[i].dirty
            || (exists f :: f in run[i].l.sends && AboutToPush(run[i].l.sends[f], n))
            || (exists k :: k in run[i].writers && run[i].writers[k] == Holding(n))
  {
    RunGood(c, run, i);
    assert FlushOk(run[i], n);
  }
}
