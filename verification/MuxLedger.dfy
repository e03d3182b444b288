/**
 The ledger of the multiplexer: where every future is, what requestCnt counts and what the
 rate-limit tokens count.  Each effect of module Mux keeps it.
 */
module MuxLedger {
  import opened Common
  import opened Mux

  // ----- what a sender's step leaves alone -----

  predicate PastPack(pc: Pc) {
    pc.Packed? || pc.Pushing? || pc == Ended
  }

  lemma SenderTouches(c: Config, s: State, s': State, step: SenderStep)
    requires SenderNext(c, s, s', step)
    ensures s' == s.(l := s'.l, bufs := s'.bufs, dirty := s'.dirty)
    ensures step.f in s'.l.sends && s'.l.sends == s.l.sends[step.f := s'.l.sends[step.f]]
  {
  }

  /** Positions only advance, and a request is registered at most once. */
  lemma SenderAdvances(c: Config, s: State, s': State, step: SenderStep)
    requires SenderNext(c, s, s', step)
    ensures step.f in s'.l.sends
    ensures step.Begin? ==> step.f !in s.l.sends && s'.l.sends[step.f].born == None && s'.l.sends[step.f].pc == Begun
    ensures !step.Begin? ==>
              && step.f in s.l.sends && s.l.sends[step.f].pc != Abandoned && s'.l.sends[step.f].ctx == s.l.sends[step.f].ctx
              && (PastPack(s.l.sends[step.f].pc) ==> PastPack(s'.l.sends[step.f].pc))
              && s'.l.sends[step.f].born == if step.Register? then Some(s.session) else s.l.sends[step.f].born
    ensures step.Register? ==> s.l.sends[step.f].pc == Checked
  {
  }

  lemma AcceptedByRegister(c: Config, s: State, s': State, step: SenderStep)
    requires SenderNext(c, s, s', step)
    ensures step.f in s'.l.sends && (s'.l.sends[step.f].pc == Accepted ==> step.Register?)
  {
  }

  lemma CheckedNeedsConnected(c: Config, s: State, s': State, step: SenderStep)
    requires SenderNext(c, s, s', step)
    ensures step.f in s'.l.sends && (s'.l.sends[step.f].pc == Checked ==> s.conn == Connected)
  {
  }

  // ----- the ledger -----

  predicate BeforeRegistration(x: Send) {
    x.pc == Begun || x.pc == Admitted || x.pc == Checked || x.pc == Refused
  }

  predicate LeftEarly(x: Send) {
    x.pc == Abandoned
  }

  predicate HoldsToken(x: Send) {
    x.tok
  }

  ghost function Pick(sends: map<nat, Send>, p: Send -> bool): set<nat> {
    set f | f in sends && p(sends[f])
  }

  lemma PickUpdate(sends: map<nat, Send>, f: nat, x: Send, p: Send -> bool)
    ensures |Pick(sends[f := x], p)| == |Pick(sends, p)| + Bit(p(x)) - Bit(f in sends && p(sends[f]))
  {
    var before, after := Pick(sends, p), Pick(sends[f := x], p);
    assert after == if p(x) then before + {f} else before - {f};
  }

  ghost predicate SizeUpdated(sends: map<nat, Send>, f: nat, x: Send, p: Send -> bool) {
    |Pick(sends[f := x], p)| == |Pick(sends, p)| + Bit(p(x)) - Bit(f in sends && p(sends[f]))
  }

  lemma PickUpdates(sends: map<nat, Send>, f: nat, x: Send)
    ensures SizeUpdated(sends, f, x, BeforeRegistration)
    ensures SizeUpdated(sends, f, x, LeftEarly)
    ensures SizeUpdated(sends, f, x, HoldsToken)
  {
    PickUpdate(sends, f, x, BeforeRegistration);
    PickUpdate(sends, f, x, LeftEarly);
    PickUpdate(sends, f, x, HoldsToken);
  }

  /** One request: its sender's position x against the place of its future. */
  ghost predicate Placed(limited: bool, x: Send, inTable: bool, isHeld: bool, isDone: bool) {
    && (BeforeRegistration(x) || x.pc == Abandoned ==> x.born.None?)
    && (!BeforeRegistration(x) && x.pc != Abandoned && x.pc != Ended ==> x.born.Some?)
    && (x.pc == Abandoned ==> isDone && x.ctx)
    && (inTable ==> x.born.Some? && !isHeld && !isDone && x.pc != Waiting)
    && (isHeld ==> x.born.Some?)
    && (isDone ==> x.born.Some? || x.pc == Abandoned)
    && (x.born.Some? && !inTable && !isHeld ==> isDone)
    && (limited && (x.pc == Admitted || x.pc == Checked || inTable) ==> x.tok)
    && (x.pc == Begun ==> !x.tok)
  }

  /** The events recorded for a future match its place: each happens at most once. */
  ghost predicate Recorded(hist: multiset<Event>, f: nat, registered: bool, inTable: bool, isHeld: bool, isDone: bool) {
    && hist[Registered(f)] == Bit(registered)
    && hist[Left(f)] == Bit(registered && !inTable)
    && hist[Settled(f)] == Bit(isDone)
    && hist[Counted(f)] == Bit(registered && !inTable && !isHeld)
  }

  ghost predicate FutureOk(c: Config, l: Ledger, f: nat) {
    && (f in l.sends ==> Placed(c.limited, l.sends[f], f in l.table, f in l.held, f in l.done))
    && (f !in l.sends ==> f !in l.table && f !in l.held && f !in l.done)
    && (f in l.held ==> l.held[f] in l.tasks && l.tasks[l.held[f]].f == f)
    && Recorded(l.hist, f, f in l.sends && l.sends[f].born.Some?, f in l.table, f in l.held, f in l.done)
  }

  /** A goroutine holds its future alone. */
  ghost predicate TaskOk(c: Config, l: Ledger, a: nat) {
    a in l.tasks ==>
      var t := l.tasks[a];
      t.f in l.held && l.held[t.f] == a && t.f in l.sends && (t.f in l.done <==> t.stage != ToSet) &&
      (c.limited && t.stage != ToCount ==> l.sends[t.f].tok)
  }

  /** requestCnt = live + removed but unmarked + before registration + early context-done. */
  ghost predicate Counter(l: Ledger) {
    l.requestCnt == |l.table| + |l.tasks.Keys| + |Pick(l.sends, BeforeRegistration)| + |Pick(l.sends, LeftEarly)|
  }

  ghost predicate Tokens(c: Config, l: Ledger) {
    c.limited ==> l.tokens == |Pick(l.sends, HoldsToken)| <= c.rateLimit
  }

  ghost predicate Sound(c: Config, l: Ledger) {
    && (forall f :: FutureOk(c, l, f))
    && (forall a :: TaskOk(c, l, a))
    && Counter(l) && Tokens(c, l)
  }

  // ----- each effect keeps the ledger sound -----

  /** One sender's record changes; registration and the places of futures do not. */
  lemma SendKeeps(c: Config, l: Ledger, f: nat, x: Send, cnt: int, tokens: nat)
    requires Sound(c, l)
    requires x.born == if f in l.sends then l.sends[f].born else None
    requires Placed(c.limited, x, f in l.table, f in l.held, f in l.done)
    requires f in l.sends && f in l.held ==> x.tok == l.sends[f].tok
    requires cnt - l.requestCnt == Bit(BeforeRegistration(x) || LeftEarly(x))
                                   - Bit(f in l.sends && (BeforeRegistration(l.sends[f]) || LeftEarly(l.sends[f])))
    requires c.limited ==> tokens - l.tokens == Bit(x.tok) - Bit(f in l.sends && l.sends[f].tok) && tokens <= c.rateLimit
    ensures Sound(c, l.(sends := l.sends[f := x], requestCnt := cnt, tokens := tokens))
  {
    hide Placed, Recorded;
    var l' := l.(sends := l.sends[f := x], requestCnt := cnt, tokens := tokens);
    forall g ensures FutureOk(c, l', g) { assert FutureOk(c, l, g); }
    forall a ensures TaskOk(c, l', a) { assert TaskOk(c, l, a); }
    PickUpdates(l.sends, f, x);
  }

  lemma AddKeepsOne(c: Config, l: Ledger, f: nat, session: nat, g: nat)
    requires FutureOk(c, l, f) && FutureOk(c, l, g) && f in l.sends && l.sends[f].pc == Checked
    ensures FutureOk(c, Add(l, f, session), g)
  {
  }

  lemma AddKeepsTask(c: Config, l: Ledger, f: nat, session: nat, a: nat)
    requires TaskOk(c, l, a) && f in l.sends
    ensures TaskOk(c, Add(l, f, session), a)
  {
  }

  lemma AddKeeps(c: Config, l: Ledger, f: nat, session: nat)
    requires Sound(c, l) && f in l.sends && l.sends[f].pc == Checked
    ensures Sound(c, Add(l, f, session))
  {
    hide TaskOk;
    var l' := Add(l, f, session);
    assert FutureOk(c, l, f);
    hide FutureOk;
    forall g ensures FutureOk(c, l', g) {
      assert FutureOk(c, l, g);
      AddKeepsOne(c, l, f, session, g);
    }
    forall a ensures TaskOk(c, l', a) {
      assert TaskOk(c, l, a);
      AddKeepsTask(c, l, f, session, a);
    }
    PickUpdates(l.sends, f, l'.sends[f]);
  }

  lemma AbandonKeeps(c: Config, l: Ledger, f: nat)
    requires Sound(c, l) && f in l.sends && l.sends[f].pc == Checked && l.sends[f].ctx
    ensures Sound(c, Move(Settle(l, f, false), f, Abandoned))
  {
    var l' := Move(Settle(l, f, false), f, Abandoned);
    assert FutureOk(c, l, f);
    forall g ensures FutureOk(c, l', g) { assert FutureOk(c, l, g); }
    forall a ensures TaskOk(c, l', a) { assert TaskOk(c, l, a); }
    PickUpdates(l.sends, f, l'.sends[f]);
  }

  lemma RemoveKeepsOne(c: Config, l: Ledger, f: nat, a: nat, ok: bool, g: nat)
    requires FutureOk(c, l, f) && FutureOk(c, l, g) && f in l.table && a !in l.tasks
    ensures FutureOk(c, Remove(l, f, a, ok), g)
  {
  }

  lemma RemoveKeepsTask(c: Config, l: Ledger, f: nat, a: nat, ok: bool, b: nat)
    requires FutureOk(c, l, f) && TaskOk(c, l, b) && f in l.table && a !in l.tasks
    ensures TaskOk(c, Remove(l, f, a, ok), b)
  {
  }

  lemma RemoveKeepsCounts(c: Config, l: Ledger, f: nat, a: nat, ok: bool)
    requires Counter(l) && Tokens(c, l) && f in l.table && a !in l.tasks
    ensures Counter(Remove(l, f, a, ok)) && Tokens(c, Remove(l, f, a, ok))
  {
    assert Remove(l, f, a, ok).tasks.Keys == l.tasks.Keys + {a};
  }

  lemma RemoveKeeps(c: Config, l: Ledger, f: nat, a: nat, ok: bool)
    requires Sound(c, l) && f in l.table && a !in l.tasks
    ensures Sound(c, Remove(l, f, a, ok))
  {
    hide FutureOk, TaskOk, Counter, Tokens, Remove;
    var l' := Remove(l, f, a, ok);
    assert FutureOk(c, l, f);
    forall g ensures FutureOk(c, l', g) {
      assert FutureOk(c, l, g);
      RemoveKeepsOne(c, l, f, a, ok, g);
    }
    forall b ensures TaskOk(c, l', b) {
      assert TaskOk(c, l, b);
      RemoveKeepsTask(c, l, f, a, ok, b);
    }
    RemoveKeepsCounts(c, l, f, a, ok);
  }

  lemma SettleTaskKeeps(c: Config, l: Ledger, a: nat)
    requires Sound(c, l) && a in l.tasks && l.tasks[a].stage == ToSet
    ensures Sound(c, SettleTask(l, a))
  {
    var l' := SettleTask(l, a);
    assert TaskOk(c, l, a) && FutureOk(c, l, l.tasks[a].f);
    assert l'.tasks.Keys == l.tasks.Keys;
    forall g ensures FutureOk(c, l', g) { assert FutureOk(c, l, g); }
    forall b ensures TaskOk(c, l', b) { assert TaskOk(c, l, b); }
  }

  lemma ExpelKeeps(c: Config, l: Ledger, f: nat, a: nat)
    requires Sound(c, l) && f in l.table && a !in l.tasks
    ensures Sound(c, Expel(l, f, a))
  {
    RemoveKeeps(c, l, f, a, false);
    SettleTaskKeeps(c, Remove(l, f, a, false), a);
  }

  /** In RLimitDrop mode the receive in markDone never blocks. */
  lemma TokenAvailable(c: Config, l: Ledger, a: nat)
    requires Sound(c, l) && c.limited && a in l.tasks && l.tasks[a].stage != ToCount
    ensures l.tokens > 0
  {
    assert TaskOk(c, l, a);
    assert l.tasks[a].f in Pick(l.sends, HoldsToken);
  }

  lemma ReturnTokenKeeps(c: Config, l: Ledger, a: nat)
    requires Sound(c, l) && a in l.tasks && l.tasks[a].f in l.sends && l.tasks[a].stage == ToRelease
    requires c.limited ==> l.tokens > 0
    ensures Sound(c, ReturnToken(c, l, a))
  {
    var l' := ReturnToken(c, l, a);
    var f := l.tasks[a].f;
    assert TaskOk(c, l, a) && FutureOk(c, l, f);
    assert l'.tasks.Keys == l.tasks.Keys;
    forall g ensures FutureOk(c, l', g) { assert FutureOk(c, l, g); }
    forall b ensures TaskOk(c, l', b) { assert TaskOk(c, l, b); }
    PickUpdates(l.sends, f, l'.sends[f]);
  }

  lemma DiscountKeeps(c: Config, l: Ledger, a: nat)
    requires Sound(c, l) && a in l.tasks && l.tasks[a].stage == ToCount
    ensures Sound(c, Discount(l, a))
  {
    var l' := Discount(l, a);
    var f := l.tasks[a].f;
    assert TaskOk(c, l, a) && FutureOk(c, l, f);
    assert l'.tasks.Keys == l.tasks.Keys - {a};
    forall g ensures FutureOk(c, l', g) { assert FutureOk(c, l, g); }
    forall b ensures TaskOk(c, l', b) { assert TaskOk(c, l, b); }
  }

  // ----- every step keeps it -----

  lemma MoveKeeps(c: Config, l: Ledger, f: nat, pc: Pc)
    requires Sound(c, l) && f in l.sends
    requires Placed(c.limited, l.sends[f].(pc := pc), f in l.table, f in l.held, f in l.done)
    requires BeforeRegistration(l.sends[f].(pc := pc)) == BeforeRegistration(l.sends[f])
    requires !LeftEarly(l.sends[f]) && pc != Abandoned
    ensures Sound(c, Move(l, f, pc))
  {
    SendKeeps(c, l, f, l.sends[f].(pc := pc), l.requestCnt, l.tokens);
    assert Move(l, f, pc) == l.(sends := l.sends[f := l.sends[f].(pc := pc)], requestCnt := l.requestCnt, tokens := l.tokens);
  }

  lemma PlainMoveKeeps(c: Config, l: Ledger, f: nat, pc: Pc)
    requires Sound(c, l) && f in l.sends
    requires || (l.sends[f].pc == Begun && pc == Refused)
             || (l.sends[f].pc == Admitted && (pc == Checked || pc == Refused))
             || ((l.sends[f].pc == Accepted || l.sends[f].pc.Packed? || l.sends[f].pc.Pushing? || l.sends[f].pc == Waiting)
                 && (pc == Ended || pc == PackFailed || pc.Packed? || pc.Pushing?))
    ensures Sound(c, Move(l, f, pc))
  {
    assert FutureOk(c, l, f);
    MoveKeeps(c, l, f, pc);
  }

  lemma FetchThenMoveKeeps(c: Config, l: Ledger, f: nat, a: nat, ok: bool, pc: Pc)
    requires Sound(c, l) && f in l.sends && a !in l.tasks
    requires l.sends[f].pc == Accepted || l.sends[f].pc == PackFailed || l.sends[f].pc.Packed?
    requires pc == Ended || pc == Waiting || pc.Pushing?
    ensures Sound(c, Move(Fetch(l, f, a, ok), f, pc))
  {
    var m := Fetch(l, f, a, ok);
    if f in l.table {
      RemoveKeeps(c, l, f, a, ok);
    }
    assert FutureOk(c, m, f);
    MoveKeeps(c, m, f, pc);
  }

  lemma BeginKeeps(c: Config, l: Ledger, f: nat, ctx: bool, async: bool, shard: nat)
    requires Sound(c, l) && f !in l.sends
    ensures Sound(c, Enter(l, f, ctx, async, shard))
  {
    assert FutureOk(c, l, f);
    SendKeeps(c, l, f, Send(ctx, async, shard, Begun, false, None), l.requestCnt + 1, l.tokens);
  }

  lemma TakeTokenKeeps(c: Config, l: Ledger, f: nat)
    requires Sound(c, l) && f in l.sends && l.sends[f].pc == Begun && (c.limited ==> l.tokens < c.rateLimit)
    ensures Sound(c, TakeToken(c, l, f))
  {
    assert FutureOk(c, l, f);
    SendKeeps(c, l, f, l.sends[f].(pc := Admitted, tok := c.limited), l.requestCnt, if c.limited then l.tokens + 1 else l.tokens);
  }

  lemma DecrementKeeps(c: Config, l: Ledger, f: nat)
    requires Sound(c, l) && f in l.sends && l.sends[f].pc == Refused
    ensures Sound(c, Move(l, f, Ended).(requestCnt := l.requestCnt - 1))
  {
    assert FutureOk(c, l, f);
    SendKeeps(c, l, f, l.sends[f].(pc := Ended), l.requestCnt - 1, l.tokens);
  }

  lemma LateKeeps(c: Config, l: Ledger, late: set<nat>, packed: map<nat, nat>)
    requires Sound(c, l)
    ensures Sound(c, l.(late := late, packed := packed))
  {
    hide Placed, Recorded;
    var l' := l.(late := late, packed := packed);
    forall g ensures FutureOk(c, l', g) { assert FutureOk(c, l, g); }
    forall a ensures TaskOk(c, l', a) { assert TaskOk(c, l, a); }
  }

  lemma SenderKeeps(c: Config, s: State, s': State, step: SenderStep)
    requires Sound(c, s.l) && SenderNext(c, s, s', step)
    ensures Sound(c, s'.l)
  {
    hide Sound, FutureOk;
    var l := s.l;
    match step
    case Begin(f, ctx, async, shard) => BeginKeeps(c, l, f, ctx, async, shard);
    case Admit(f) => TakeTokenKeeps(c, l, f);
    case Register(f) => AddKeeps(c, l, f, s.session);
    case CtxDone(f) => AbandonKeeps(c, l, f);
    case Decrement(f) => DecrementKeeps(c, l, f);
    case SendCancel(f, a) => FetchThenMoveKeeps(c, l, f, a, false, Ended);
    case FailFetch(f, a) => FetchThenMoveKeeps(c, l, f, a, false, s'.l.sends[f].pc);
    case AsyncFetch(f, a) => FetchThenMoveKeeps(c, l, f, a, true, s'.l.sends[f].pc);
    case Drop(f) => PlainMoveKeeps(c, l, f, s'.l.sends[f].pc);
    case LoadState(f) => PlainMoveKeeps(c, l, f, s'.l.sends[f].pc);
    case PutSkip(f) => PlainMoveKeeps(c, l, f, Ended);
    case PutPack(f) =>
      PlainMoveKeeps(c, l, f, s'.l.sends[f].pc);
      LateKeeps(c, Move(l, f, s'.l.sends[f].pc), s'.l.late, s'.l.packed);
    case PutFail(f) => PlainMoveKeeps(c, l, f, PackFailed);
    case FailWait(f) => PlainMoveKeeps(c, l, f, Ended);
    case AfterPack(f) => PlainMoveKeeps(c, l, f, s'.l.sends[f].pc);
    case PushToken(f) => PlainMoveKeeps(c, l, f, Ended);
  }

  lemma CompleterKeeps(c: Config, s: State, s': State, step: CompleterStep)
    requires Sound(c, s.l) && CompleterNext(c, s, s', step)
    ensures Sound(c, s'.l)
  {
    hide Sound;
    match step
    case Watchdog(f, a) => RemoveKeeps(c, s.l, f, a, false);
    case ReaderFetch(f, a) => RemoveKeeps(c, s.l, f, a, true);
    case Sweep(f, a) => ExpelKeeps(c, s.l, f, a);
    case SetOutcome(a) => SettleTaskKeeps(c, s.l, a);
    case Release(a) => ReturnTokenKeeps(c, s.l, a);
    case Count(a) => DiscountKeeps(c, s.l, a);
  }

  lemma LedgerUnderMutex(c: Config, s: State, s': State, step: LifecycleStep)
    requires LifecycleNext(c, s, s', step) && !step.CloseFail?
    ensures s'.l == s.l
  {
  }

  lemma StepKeepsSound(c: Config, s: State, s': State, step: Step)
    requires Sound(c, s.l) && NextStep(c, s, s', step)
    ensures Sound(c, s'.l)
  {
    hide Sound, SenderNext, CompleterNext;
    match step
    case BySender(x) => SenderKeeps(c, s, s', x);
    case ByCompleter(x) => CompleterKeeps(c, s, s', x);
    case ByWriter(x) =>
    case ByLifecycle(x) =>
      if x.CloseFail? {
        ExpelKeeps(c, s.l, x.f, x.a);
      } else {
        LedgerUnderMutex(c, s, s', x);
      }
  }

  /** Nothing is live, under way, on its way in or lost to an early return. */
  ghost predicate Idle(l: Ledger) {
    && l.table == {} && l.tasks == map[]
    && forall f :: f in l.sends ==> !BeforeRegistration(l.sends[f]) && l.sends[f].pc != Abandoned
  }

  /** requestCnt is zero exactly then. */
  lemma ZeroExactly(c: Config, l: Ledger)
    requires Sound(c, l)
    ensures l.requestCnt == 0 <==> Idle(l)
  {
    hide FutureOk, TaskOk, Tokens;
    if l.requestCnt == 0 {
      assert l.tasks.Keys == {};
      forall f | f in l.sends ensures !BeforeRegistration(l.sends[f]) && l.sends[f].pc != Abandoned {
        assert f !in Pick(l.sends, BeforeRegistration) && f !in Pick(l.sends, LeftEarly);
      }
    }
    if Idle(l) {
      assert Pick(l.sends, BeforeRegistration) == {} && Pick(l.sends, LeftEarly) == {};
    }
  }
}
