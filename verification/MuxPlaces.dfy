/**
 Where the frame of each packed request is: in the buffer of its shard, in the hands of a writer, written
 to one socket, or dropped.  It is in one of these places at any time and in no two.
 */
module MuxPlaces {
  import opened Common
  import opened Mux
  import opened MuxLedger
  import opened MuxLifecycle
  import opened MuxFrames
  import opened MuxFlush
  import opened MuxTheorems

  datatype Place = Buffered(n: nat) | Held(k: nat) | Sent(k: nat) | Lost

  ghost predicate Has(s: State, f: nat, p: Place) {
    match p
    case Buffered(n) => n < |s.bufs| && f in s.bufs[n]
    case Held(k) => k in s.writers && s.writers[k].Writing? && f in s.writers[k].frames
    case Sent(k) => (k, f) in s.wire
    case Lost => f in s.lost
  }

  ghost predicate PlacesOk(s: State, f: nat) {
    && (f in s.l.packed <==> exists p :: Has(s, f, p))
    && (forall p, q :: Has(s, f, p) && Has(s, f, q) ==> p == q)
    && (f in s.l.packed ==> f in s.l.sends && PastPack(s.l.sends[f].pc))
  }

  ghost predicate BuffersOk(s: State) {
    && (forall n :: 0 <= n < |s.bufs| ==> Distinct(s.bufs[n]))
    && (forall k :: k in s.writers && s.writers[k].Writing? ==> Distinct(s.writers[k].frames))
  }

  ghost predicate InPlace(s: State) {
    BuffersOk(s) && forall f :: PlacesOk(s, f)
  }

  /** A frame that stays where it is. */
  lemma PlacesStay(s: State, s': State, f: nat)
    requires PlacesOk(s, f) && (f in s'.l.packed <==> f in s.l.packed)
    requires forall p :: Has(s', f, p) <==> Has(s, f, p)
    requires f in s'.l.packed ==> f in s'.l.sends && PastPack(s'.l.sends[f].pc)
    ensures PlacesOk(s', f)
  {
    hide Has;
    if p :| Has(s, f, p) {
      assert Has(s', f, p);
    }
    if p :| Has(s', f, p) {
      assert Has(s, f, p);
    }
  }

  /** A frame that goes from one place to another. */
  lemma PlaceMoves(s: State, s': State, f: nat, p: Place, q: Place)
    requires PlacesOk(s, f) && f in s.l.packed && s'.l.packed == s.l.packed && s'.l.sends == s.l.sends
    requires Has(s, f, p) && Has(s', f, q)
    requires forall r :: r != q && Has(s', f, r) ==> r != p && Has(s, f, r)
    ensures PlacesOk(s', f)
  {
    hide Has;
  }

  // ----- senders -----

  lemma PackPlaces(c: Config, s: State, s': State, f: nat, g: nat)
    requires SenderNext(c, s, s', PutPack(f)) && PlacesOk(s, g) && PlacesOk(s, f)
    ensures PlacesOk(s', g)
  {
    var n := s.l.sends[f].shard;
    if g == f {
      assert Has(s', f, Buffered(n)) by { assert s'.bufs[n][|s.bufs[n]|] == f; }
      forall p | Has(s', f, p) ensures p == Buffered(n) {
        assert p == Buffered(n) || Has(s, f, p);
      }
    } else {
      forall p ensures Has(s', g, p) <==> Has(s, g, p) {}
      hide Has;
      PlacesStay(s, s', g);
    }
  }

  lemma PackKeepsBuffers(c: Config, s: State, s': State, f: nat)
    requires SenderNext(c, s, s', PutPack(f)) && BuffersOk(s) && PlacesOk(s, f)
    ensures BuffersOk(s')
  {
    assert !Has(s, f, Buffered(s.l.sends[f].shard));
  }

  lemma OtherSendersKeep(c: Config, s: State, s': State, step: SenderStep)
    requires SenderNext(c, s, s', step) && !step.PutPack? && InPlace(s)
    ensures InPlace(s')
  {
    SenderTouches(c, s, s', step);
    LateGrows(c, s, s', step);
    BuffersStay(c, s, s', step);
    forall f ensures PlacesOk(s', f) {
      assert PlacesOk(s, f);
      if f in s.l.packed {
        PastPackStays(c, s, s', step, f);
      }
      hide SenderNext, PlacesOk;
      forall p ensures Has(s', f, p) <==> Has(s, f, p) {}
      PlacesStay(s, s', f);
    }
  }

  lemma BuffersStay(c: Config, s: State, s': State, step: SenderStep)
    requires SenderNext(c, s, s', step) && !step.PutPack?
    ensures s'.bufs == s.bufs
  {
  }

  // ----- writers -----

  lemma SwapPlaces(c: Config, s: State, s': State, k: nat, f: nat)
    requires WriterNext(c, s, s', Swap(k)) && PlacesOk(s, f)
    ensures PlacesOk(s', f)
  {
    var n := s.writers[k].n;
    if f in s.bufs[n] {
      assert Has(s, f, Buffered(n)) && Has(s', f, Held(k));
      forall r | r != Held(k) && Has(s', f, r) ensures r != Buffered(n) && Has(s, f, r) {}
      PlaceMoves(s, s', f, Buffered(n), Held(k));
    } else {
      forall p ensures Has(s', f, p) <==> Has(s, f, p) {}
      PlacesStay(s, s', f);
    }
  }

  lemma WritePlaces(c: Config, s: State, s': State, k: nat, m: nat, f: nat)
    requires WriterNext(c, s, s', Write(k, m)) && PlacesOk(s, f) && BuffersOk(s)
    ensures PlacesOk(s', f)
  {
    var frames := s.writers[k].frames;
    if f in frames {
      assert Has(s, f, Held(k));
      var i :| 0 <= i < |frames| && frames[i] == f;
      var q := if i < m then Sent(k) else Lost;
      assert f in frames[..m] <==> i < m;
      assert f in frames[m..] <==> i >= m by {
        if i >= m {
          assert frames[m..][i - m] == f;
        }
      }
      assert Has(s', f, q);
      forall r | r != q && Has(s', f, r) ensures r != Held(k) && Has(s, f, r) {}
      PlaceMoves(s, s', f, Held(k), q);
    } else {
      forall p ensures Has(s', f, p) <==> Has(s, f, p) {}
      PlacesStay(s, s', f);
    }
  }

  lemma WritersKeep(c: Config, s: State, s': State, step: WriterStep)
    requires WriterNext(c, s, s', step) && InPlace(s)
    ensures InPlace(s')
  {
    forall f ensures PlacesOk(s', f) {
      assert PlacesOk(s, f);
      match step {
        case Swap(k) => SwapPlaces(c, s, s', k, f);
        case Write(k, m) => WritePlaces(c, s, s', k, m, f);
        case _ =>
          forall p ensures Has(s', f, p) <==> Has(s, f, p) {}
          hide Has;
          PlacesStay(s, s', f);
      }
    }
  }

  // ----- steps under conn.mutex -----

  /** Closing drops what is buffered, and nothing else moves a frame. */
  lemma UnderMutex(c: Config, s: State, s': State, step: LifecycleStep)
    requires LifecycleNext(c, s, s', step) && Frames(c, s)
    ensures s'.l.packed == s.l.packed && s'.l.sends == s.l.sends && s'.wire == s.wire
    ensures (s'.bufs == s.bufs && s'.lost == s.lost)
         || (s'.bufs == seq(|s.bufs|, _ => []) && s'.lost == s.lost + InBuffers(s.bufs))
    ensures forall k :: k in s'.writers && s'.writers[k].Writing? <==> k in s.writers && s.writers[k].Writing?
    ensures forall k :: k in s.writers && s.writers[k].Writing? ==> s'.writers[k] == s.writers[k]
  {
    if step.DialOk? {
      assert WriterOk(c, s, step.k);
    }
  }

  lemma PlaceUnderMutex(s: State, s': State, f: nat)
    requires PlacesOk(s, f) && s'.l.packed == s.l.packed && s'.l.sends == s.l.sends && s'.wire == s.wire
    requires (s'.bufs == s.bufs && s'.lost == s.lost)
          || (s'.bufs == seq(|s.bufs|, _ => []) && s'.lost == s.lost + InBuffers(s.bufs))
    requires forall k :: k in s'.writers && s'.writers[k].Writing? <==> k in s.writers && s.writers[k].Writing?
    requires forall k :: k in s.writers && s.writers[k].Writing? ==> s'.writers[k] == s.writers[k]
    ensures PlacesOk(s', f)
  {
    if s'.bufs != s.bufs && f in InBuffers(s.bufs) {
      var n :| 0 <= n < |s.bufs| && f in s.bufs[n];
      assert Has(s, f, Buffered(n)) && Has(s', f, Lost);
      forall r | r != Lost && Has(s', f, r) ensures r != Buffered(n) && Has(s, f, r) {}
      PlaceMoves(s, s', f, Buffered(n), Lost);
    } else {
      forall p ensures Has(s', f, p) <==> Has(s, f, p) {}
      PlacesStay(s, s', f);
    }
  }

  lemma MutexKeeps(c: Config, s: State, s': State, step: LifecycleStep)
    requires LifecycleNext(c, s, s', step) && Frames(c, s) && InPlace(s)
    ensures InPlace(s')
  {
    UnderMutex(c, s, s', step);
    hide LifecycleNext, Frames, PlacesOk;
    forall f ensures PlacesOk(s', f) {
      assert PlacesOk(s, f);
      PlaceUnderMutex(s, s', f);
    }
  }

  lemma CompletersKeep(c: Config, s: State, s': State, step: CompleterStep)
    requires CompleterNext(c, s, s', step) && InPlace(s)
    ensures InPlace(s')
  {
    CompleterTouches(c, s, s', step);
    hide CompleterNext;
    forall f ensures PlacesOk(s', f) {
      assert PlacesOk(s, f);
      forall p ensures Has(s', f, p) <==> Has(s, f, p) {}
      PlacesStay(s, s', f);
    }
  }

  lemma CompleterTouches(c: Config, s: State, s': State, step: CompleterStep)
    requires CompleterNext(c, s, s', step)
    ensures s' == s.(l := s'.l) && s'.l.packed == s.l.packed
    ensures forall f :: f in s.l.sends ==> f in s'.l.sends && s'.l.sends[f].pc == s.l.sends[f].pc
  {
  }

  // ----- every run -----

  lemma StepKeeps(c: Config, s: State, s': State)
    requires Good(c, s) && InPlace(s) && Next(c, s, s')
    ensures InPlace(s')
  {
    hide Sound, InPlace, SenderNext, CompleterNext, WriterNext, LifecycleNext;
    var step :| NextStep(c, s, s', step);
    match step
    case BySender(x) => SendersKeep(c, s, s', x);
    case ByCompleter(x) => CompletersKeep(c, s, s', x);
    case ByWriter(x) => WritersKeep(c, s, s', x);
    case ByLifecycle(x) => MutexKeeps(c, s, s', x);
  }

  lemma SendersKeep(c: Config, s: State, s': State, step: SenderStep)
    requires SenderNext(c, s, s', step) && InPlace(s)
    ensures InPlace(s')
  {
    if step.PutPack? {
      assert PlacesOk(s, step.f);
      PackKeepsBuffers(c, s, s', step.f);
      forall g ensures PlacesOk(s', g) {
        assert PlacesOk(s, g);
        PackPlaces(c, s, s', step.f, g);
      }
    } else {
      OtherSendersKeep(c, s, s', step);
    }
  }

  lemma InitInPlace(c: Config, s: State)
    requires Init(c, s)
    ensures InPlace(s)
  {
    forall f ensures PlacesOk(s, f) {
      forall p ensures !Has(s, f, p) {}
    }
  }

  lemma {:induction false} RunInPlace(c: Config, run: seq<State>, i: nat)
    requires IsRun(c, run) && i < |run|
    ensures InPlace(run[i])
  {
    hide Good, InPlace, NextStep, Init;
    if i == 0 {
      InitInPlace(c, run[0]);
    } else {
      RunInPlace(c, run, i - 1);
      RunGood(c, run, i - 1);
      assert StepAt(c, run, i - 1);
      StepKeeps(c, run[i - 1], run[i]);
    }
  }

  /** Conservation: a packed request's frame is in a shard buffer, in a writer's hands, on the wire of a
      socket or dropped, and no other request has a frame anywhere. */
  lemma FrameIsSomewhere(c: Config, run: seq<State>, i: nat, f: nat)
    requires IsRun(c, run) && i < |run|
    ensures f in run[i].l.packed <==> exists p :: Has(run[i], f, p)
  {
    RunInPlace(c, run, i);
    assert PlacesOk(run[i], f);
  }

  /** And it is in one place only. */
  lemma FrameIsOnce(c: Config, run: seq<State>, i: nat, f: nat, p: Place, q: Place)
    requires IsRun(c, run) && i < |run| && Has(run[i], f, p) && Has(run[i], f, q)
    ensures p == q
  {
    hide Has;
    RunInPlace(c, run, i);
    assert PlacesOk(run[i], f);
  }

  /** So no request is ever sent twice, and none that was dropped is sent. */
  lemma SentAtMostOnce(c: Config, run: seq<State>, i: nat, f: nat, k: nat, k': nat)
    requires IsRun(c, run) && i < |run| && (k, f) in run[i].wire
    ensures (k', f) in run[i].wire ==> k' == k
    ensures f !in run[i].lost
  {
    assert Has(run[i], f, Sent(k));
    if (k', f) in run[i].wire {
      assert Has(run[i], f, Sent(k'));
      FrameIsOnce(c, run, i, f, Sent(k), Sent(k'));
    }
    if f in run[i].lost {
      assert Has(run[i], f, Lost);
      FrameIsOnce(c, run, i, f, Sent(k), Lost);
    }
  }

  /** A frame is dropped in two ways only: it is buffered when closeConnection begins, or it is in a batch
      whose write fails before it. */
  lemma LostOnlyBy(c: Config, run: seq<State>, i: nat, step: Step, f: nat)
    requires IsRun(c, run) && i + 1 < |run| && NextStep(c, run[i], run[i + 1], step)
    requires f in run[i + 1].lost && f !in run[i].lost
    ensures var s := run[i];
            || (step.ByLifecycle? && run[i + 1].mutex.Closing? && !s.mutex.Closing? &&
                exists n :: 0 <= n < |s.bufs| && f in s.bufs[n])
            || (step.ByWriter? && step.writer.Write? && step.writer.n < |s.writers[step.writer.k].frames| &&
                f in s.writers[step.writer.k].frames && !run[i + 1].writers[step.writer.k].Idle?)
  {
    hide SenderNext, CompleterNext, LifecycleNext, IsRun;
    match step
    case BySender(x) => SenderTouches(c, run[i], run[i + 1], x);
    case ByCompleter(x) => CompleterTouches(c, run[i], run[i + 1], x);
    case ByWriter(x) =>
    case ByLifecycle(x) => LostUnderMutex(c, run[i], run[i + 1], x, f);
  }

  lemma LostUnderMutex(c: Config, s: State, s': State, step: LifecycleStep, f: nat)
    requires LifecycleNext(c, s, s', step) && f in s'.lost && f !in s.lost
    ensures s'.mutex.Closing? && !s.mutex.Closing? && exists n :: 0 <= n < |s.bufs| && f in s.bufs[n]
  {
  }

  // ----- an accepted request is on its way -----

  /** Once its send is past packing, a live request has been packed. */
  ghost predicate PackedOk(l: Ledger, f: nat) {
    f in l.table && f in l.sends && PastPack(l.sends[f].pc) ==> f in l.packed
  }

  lemma PackedOkBySender(c: Config, s: State, s': State, step: SenderStep, f: nat)
    requires FutureOk(c, s.l, f) && PackedOk(s.l, f) && SenderNext(c, s, s', step)
    ensures PackedOk(s'.l, f)
  {
    LateGrows(c, s, s', step);
    SenderTouches(c, s, s', step);
    SenderMovesPlaces(c, s, s', step, f);
    PastByPacking(c, s, s', step);
    hide SenderNext, Recorded;
  }

  /** How a send gets past packing with its future still live. */
  lemma PastByPacking(c: Config, s: State, s': State, step: SenderStep)
    requires SenderNext(c, s, s', step)
    ensures step.f in s'.l.sends
    ensures PastPack(s'.l.sends[step.f].pc) && step.f in s'.l.table ==>
              || (step.f in s.l.sends && PastPack(s.l.sends[step.f].pc))
              || step.PutPack? || (step.PutSkip? && step.f in s.l.done) || (step.FailWait? && step.f in s.l.done)
              || (step.Decrement? && At(s, step.f, Refused))
  {
  }

  lemma PackedOkKept(c: Config, s: State, s': State, f: nat)
    requires Good(c, s) && PackedOk(s.l, f) && Next(c, s, s')
    ensures PackedOk(s'.l, f)
  {
    hide FutureOk, TaskOk, Lifecycle, Drained, Lives, Frames, NoLostFlush, BornOk, SenderNext, CompleterNext, LifecycleNext;
    var step :| NextStep(c, s, s', step);
    match step
    case BySender(x) =>
      assert FutureOk(c, s.l, f);
      PackedOkBySender(c, s, s', x, f);
    case ByCompleter(x) =>
      CompleterTouches(c, s, s', x);
      CompleterTables(c, s, s', x);
    case ByWriter(x) =>
    case ByLifecycle(x) =>
      UnderMutex(c, s, s', x);
      TablesUnderMutex(c, s, s', x);
  }

  lemma CompleterTables(c: Config, s: State, s': State, step: CompleterStep)
    requires CompleterNext(c, s, s', step)
    ensures s'.l.table <= s.l.table && s'.l.sends.Keys == s.l.sends.Keys
  {
  }

  lemma TablesUnderMutex(c: Config, s: State, s': State, step: LifecycleStep)
    requires LifecycleNext(c, s, s', step)
    ensures s'.l.table <= s.l.table
  {
  }

  lemma {:induction false} RunPacked(c: Config, run: seq<State>, i: nat, f: nat)
    requires IsRun(c, run) && i < |run|
    ensures PackedOk(run[i].l, f)
  {
    hide Good, NextStep;
    if i > 0 {
      RunPacked(c, run, i - 1, f);
      RunGood(c, run, i - 1);
      assert StepAt(c, run, i - 1);
      PackedOkKept(c, run[i - 1], run[i], f);
    }
  }

  /** A live request whose frame was dropped: only in a write that failed, so that its writer has ended. */
  ghost predicate LostOk(s: State, f: nat) {
    f in s.lost && f in s.l.table && !s.mutex.Closing? ==>
      f in s.l.packed && exists k :: Broken(s, k, s.l.packed[f])
  }

  ghost predicate Broken(s: State, k: nat, session: nat) {
    k in s.writers && s.writers[k] == Gone && k in s.sockets && s.sockets[k] == session
  }

  lemma BrokenStays(c: Config, s: State, s': State, k: nat, session: nat)
    requires Next(c, s, s') && Broken(s, k, session)
    ensures Broken(s', k, session)
  {
    hide SenderNext, CompleterNext, LifecycleNext;
    var step :| NextStep(c, s, s', step);
    match step
    case BySender(x) => SenderTouches(c, s, s', x);
    case ByCompleter(x) => CompleterTouches(c, s, s', x);
    case ByWriter(x) =>
    case ByLifecycle(x) => BrokenUnderMutex(c, s, s', x, k, session);
  }

  lemma BrokenUnderMutex(c: Config, s: State, s': State, step: LifecycleStep, k: nat, session: nat)
    requires LifecycleNext(c, s, s', step) && Broken(s, k, session)
    ensures Broken(s', k, session)
  {
  }

  lemma NewlyLost(c: Config, s: State, s': State, k: nat, m: nat, f: nat)
    requires Frames(c, s) && WriterNext(c, s, s', Write(k, m)) && f in s'.lost && f !in s.lost
    ensures f in s'.l.packed && Broken(s', k, s'.l.packed[f])
  {
    var frames := s.writers[k].frames;
    assert WriterOk(c, s, k);
    assert f in frames[m..] && f in frames;
    assert FrameOk(c, s.l, f, s.sockets[k]);
  }

  lemma LostIsPacked(s: State, f: nat)
    requires PlacesOk(s, f)
    ensures f in s.lost ==> f in s.l.packed
  {
    assert f in s.lost ==> Has(s, f, Lost);
  }

  /** Who is live and was dropped already, or is now. */
  lemma LostKept(c: Config, s: State, s': State, step: Step, f: nat)
    requires Good(c, s) && InPlace(s) && NextStep(c, s, s', step) && LostOk(s, f)
    ensures LostOk(s', f)
  {
    hide Sound, Lifecycle, Drained, Lives, NoLostFlush, BornOk, SenderNext, CompleterNext, LifecycleNext, Frames, Has;
    if f in s'.lost && f in s'.l.table && !s'.mutex.Closing? {
      assert PlacesOk(s, f);
      LostIsPacked(s, f);
      LostWas(c, s, s', step, f);
      if f !in s.lost {
        NewlyLost(c, s, s', step.writer.k, step.writer.n, f);
      } else {
        var k :| Broken(s, k, s.l.packed[f]);
        BrokenStays(c, s, s', k, s.l.packed[f]);
        assert Broken(s', k, s'.l.packed[f]);
      }
    }
  }

  /** A dropped request that is live after a step was so before, or its write has failed in the step. */
  lemma LostWas(c: Config, s: State, s': State, step: Step, f: nat)
    requires NextStep(c, s, s', step) && f in s'.lost && f in s'.l.table && !s'.mutex.Closing?
    requires f in s.lost ==> f in s.l.packed
    requires f in s.l.packed ==> f in s.l.sends && PastPack(s.l.sends[f].pc)
    ensures f in s.lost || (step.ByWriter? && step.writer.Write?)
    ensures f in s.lost ==> f in s.l.table && !s.mutex.Closing? && f in s'.l.packed && s'.l.packed[f] == s.l.packed[f]
  {
    hide SenderNext, CompleterNext, LifecycleNext;
    match step
    case BySender(x) =>
      SenderTouches(c, s, s', x);
      LateGrows(c, s, s', x);
      SenderMovesPlaces(c, s, s', x, f);
      SenderAdvances(c, s, s', x);
    case ByCompleter(x) =>
      CompleterTouches(c, s, s', x);
      CompleterTables(c, s, s', x);
    case ByWriter(x) =>
    case ByLifecycle(x) => LostWasUnderMutex(c, s, s', x, f);
  }

  lemma LostWasUnderMutex(c: Config, s: State, s': State, step: LifecycleStep, f: nat)
    requires LifecycleNext(c, s, s', step) && f in s'.lost && f in s'.l.table && !s'.mutex.Closing?
    ensures f in s.lost && f in s.l.table && !s.mutex.Closing? && s'.l.packed == s.l.packed
  {
  }

  lemma {:induction false} RunLost(c: Config, run: seq<State>, i: nat, f: nat)
    requires IsRun(c, run) && i < |run|
    ensures LostOk(run[i], f)
  {
    hide Good, InPlace, NextStep, LostOk;
    if i == 0 {
      NothingLost(c, run[0], f);
    } else {
      RunLost(c, run, i - 1, f);
      RunGood(c, run, i - 1);
      RunInPlace(c, run, i - 1);
      assert StepAt(c, run, i - 1);
      var step :| NextStep(c, run[i - 1], run[i], step);
      LostKept(c, run[i - 1], run[i], step, f);
    }
  }

  lemma NothingLost(c: Config, s: State, f: nat)
    requires Init(c, s)
    ensures LostOk(s, f)
  {
  }

  /** No accepted request is forgotten: one that is live and whose send has ended has its frame in a buffer,
      in a writer's hands or on the wire, unless the write of its session's socket has failed or a
      closeConnection is about to fail it. */
  lemma LiveIsOnItsWay(c: Config, run: seq<State>, i: nat, f: nat)
    requires IsRun(c, run) && i < |run| && f in run[i].l.table && At(run[i], f, Ended)
    ensures var s := run[i];
            || (exists n :: 0 <= n < |s.bufs| && f in s.bufs[n])
            || (exists k :: k in s.writers && s.writers[k].Writing? && f in s.writers[k].frames)
            || (exists k :: (k, f) in s.wire)
            || (f in s.lost && f in s.l.packed && (s.mutex.Closing? || exists k :: Broken(s, k, s.l.packed[f])))
  {
    RunPacked(c, run, i, f);
    RunInPlace(c, run, i);
    RunLost(c, run, i, f);
    var s := run[i];
    assert PlacesOk(s, f);
    var p :| Has(s, f, p);
  }
}
