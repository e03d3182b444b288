/**
 No lost flush: a non-empty shard buffer always has a dirty-shard token, a sender about to
 push one, or a writer that has taken one and not yet swapped the buffer.
 */
module MuxFlush {
  import opened Mux
  import opened MuxLedger
  import opened MuxFrames

  predicate AboutToPush(x: Send, n: nat) {
    x.shard == n && (x.pc == Packed(true) || x.pc == Pushing(true))
  }

  ghost predicate Owed(s: State, n: nat) {
    || n in s.dirty
    || (exists f :: f in s.l.sends && AboutToPush(s.l.sends[f], n))
    || (exists k :: k in s.writers && s.writers[k] == Holding(n))
  }

  ghost predicate FlushOk(s: State, n: nat) {
    n < |s.bufs| && s.bufs[n] != [] ==> Owed(s, n)
  }

  ghost predicate NoLostFlush(s: State) {
    forall n :: FlushOk(s, n)
  }

  /** An owed flush survives a step that keeps its three kinds of witness. */
  lemma OwedKept(s: State, s': State, n: nat)
    requires Owed(s, n)
    requires n in s.dirty ==> Owed(s', n)
    requires forall f :: f in s.l.sends && AboutToPush(s.l.sends[f], n) ==>
               (f in s'.l.sends && AboutToPush(s'.l.sends[f], n)) || n in s'.dirty
    requires forall k :: k in s.writers && s.writers[k] == Holding(n) ==>
               (k in s'.writers && s'.writers[k] == Holding(n)) || n in s'.dirty
    ensures Owed(s', n)
  {
    if n !in s.dirty {
      if f :| f in s.l.sends && AboutToPush(s.l.sends[f], n) {
        assert n in s'.dirty || AboutToPush(s'.l.sends[f], n);
      } else {
        var k :| k in s.writers && s.writers[k] == Holding(n);
        assert n in s'.dirty || s'.writers[k] == Holding(n);
      }
    }
  }

  lemma PackMakesOwed(c: Config, s: State, s': State, f: nat, n: nat)
    requires FlushOk(s, n) && SenderNext(c, s, s', PutPack(f))
    ensures FlushOk(s', n)
  {
    if s.l.sends[f].shard == n && s.bufs[n] == [] {
      assert AboutToPush(s'.l.sends[f], n);
    } else if n < |s.bufs| && s.bufs[n] != [] {
      OwedKept(s, s', n);
    }
  }

  /** Who is about to push still is, or has pushed. */
  lemma PusherStays(c: Config, s: State, s': State, step: SenderStep, n: nat)
    requires SenderNext(c, s, s', step)
    ensures n in s.dirty ==> n in s'.dirty
    ensures step.f in s.l.sends && AboutToPush(s.l.sends[step.f], n) ==>
              (step.f in s'.l.sends && AboutToPush(s'.l.sends[step.f], n)) || n in s'.dirty
  {
  }

  lemma FlushKeptBySender(c: Config, s: State, s': State, step: SenderStep, n: nat)
    requires FlushOk(s, n) && SenderNext(c, s, s', step)
    ensures FlushOk(s', n)
  {
    if step.PutPack? {
      PackMakesOwed(c, s, s', step.f, n);
    } else {
      BufsOfOthers(c, s, s', step);
      hide SenderNext;
      SenderTouches(c, s, s', step);
      PusherStays(c, s, s', step, n);
      if n < |s.bufs| && s.bufs[n] != [] {
        OwedKept(s, s', n);
      }
    }
  }

  lemma BufsOfOthers(c: Config, s: State, s': State, step: SenderStep)
    requires SenderNext(c, s, s', step) && !step.PutPack?
    ensures s'.bufs == s.bufs
  {
  }

  lemma FlushKeptByCompleter(c: Config, s: State, s': State, step: CompleterStep, n: nat)
    requires FlushOk(s, n) && CompleterNext(c, s, s', step)
    ensures FlushOk(s', n)
  {
    if n < |s.bufs| && s.bufs[n] != [] {
      OwedKept(s, s', n);
    }
  }

  lemma FlushKeptByWriter(c: Config, s: State, s': State, step: WriterStep, n: nat)
    requires FlushOk(s, n) && WriterNext(c, s, s', step)
    ensures FlushOk(s', n)
  {
    if n < |s.bufs| && s'.bufs[n] != [] {
      match step
      case Take(k) =>
        if s.dirty[0] == n {
          assert s'.writers[k] == Holding(n);
        } else {
          assert n in s.dirty ==> n in s'.dirty;
          OwedKept(s, s', n);
        }
      case HandOver(k) =>
        assert n in s.dirty ==> n in s'.dirty;
        assert s.writers[k].n in s'.dirty by { assert s'.dirty[|s.dirty|] == s.writers[k].n; }
        OwedKept(s, s', n);
      case Swap(k) => OwedKept(s, s', n);
      case Write(k, _) => OwedKept(s, s', n);
      case Stop(k) => OwedKept(s, s', n);
    }
  }

  lemma FlushKeptUnderMutex(c: Config, s: State, s': State, step: LifecycleStep, n: nat)
    requires Frames(c, s) && FlushOk(s, n) && LifecycleNext(c, s, s', step)
    ensures FlushOk(s', n)
  {
    if n < |s'.bufs| && s'.bufs[n] != [] {
      if step.DialOk? {
        assert WriterOk(c, s, step.k);
      }
      OwedKept(s, s', n);
    }
  }

  lemma FlushKept(c: Config, s: State, s': State, step: Step)
    requires Frames(c, s) && NoLostFlush(s) && NextStep(c, s, s', step)
    ensures NoLostFlush(s')
  {
    forall n ensures FlushOk(s', n) {
      assert FlushOk(s, n);
      match step
      case BySender(x) => FlushKeptBySender(c, s, s', x, n);
      case ByCompleter(x) => FlushKeptByCompleter(c, s, s', x, n);
      case ByWriter(x) => FlushKeptByWriter(c, s, s', x, n);
      case ByLifecycle(x) => FlushKeptUnderMutex(c, s, s', x, n);
    }
  }
}
