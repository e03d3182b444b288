/**
 Watchers of one key (connection.go, subscribeWatchChannel, newWatcherImpl, eventer and the
 re-subscription in dial).  The one-slot channel of a watchState is an atomic cell: taking the
 state, changing it and putting it back is one step.  Keys do not interact, so one key suffices.
 */
module WatchCell {
  import opened Common

  /** watchState.unready: nil, an open channel, or a closed one. */
  datatype Gate = Ready | Pending | Broken

  /** A watchState cell.  `event` numbers the events seen since the cell was made; `owner`
      records which call made the cell unready last. */
  datatype Cell = Cell(cnt: int, gate: Gate, event: nat, ack: bool, owner: nat)

  /** Position of one newWatcherImpl call and of the watcher goroutine it starts. */
  datatype Pc =
    | Looking                 // about to Load the key
    | Storing(c: nat)         // Load found nothing; about to LoadOrStore its own cell c
    | Subscribing(c: nat)     // its cell is stored; the IPROTO_WATCH request is under way
    | Undoing(c: nat)         // the request failed; about to Delete the key
    | Releasing(c: nat)       // about to close(unready) of a cell nobody may use any more
    | Joining(c: nat)         // has an existing cell
    | Blocked(c: nat)         // saw unready; waits for it to be closed
    | Attached(c: nat)        // the watcher goroutine runs
    | LastOut(c: nat)         // dropped cnt to zero; about to send IPROTO_UNWATCH
    | Deleting(c: nat)        // about to Delete the key
    | Over

  /** `seen` is the event number of the last callback. */
  datatype Watcher = Watcher(pc: Pc, seen: nat)

  datatype State = State(
    slot: Option<nat>,                  // watchMap[key]
    cells: map<nat, Cell>,
    watchers: map<nat, Watcher>,
    acks: multiset<(nat, nat)>)         // acknowledgements sent: (cell, event)

  datatype Step =
    | Start(w: nat)
    | LoadMiss(w: nat, c: nat)
    | LoadHit(w: nat)
    | StoreWon(w: nat)
    | StoreLost(w: nat)
    | SubscribeOk(w: nat)
    | SubscribeFailed(w: nat)
    | Undo(w: nat)
    | Release(w: nat)
    | Join(w: nat)
    | Retry(w: nat)
    | Callback(w: nat, event: nat)
    | Acknowledge(w: nat)
    | Detach(w: nat)
    | Unwatch(w: nat)
    | Delete(w: nat)
    | Event(c: nat)
    | Resubscribe(c: nat)

  ghost predicate At(s: State, w: nat, pc: Pc) {
    w in s.watchers && s.watchers[w].pc == pc
  }

  function Go(s: State, w: nat, pc: Pc): State
    requires w in s.watchers
  {
    s.(watchers := s.watchers[w := s.watchers[w].(pc := pc)])
  }

  function Put(s: State, c: nat, cell: Cell): State {
    s.(cells := s.cells[c := cell])
  }

  ghost predicate Init(s: State) {
    s == State(None, map[], map[], multiset{})
  }

  ghost predicate NextStep(s: State, s': State, step: Step) {
    match step
    case Start(w) =>
      w !in s.watchers && s' == s.(watchers := s.watchers[w := Watcher(Looking, 0)])
    case LoadMiss(w, c) =>
      At(s, w, Looking) && s.slot == None && c !in s.cells &&
      s' == Go(Put(s, c, Cell(0, Pending, 0, false, w)), w, Storing(c))
    case LoadHit(w) =>
      At(s, w, Looking) && s.slot.Some? && s' == Go(s, w, Joining(s.slot.value))
    case StoreWon(w) =>
      w in s.watchers && s.watchers[w].pc.Storing? && s.slot == None &&
      s' == Go(s, w, Subscribing(s.watchers[w].pc.c)).(slot := Some(s.watchers[w].pc.c))
    case StoreLost(w) =>       // its own cell is closed and forgotten
      w in s.watchers && s.watchers[w].pc.Storing? && s.slot.Some? && s.watchers[w].pc.c in s.cells &&
      var c := s.watchers[w].pc.c;
      s' == Go(Put(s, c, s.cells[c].(gate := Broken)), w, Joining(s.slot.value))
    case SubscribeOk(w) =>
      w in s.watchers && s.watchers[w].pc.Subscribing? && s.watchers[w].pc.c in s.cells &&
      var c := s.watchers[w].pc.c;
      s' == Go(Put(s, c, s.cells[c].(cnt := 1, gate := Ready)), w, Attached(c))
    case SubscribeFailed(w) =>
      w in s.watchers && s.watchers[w].pc.Subscribing? && s' == Go(s, w, Undoing(s.watchers[w].pc.c))
    case Undo(w) =>
      w in s.watchers && s.watchers[w].pc.Undoing? && s' == Go(s, w, Releasing(s.watchers[w].pc.c)).(slot := None)
    case Release(w) =>
      w in s.watchers && s.watchers[w].pc.Releasing? && s.watchers[w].pc.c in s.cells &&
      var c := s.watchers[w].pc.c;
      s' == Go(Put(s, c, s.cells[c].(gate := Broken)), w, Over)
    case Join(w) =>
      w in s.watchers && s.watchers[w].pc.Joining? && s.watchers[w].pc.c in s.cells &&
      var c := s.watchers[w].pc.c;
      s' == if s.cells[c].gate == Ready then Go(Put(s, c, s.cells[c].(cnt := s.cells[c].cnt + 1)), w, Attached(c))
            else Go(s, w, Blocked(c))
    case Retry(w) =>           // the channel seen in unready is closed
      w in s.watchers && s.watchers[w].pc.Blocked? && s.watchers[w].pc.c in s.cells &&
      s.cells[s.watchers[w].pc.c].gate != Pending && s' == Go(s, w, Looking)
    case Callback(w, event) => // reads the state, calls back and remembers the version read
      w in s.watchers && s.watchers[w].pc.Attached? && s.watchers[w].pc.c in s.cells &&
      s.watchers[w].seen < event <= s.cells[s.watchers[w].pc.c].event &&
      s' == s.(watchers := s.watchers[w := s.watchers[w].(seen := event)])
    case Acknowledge(w) =>
      w in s.watchers && s.watchers[w].pc.Attached? && s.watchers[w].pc.c in s.cells &&
      var c := s.watchers[w].pc.c;
      s.watchers[w].seen > 0 &&
      s' == if !s.cells[c].ack && SameVersion(s.watchers[w].seen, s.cells[c].event)
            then Put(s, c, s.cells[c].(ack := true)).(acks := s.acks + multiset{(c, s.cells[c].event)})
            else s
    case Detach(w) =>
      w in s.watchers && s.watchers[w].pc.Attached? && s.watchers[w].pc.c in s.cells &&
      var c := s.watchers[w].pc.c;
      var left := s.cells[c].cnt - 1;
      left >= 0 &&
      s' == Go(Put(s, c, s.cells[c].(cnt := left, gate := if left == 0 then Pending else s.cells[c].gate,
                                         owner := if left == 0 then w else s.cells[c].owner)),
               w, if left == 0 then LastOut(c) else Over)
    case Unwatch(w) =>
      w in s.watchers && s.watchers[w].pc.LastOut? && s' == Go(s, w, Deleting(s.watchers[w].pc.c))
    case Delete(w) =>
      w in s.watchers && s.watchers[w].pc.Deleting? && s' == Go(s, w, Releasing(s.watchers[w].pc.c)).(slot := None)
    case Event(c) =>           // eventer; it may still hold a cell that has left the map
      c in s.cells && s' == Put(s, c, s.cells[c].(event := s.cells[c].event + 1, ack := false))
    case Resubscribe(c) =>     // dial, for every cell it finds ready
      c in s.cells && s.cells[c].gate == Ready && s' == Put(s, c, s.cells[c].(ack := true))
  }

  // ----- versions -----

  const MAX_UINT64: nat := 0xFFFF_FFFF_FFFF_FFFF

  /** watchState.version after the given number of events, as eventer counts it. */
  function Version(event: nat): (v: nat)
    ensures v <= MAX_UINT64 && (v == 0 <==> event == 0)
  {
    if event == 0 then 0
    else if Version(event - 1) == MAX_UINT64 then 1
    else Version(event - 1) + 1
  }

  predicate SameVersion(a: nat, b: nat) {
    Version(a) == Version(b)
  }

  // ----- invariant -----

  /** The cell a watcher is the only one to change until it lets go of it. */
  function Guards(pc: Pc): Option<nat> {
    match pc
    case Storing(c) => Some(c)
    case Subscribing(c) => Some(c)
    case Undoing(c) => Some(c)
    case LastOut(c) => Some(c)
    case Deleting(c) => Some(c)
    case Releasing(c) => Some(c)
    case _ => None
  }

  /** Its cell must be the one in the map. */
  predicate InMap(pc: Pc) {
    pc.Subscribing? || pc.Undoing? || pc.LastOut? || pc.Deleting?
  }

  ghost function AttachedTo(s: State, c: nat): set<nat> {
    set w | w in s.watchers && s.watchers[w].pc == Attached(c)
  }

  ghost predicate WatcherOk(s: State, w: nat) {
    w in s.watchers ==>
      var pc := s.watchers[w].pc;
      && (Guards(pc).Some? ==>
            var c := Guards(pc).value;
            c in s.cells && s.cells[c].gate == Pending && s.cells[c].owner == w)
      && (InMap(pc) ==> s.slot == Guards(pc))
      && (pc.Attached? ==> pc.c in s.cells && s.cells[pc.c].gate == Ready)
      && (pc.Joining? || pc.Blocked? ==> pc.c in s.cells)
  }

  ghost predicate CellOk(s: State, c: nat) {
    && (c in s.cells ==> s.cells[c].cnt == |AttachedTo(s, c)|)
    && (c in s.cells && s.cells[c].gate == Ready ==> s.slot == Some(c) && s.cells[c].cnt >= 1)
    && (c in s.cells && s.cells[c].gate == Pending ==>
          s.cells[c].owner in s.watchers && Guards(s.watchers[s.cells[c].owner].pc) == Some(c))
    && (s.slot == Some(c) ==>
          && c in s.cells
          && s.cells[c].gate != Broken
          && (s.cells[c].gate == Pending ==> s.cells[c].owner in s.watchers && InMap(s.watchers[s.cells[c].owner].pc)))
  }

  ghost predicate AckOk(s: State, c: nat, event: nat) {
    && s.acks[(c, event)] <= 1
    && (c in s.cells && (s.cells[c].event < event || (s.cells[c].event == event && !s.cells[c].ack)) ==> s.acks[(c, event)] == 0)
    && (c !in s.cells ==> s.acks[(c, event)] == 0)
  }

  ghost predicate Inv(s: State) {
    && (forall w :: WatcherOk(s, w))
    && (forall c :: CellOk(s, c))
    && (forall c, event :: AckOk(s, c, event))
  }

  // ----- preservation -----

  /** How one watcher's move changes who is attached to a cell. */
  lemma AttachedAfter(s: State, s': State, w: nat, c: nat)
    requires forall v :: v != w ==> (v in s'.watchers <==> v in s.watchers) && (v in s.watchers ==> s'.watchers[v].pc == s.watchers[v].pc)
    ensures AttachedTo(s', c) - {w} == AttachedTo(s, c) - {w}
    ensures |AttachedTo(s', c)| == |AttachedTo(s, c) - {w}| + if w in AttachedTo(s', c) then 1 else 0
    ensures |AttachedTo(s, c)| == |AttachedTo(s, c) - {w}| + if w in AttachedTo(s, c) then 1 else 0
  {
    SizeWithout(AttachedTo(s', c), w);
    SizeWithout(AttachedTo(s, c), w);
    forall v ensures v in AttachedTo(s', c) - {w} <==> v in AttachedTo(s, c) - {w} {}
  }

  lemma SizeWithout(a: set<nat>, w: nat)
    ensures |a| == |a - {w}| + if w in a then 1 else 0
  {
    if w in a {
      assert a == (a - {w}) + {w};
    } else {
      assert a == a - {w};
    }
  }

  predicate ByWatcher(step: Step) {
    !step.Event? && !step.Resubscribe?
  }

  lemma TwoAttached(s: State, c: nat, v: nat, w: nat)
    requires v != w && At(s, v, Attached(c)) && At(s, w, Attached(c))
    ensures |AttachedTo(s, c)| >= 2
  {
    SizeWithout(AttachedTo(s, c), v);
    assert w in AttachedTo(s, c) - {v};
  }

  lemma OtherWatcherKept(s: State, s': State, step: Step, v: nat)
    requires Inv(s) && NextStep(s, s', step) && ByWatcher(step) && v != step.w
    ensures WatcherOk(s', v)
  {
    assert WatcherOk(s, v) && WatcherOk(s, step.w);
    if step.Detach? && v in s.watchers && s.watchers[v].pc == s.watchers[step.w].pc {
      TwoAttached(s, s.watchers[v].pc.c, v, step.w);
      assert CellOk(s, s.watchers[v].pc.c);
    }
  }

  predicate ChangesCells(step: Step) {
    step.LoadMiss? || step.StoreLost? || step.SubscribeOk? || step.Release? || step.Join? || step.Acknowledge? ||
    step.Detach?
  }

  lemma MovingWatcherKept(s: State, s': State, step: Step)
    requires ByWatcher(step) && !ChangesCells(step) && WatcherOk(s, step.w) && NextStep(s, s', step)
    requires s.slot.Some? ==> s.slot.value in s.cells
    ensures WatcherOk(s', step.w)
  {
    assert s'.cells == s.cells;
  }

  lemma ChangingWatcherKept(s: State, s': State, step: Step)
    requires ChangesCells(step) && WatcherOk(s, step.w) && NextStep(s, s', step)
    requires s.slot.Some? ==> s.slot.value in s.cells
    requires step.Detach? ==> CellOk(s, s.watchers[step.w].pc.c)
    ensures WatcherOk(s', step.w)
  {
    hide AttachedTo;
  }

  lemma WatchersKept(s: State, s': State, step: Step)
    requires Inv(s) && NextStep(s, s', step)
    ensures forall v :: WatcherOk(s', v)
  {
    forall v ensures WatcherOk(s', v) {
      assert WatcherOk(s, v);
      if ByWatcher(step) {
        if v == step.w {
          assert s.slot.Some? ==> CellOk(s, s.slot.value);
          if !ChangesCells(step) {
            MovingWatcherKept(s, s', step);
          } else {
            assert step.Detach? ==> CellOk(s, s.watchers[step.w].pc.c);
            ChangingWatcherKept(s, s', step);
          }
        } else {
          OtherWatcherKept(s, s', step, v);
        }
      }
    }
  }

  lemma AcksKept(s: State, s': State, step: Step)
    requires Inv(s) && NextStep(s, s', step)
    ensures forall c, event :: AckOk(s', c, event)
  {
    forall c, event ensures AckOk(s', c, event) {
      assert AckOk(s, c, event);
    }
  }

  lemma NobodyAttached(s: State, c: nat)
    requires Inv(s) && (c in s.cells ==> s.cells[c].gate != Ready)
    ensures AttachedTo(s, c) == {}
  {
    forall v ensures v !in AttachedTo(s, c) { assert WatcherOk(s, v); }
  }

  /** What a watcher's move does to the attachment of the watcher itself and to the counts. */
  lemma MoveEffect(s: State, s': State, step: Step, c: nat)
    requires NextStep(s, s', step) && ByWatcher(step)
    ensures var w := step.w;
            var was, now := w in AttachedTo(s, c), w in AttachedTo(s', c);
            && (was != now ==> step.SubscribeOk? || step.Join? || step.Detach?)
            && (c in s.cells ==> c in s'.cells)
            && (c in s.cells && !step.SubscribeOk? ==>
                  s'.cells[c].cnt == s.cells[c].cnt + (if now && !was then 1 else 0) - (if was && !now then 1 else 0))
            && (step.SubscribeOk? && c in s.cells && s.watchers[w].pc != Subscribing(c) ==> s'.cells[c].cnt == s.cells[c].cnt && was == now)
            && (step.SubscribeOk? && s.watchers[w].pc == Subscribing(c) ==> s'.cells[c].cnt == 1 && now)
            && (c !in s.cells && c in s'.cells ==> s'.cells[c].cnt == 0 && !now)
  {
  }

  /** A cell's count follows the watcher that moves. */
  lemma CountKept(s: State, s': State, step: Step, c: nat)
    requires Inv(s) && NextStep(s, s', step) && ByWatcher(step)
    ensures c in s'.cells ==> s'.cells[c].cnt == |AttachedTo(s', c)|
  {
    assert CellOk(s, c) && WatcherOk(s, step.w);
    MoveEffect(s, s', step, c);
    AttachedAfter(s, s', step.w, c);
    if c !in s.cells || s.cells[c].gate != Ready {
      NobodyAttached(s, c);
    }
  }

  lemma GateOfUnchangedKept(s: State, s': State, step: Step, c: nat)
    requires ByWatcher(step) && !ChangesCells(step) && WatcherOk(s, step.w) && CellOk(s, c) && NextStep(s, s', step)
    requires c in s'.cells ==> s'.cells[c].cnt == |AttachedTo(s', c)|
    ensures CellOk(s', c)
  {
    hide AttachedTo;
    assert s'.cells == s.cells;
  }

  lemma GateKept(s: State, s': State, step: Step, c: nat)
    requires ChangesCells(step) && WatcherOk(s, step.w) && CellOk(s, c) && NextStep(s, s', step)
    requires step.Detach? ==> CellOk(s, s.watchers[step.w].pc.c)
    requires c in s'.cells ==> s'.cells[c].cnt == |AttachedTo(s', c)|
    ensures CellOk(s', c)
  {
    hide AttachedTo;
  }

  lemma CellsKept(s: State, s': State, step: Step)
    requires Inv(s) && NextStep(s, s', step)
    ensures forall c :: CellOk(s', c)
  {
    forall c ensures CellOk(s', c) {
      if ByWatcher(step) {
        CountKept(s, s', step, c);
        assert WatcherOk(s, step.w) && CellOk(s, c);
        if !ChangesCells(step) {
          GateOfUnchangedKept(s, s', step, c);
        } else {
          assert step.Detach? ==> CellOk(s, s.watchers[step.w].pc.c);
          GateKept(s, s', step, c);
        }
      } else {
        assert CellOk(s, c);
        assert AttachedTo(s', c) == AttachedTo(s, c);
      }
    }
  }

  lemma InvKept(s: State, s': State, step: Step)
    requires Inv(s) && NextStep(s, s', step)
    ensures Inv(s')
  {
    WatchersKept(s, s', step);
    CellsKept(s, s', step);
    AcksKept(s, s', step);
  }

  // ----- every run -----

  ghost predicate Next(s: State, s': State) {
    exists step :: NextStep(s, s', step)
  }

  ghost predicate StepAt(run: seq<State>, i: nat)
    requires i + 1 < |run|
  {
    Next(run[i], run[i + 1])
  }

  ghost predicate IsRun(run: seq<State>) {
    run != [] && Init(run[0]) && forall i: nat :: i + 1 < |run| ==> StepAt(run, i)
  }

  lemma {:induction false} RunInv(run: seq<State>, i: nat)
    requires IsRun(run) && i < |run|
    ensures Inv(run[i])
  {
    if i > 0 {
      RunInv(run, i - 1);
      assert StepAt(run, i - 1);
      var step :| NextStep(run[i - 1], run[i], step);
      InvKept(run[i - 1], run[i], step);
    }
  }

  /** A ready cell counts exactly its attached watchers and is the one in the map. */
  lemma ReadyCellCountsWatchers(run: seq<State>, i: nat, c: nat)
    requires IsRun(run) && i < |run| && c in run[i].cells && run[i].cells[c].gate == Ready
    ensures run[i].cells[c].cnt == |set w | w in run[i].watchers && run[i].watchers[w].pc == Attached(c)| >= 1
    ensures run[i].slot == Some(c)
  {
    RunInv(run, i);
    assert CellOk(run[i], c);
    assert AttachedTo(run[i], c) == set w | w in run[i].watchers && run[i].watchers[w].pc == Attached(c);
  }

  /** A cell on its way out: its count has gone to zero, or its subscription has failed. */
  ghost predicate Retired(s: State, c: nat) {
    c in s.cells && s.cells[c].gate != Ready &&
    (s.cells[c].gate == Pending ==>
       s.cells[c].owner in s.watchers &&
       var pc := s.watchers[s.cells[c].owner].pc;
       pc == LastOut(c) || pc == Deleting(c) || pc == Undoing(c) || pc == Releasing(c))
  }

  lemma RetiredStays(s: State, s': State, step: Step, c: nat)
    requires ByWatcher(step) ==> WatcherOk(s, step.w)
    requires NextStep(s, s', step) && Retired(s, c)
    ensures Retired(s', c)
  {
  }

  /** Once the last watcher has left a cell, nobody is ever attached to it again. */
  lemma {:induction false} NobodyAttachesAfterZero(run: seq<State>, i: nat, j: nat, c: nat)
    requires IsRun(run) && i <= j < |run| && Retired(run[i], c)
    ensures Retired(run[j], c) && AttachedTo(run[j], c) == {}
  {
    RunInv(run, j);
    if i < j {
      NobodyAttachesAfterZero(run, i, j - 1, c);
      RunInv(run, j - 1);
      assert StepAt(run, j - 1);
      var step :| NextStep(run[j - 1], run[j], step);
      assert ByWatcher(step) ==> WatcherOk(run[j - 1], step.w);
      RetiredStays(run[j - 1], run[j], step, c);
    }
    NobodyAttached(run[j], c);
  }

  /** Dropping the count to zero retires the cell. */
  lemma LastDetachRetires(run: seq<State>, i: nat, w: nat)
    requires IsRun(run) && i + 1 < |run| && NextStep(run[i], run[i + 1], Detach(w))
    requires var c := run[i].watchers[w].pc.c; run[i].cells[c].cnt == 1
    ensures Retired(run[i + 1], run[i].watchers[w].pc.c)
  {
  }

  /** watchMap.Delete removes the entry of the very call that issues it. */
  lemma DeleteRemovesOwnEntry(run: seq<State>, i: nat, w: nat)
    requires IsRun(run) && i < |run| && w in run[i].watchers
    requires run[i].watchers[w].pc.Deleting? || run[i].watchers[w].pc.Undoing?
    ensures run[i].slot == Some(run[i].watchers[w].pc.c)
  {
    RunInv(run, i);
    assert WatcherOk(run[i], w);
  }

  /** When UNWATCH is issued no watcher of the key is attached to any cell, and no other call
      is subscribing or unsubscribing. */
  lemma UnwatchOnlyAtZero(run: seq<State>, i: nat, w: nat)
    requires IsRun(run) && i < |run| && w in run[i].watchers && run[i].watchers[w].pc.LastOut?
    ensures forall v :: v in run[i].watchers ==> !run[i].watchers[v].pc.Attached?
    ensures forall v :: v in run[i].watchers && InMap(run[i].watchers[v].pc) ==> v == w
  {
    RunInv(run, i);
    var s := run[i];
    assert WatcherOk(s, w);
    forall v | v in s.watchers ensures !s.watchers[v].pc.Attached? {
      assert WatcherOk(s, v);
      assert s.watchers[v].pc.Attached? ==> CellOk(s, s.watchers[v].pc.c);
    }
    forall v | v in s.watchers && InMap(s.watchers[v].pc) ensures v == w {
      assert WatcherOk(s, v);
    }
  }

  /** Each event of a cell is acknowledged at most once, whatever the number of watchers,
      reconnects and version wrap-arounds. */
  lemma AcknowledgedOnce(run: seq<State>, i: nat, c: nat, event: nat)
    requires IsRun(run) && i < |run|
    ensures run[i].acks[(c, event)] <= 1
  {
    RunInv(run, i);
    assert AckOk(run[i], c, event);
  }

  // ----- when an event is acknowledged -----

  lemma PeriodStep(n: nat)
    ensures (n + 1) % MAX_UINT64 == if n % MAX_UINT64 == MAX_UINT64 - 1 then 0 else n % MAX_UINT64 + 1
  {
    var q, r := n / MAX_UINT64, n % MAX_UINT64;
    if r == MAX_UINT64 - 1 {
      DivMod(n + 1, q + 1, 0, MAX_UINT64);
    } else {
      DivMod(n + 1, q, r + 1, MAX_UINT64);
    }
  }

  /** The version counts 1 to 2^64 - 1 and begins again with 1. */
  lemma {:induction false} VersionIs(event: nat)
    requires event > 0
    ensures Version(event) == (event - 1) % MAX_UINT64 + 1
  {
    if event > 1 {
      VersionIs(event - 1);
      PeriodStep(event - 2);
    }
  }

  /** Two events have the same version exactly if they are whole turns of 2^64 - 1 apart. */
  lemma SameVersionExactly(a: nat, b: nat)
    requires 0 < a <= b
    ensures SameVersion(a, b) <==> (b - a) % MAX_UINT64 == 0
  {
    VersionIs(a);
    VersionIs(b);
    var q, r, p, t := (a - 1) / MAX_UINT64, (a - 1) % MAX_UINT64, (b - 1) / MAX_UINT64, (b - 1) % MAX_UINT64;
    assert b - a == (p - q) * MAX_UINT64 + (t - r);
    if t >= r {
      SpreadIsPositive(p - q, t - r);
      DivMod(b - a, p - q, t - r, MAX_UINT64);
    } else {
      assert b - a == (p - q - 1) * MAX_UINT64 + (MAX_UINT64 + t - r);
      SpreadIsPositive(p - q - 1, MAX_UINT64 + t - r);
      DivMod(b - a, p - q - 1, MAX_UINT64 + t - r, MAX_UINT64);
    }
  }

  lemma SpreadIsPositive(d: int, r: nat)
    requires r < MAX_UINT64 && d * MAX_UINT64 + r >= 0
    ensures d >= 0
  {
  }

  lemma SeenIsPast(s: State, s': State, step: Step, w: nat)
    requires WatcherOk(s, w) && NextStep(s, s', step) && SeenOk(s, w)
    ensures SeenOk(s', w)
  {
  }

  /** `seen` is the event of the last callback. */
  lemma SeenByCallback(s: State, s': State, step: Step, w: nat, event: nat)
    requires NextStep(s, s', step) && w in s.watchers
    ensures w in s'.watchers
    ensures s'.watchers[w].seen != s.watchers[w].seen ==> step == Callback(w, s'.watchers[w].seen)
    ensures step == Callback(w, event) ==> s'.watchers[w].seen == event
  {
  }

  /** What a watcher has seen has happened. */
  ghost predicate SeenOk(s: State, w: nat) {
    w in s.watchers ==>
      && (s.watchers[w].pc.Attached? && s.watchers[w].pc.c in s.cells ==>
            s.watchers[w].seen <= s.cells[s.watchers[w].pc.c].event)
      && (s.watchers[w].seen > 0 ==> s.watchers[w].pc.Attached? || Leaving(s.watchers[w].pc))
  }

  predicate Leaving(pc: Pc) {
    pc.LastOut? || pc.Deleting? || pc.Releasing? || pc == Over
  }

  lemma {:induction false} RunSeen(run: seq<State>, i: nat, w: nat)
    requires IsRun(run) && i < |run|
    ensures SeenOk(run[i], w)
  {
    if i > 0 {
      RunSeen(run, i - 1, w);
      RunInv(run, i - 1);
      assert WatcherOk(run[i - 1], w);
      assert StepAt(run, i - 1);
      var step :| NextStep(run[i - 1], run[i], step);
      SeenIsPast(run[i - 1], run[i], step, w);
    }
  }

  /** A WATCH is sent by exactly one kind of step: a watcher attached to the cell comes back from its
      callback, the newest event is not acknowledged, and the callback was for it, or for one whole turns
      of the version before. */
  lemma AcknowledgesOnlySeen(run: seq<State>, i: nat, step: Step, c: nat, event: nat)
    requires IsRun(run) && i + 1 < |run| && NextStep(run[i], run[i + 1], step)
    requires run[i + 1].acks[(c, event)] != run[i].acks[(c, event)]
    ensures step.Acknowledge? && run[i + 1].acks[(c, event)] == 1
    ensures step.w in run[i].watchers && run[i].watchers[step.w].pc == Attached(c)
    ensures c in run[i].cells && event == run[i].cells[c].event && !run[i].cells[c].ack
    ensures var seen := run[i].watchers[step.w].seen;
            0 < seen <= event && (event - seen) % MAX_UINT64 == 0
  {
    RunInv(run, i);
    assert AckOk(run[i], c, event);
    RunSeen(run, i, step.w);
    SameVersionExactly(run[i].watchers[step.w].seen, event);
  }

  /** A watcher that comes back from the callback for the newest event of its cell leaves the event
      acknowledged, and sends the WATCH itself unless the event has been acknowledged before. */
  lemma AcknowledgesNewest(run: seq<State>, i: nat, w: nat)
    requires IsRun(run) && i + 1 < |run| && NextStep(run[i], run[i + 1], Acknowledge(w))
    requires var c := run[i].watchers[w].pc.c; run[i].watchers[w].seen == run[i].cells[c].event
    ensures var c := run[i].watchers[w].pc.c;
            var event := run[i].cells[c].event;
            && run[i + 1].cells[c].ack && run[i + 1].cells[c].event == event
            && run[i + 1].acks[(c, event)] == if run[i].cells[c].ack then run[i].acks[(c, event)] else 1
  {
    RunInv(run, i);
    var c := run[i].watchers[w].pc.c;
    assert AckOk(run[i], c, run[i].cells[c].event);
  }

  /** A reconnect has sent a WATCH for the newest event of the cell. */
  ghost predicate Renewed(run: seq<State>, i: nat, c: nat, event: nat) {
    exists j: nat :: j < i && RenewedAt(run, j, c, event)
  }

  ghost predicate RenewedAt(run: seq<State>, j: nat, c: nat, event: nat) {
    j + 1 < |run| && c in run[j].cells && run[j].cells[c].event == event && NextStep(run[j], run[j + 1], Resubscribe(c))
  }

  lemma AckBySteps(s: State, s': State, step: Step, c: nat)
    requires NextStep(s, s', step) && c in s'.cells && s'.cells[c].ack
    requires step.Acknowledge? && c in s.cells ==> AckOk(s, c, s.cells[c].event)
    ensures c in s.cells && s.cells[c].event == s'.cells[c].event
    ensures var event := s'.cells[c].event;
            || (s.cells[c].ack && s'.acks[(c, event)] == s.acks[(c, event)])
            || step == Resubscribe(c)
            || s'.acks[(c, event)] == 1
  {
  }

  /** The newest event of a cell counts as acknowledged exactly if a watcher or a reconnect has sent its
      WATCH. */
  lemma {:induction false} AcknowledgedExactly(run: seq<State>, i: nat, c: nat)
    requires IsRun(run) && i < |run| && c in run[i].cells
    ensures var event := run[i].cells[c].event;
            run[i].cells[c].ack <==> run[i].acks[(c, event)] == 1 || Renewed(run, i, c, event)
  {
    var event := run[i].cells[c].event;
    RunInv(run, i);
    assert AckOk(run[i], c, event);
    if run[i].cells[c].ack {
      AckHasReason(run, i, c);
    }
    if Renewed(run, i, c, event) {
      var j: nat :| j < i && RenewedAt(run, j, c, event);
      SettledForGood(run, j + 1, i, c, event);
    }
  }

  lemma {:induction false} AckHasReason(run: seq<State>, i: nat, c: nat)
    requires IsRun(run) && i < |run| && c in run[i].cells && run[i].cells[c].ack
    ensures run[i].acks[(c, run[i].cells[c].event)] == 1 || Renewed(run, i, c, run[i].cells[c].event)
  {
    var event := run[i].cells[c].event;
    if i > 0 {
      RunInv(run, i - 1);
      assert StepAt(run, i - 1);
      var step :| NextStep(run[i - 1], run[i], step);
      assert c in run[i - 1].cells ==> AckOk(run[i - 1], c, run[i - 1].cells[c].event);
      AckBySteps(run[i - 1], run[i], step, c);
      if run[i - 1].cells[c].ack {
        AckHasReason(run, i - 1, c);
        if Renewed(run, i - 1, c, event) {
          var j: nat :| j < i - 1 && RenewedAt(run, j, c, event);
          assert j < i && RenewedAt(run, j, c, event);
        }
      } else if step == Resubscribe(c) {
        assert RenewedAt(run, i - 1, c, event);
      }
    }
  }

  /** So the WATCH of a watcher is sent exactly if neither another watcher nor a reconnect has sent one for
      the event. */
  lemma AcknowledgesExactly(run: seq<State>, i: nat, w: nat)
    requires IsRun(run) && i + 1 < |run| && NextStep(run[i], run[i + 1], Acknowledge(w))
    requires var c := run[i].watchers[w].pc.c; run[i].watchers[w].seen == run[i].cells[c].event
    ensures var c := run[i].watchers[w].pc.c;
            var event := run[i].cells[c].event;
            run[i + 1].acks[(c, event)] == run[i].acks[(c, event)] + 1
            <==> run[i].acks[(c, event)] == 0 && !Renewed(run, i, c, event)
  {
    var c := run[i].watchers[w].pc.c;
    RunInv(run, i);
    assert AckOk(run[i], c, run[i].cells[c].event);
    AcknowledgesNewest(run, i, w);
    AcknowledgedExactly(run, i, c);
  }

  /** The event is not the newest of its cell, or is acknowledged. */
  ghost predicate Settled(s: State, c: nat, event: nat) {
    c in s.cells && (event < s.cells[c].event || (event == s.cells[c].event && s.cells[c].ack))
  }

  lemma SettledStays(s: State, s': State, step: Step, c: nat, event: nat)
    requires NextStep(s, s', step) && Settled(s, c, event)
    requires step.LoadMiss? ==> c != step.c
    ensures Settled(s', c, event) && s'.acks[(c, event)] == s.acks[(c, event)]
  {
  }

  lemma {:induction false} SettledForGood(run: seq<State>, i: nat, j: nat, c: nat, event: nat)
    requires IsRun(run) && i <= j < |run| && Settled(run[i], c, event)
    ensures Settled(run[j], c, event) && run[j].acks[(c, event)] == run[i].acks[(c, event)]
  {
    if i < j {
      SettledForGood(run, i, j - 1, c, event);
      assert StepAt(run, j - 1);
      var step :| NextStep(run[j - 1], run[j], step);
      SettledStays(run[j - 1], run[j], step, c, event);
    }
  }

  /** The WATCH that dial sends on a reconnect acknowledges the newest event of the cell: from then on no
      watcher ever acknowledges it, nor any event before it. */
  lemma ReconnectAcknowledges(run: seq<State>, i: nat, j: nat, c: nat, event: nat)
    requires IsRun(run) && i < j < |run| && NextStep(run[i], run[i + 1], Resubscribe(c))
    requires event <= run[i].cells[c].event
    ensures run[j].acks[(c, event)] == run[i].acks[(c, event)]
  {
    SettledForGood(run, i + 1, j, c, event);
  }

  /** A reconnect sends the WATCH of the key exactly if the cell in the map is ready, and then somebody is
      attached to it. */
  lemma ResubscribesWatched(run: seq<State>, i: nat, c: nat)
    requires IsRun(run) && i + 1 < |run| && NextStep(run[i], run[i + 1], Resubscribe(c))
    ensures run[i].slot == Some(c) && run[i].cells[c].cnt >= 1 && AttachedTo(run[i], c) != {}
    ensures run[i + 1].cells[c].ack && run[i + 1].cells[c].event == run[i].cells[c].event
  {
    RunInv(run, i);
    assert CellOk(run[i], c);
  }

  /** And what a watcher has acknowledged is acknowledged by nobody again but a reconnect. */
  lemma AcknowledgedForGood(run: seq<State>, i: nat, j: nat, c: nat, event: nat)
    requires IsRun(run) && i <= j < |run| && run[i].acks[(c, event)] == 1
    ensures run[j].acks[(c, event)] == 1
  {
    RunInv(run, i);
    assert AckOk(run[i], c, event);
    SettledForGood(run, i, j, c, event);
  }
}
