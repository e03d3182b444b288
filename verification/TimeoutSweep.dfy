/**
 The timeouts goroutine (connection.go): one sweep visits every `requests` slot while requests
 keep being registered, refreshed by pushes, answered and cleared between its visits.  Each
 step holds the rmut of one shard; the clock only moves forward.
 */
module TimeoutSweep {

  datatype Entry = Entry(fut: nat, deadline: int)

  datatype Config = Config(shards: nat, slotsPerShard: nat, timeout: nat)

  datatype Phase =
    | Asleep
    | NextShard(shard: nat, minNext: int)
    | InShard(shard: nat, pos: nat, reading: int, minNext: int)
    | Finished(minNext: int)

  /** `since` is when a future was registered in `requests` or had its last push. */
  datatype State = State(now: int, slots: seq<seq<Entry>>, phase: Phase, since: map<nat, int>)

  datatype Step =
    | Tick(d: nat)
    | Register(slot: nat, fut: nat)     // newFuture, or a push that moves a context future here
    | Refresh(slot: nat, k: nat)        // peekFuture after a push
    | Fetch(slot: nat, k: nat)
    | Clear
    | Wake
    | ReadClock
    | Visit
    | Reset

  /** The inner loop of timeouts on one slot (FutureList.Expire). */
  function DropExpired(list: seq<Entry>, reading: int): (rest: seq<Entry>)
    ensures |rest| <= |list|
  {
    if list != [] && list[0].deadline < reading then DropExpired(list[1..], reading) else list
  }

  function Min(a: int, b: int): int { if b < a then b else a }

  ghost predicate Init(c: Config, s: State) {
    && |s.slots| == c.shards * c.slotsPerShard
    && (forall i :: 0 <= i < |s.slots| ==> s.slots[i] == [])
    && s.phase == Asleep && s.since == map[]
  }

  ghost predicate NextStep(c: Config, s: State, s': State, step: Step) {
    match step
    case Tick(d) => s' == s.(now := s.now + d)
    case Register(i, fut) =>
      i < |s.slots| && fut !in s.since &&
      s' == s.(slots := s.slots[i := s.slots[i] + [Entry(fut, s.now + c.timeout)]], since := s.since[fut := s.now])
    case Refresh(i, k) =>
      i < |s.slots| && k < |s.slots[i]| &&
      s' == s.(slots := s.slots[i := s.slots[i][..k] + s.slots[i][k + 1..] + [Entry(s.slots[i][k].fut, s.now + c.timeout)]],
               since := s.since[s.slots[i][k].fut := s.now])
    case Fetch(i, k) =>
      i < |s.slots| && k < |s.slots[i]| &&
      s' == s.(slots := s.slots[i := s.slots[i][..k] + s.slots[i][k + 1..]])
    case Clear =>
      s' == s.(slots := seq(|s.slots|, _ => []))
    case Wake =>
      s.phase == Asleep && s' == s.(phase := NextShard(0, s.now + c.timeout))
    case ReadClock =>
      s.phase.NextShard? &&
      s' == s.(phase := if s.phase.shard < c.shards then InShard(s.phase.shard, 0, s.now, s.phase.minNext)
                        else Finished(s.phase.minNext))
    case Visit =>
      s.phase.InShard? &&
      if s.phase.pos < c.slotsPerShard then
        var i := s.phase.shard * c.slotsPerShard + s.phase.pos;
        i < |s.slots| &&
        var rest := DropExpired(s.slots[i], s.phase.reading);
        s' == s.(slots := s.slots[i := rest],
                 phase := s.phase.(pos := s.phase.pos + 1,
                                   minNext := if rest != [] then Min(s.phase.minNext, rest[0].deadline) else s.phase.minNext))
      else s' == s.(phase := NextShard(s.phase.shard + 1, s.phase.minNext))
    case Reset =>
      s.phase.Finished? && s' == s.(phase := Asleep)
  }

  ghost predicate Next(c: Config, s: State, s': State) {
    exists step :: NextStep(c, s, s', step)
  }

  // ----- invariant -----

  ghost predicate SortedUpTo(list: seq<Entry>, bound: int) {
    && (forall i, j :: 0 <= i < j < |list| ==> list[i].deadline <= list[j].deadline)
    && (forall i :: 0 <= i < |list| ==> list[i].deadline <= bound)
  }

  ghost predicate NotBelow(list: seq<Entry>, minNext: int) {
    forall i :: 0 <= i < |list| ==> minNext <= list[i].deadline
  }

  /** Number of slots the sweep has visited. */
  function Visited(c: Config, p: Phase): nat {
    match p
    case Asleep => 0
    case NextShard(shard, _) => shard * c.slotsPerShard
    case InShard(shard, pos, _, _) => shard * c.slotsPerShard + pos
    case Finished(_) => c.shards * c.slotsPerShard
  }

  ghost predicate Inv(c: Config, s: State) {
    && |s.slots| == c.shards * c.slotsPerShard
    && (forall i :: 0 <= i < |s.slots| ==> SortedUpTo(s.slots[i], s.now + c.timeout))
    && (s.phase.NextShard? ==> s.phase.shard <= c.shards)
    && (s.phase.InShard? ==> s.phase.shard < c.shards && s.phase.pos <= c.slotsPerShard && s.phase.reading <= s.now)
    && Visited(c, s.phase) <= |s.slots|
    && (s.phase != Asleep ==>
          s.phase.minNext <= s.now + c.timeout &&
          forall i :: 0 <= i < Visited(c, s.phase) ==> NotBelow(s.slots[i], s.phase.minNext))
  }

  lemma {:induction false} DropIsSuffix(list: seq<Entry>, reading: int) returns (k: nat)
    ensures k <= |list| && DropExpired(list, reading) == list[k..]
    ensures forall i :: 0 <= i < k ==> list[i].deadline < reading
    ensures k < |list| ==> list[k].deadline >= reading
  {
    if list != [] && list[0].deadline < reading {
      var j := DropIsSuffix(list[1..], reading);
      k := j + 1;
      assert list[1..][j..] == list[k..];
      forall i | 0 <= i < k ensures list[i].deadline < reading {
        if i > 0 {
          assert list[1..][i - 1] == list[i];
        }
      }
    } else {
      k := 0;
    }
  }

  /** On a list kept by this machine, popping the expired prefix removes exactly the entries
      whose deadline has passed at the clock reading, and keeps the others in order. */
  lemma SweepIsExact(list: seq<Entry>, reading: int, bound: int)
    requires SortedUpTo(list, bound)
    ensures var rest := DropExpired(list, reading);
            && SortedUpTo(rest, bound)
            && rest == list[|list| - |rest|..]
            && (forall i :: 0 <= i < |list| ==> (list[i].deadline < reading <==> i < |list| - |rest|))
            && (rest != [] ==> NotBelow(rest, rest[0].deadline))
  {
    var k := DropIsSuffix(list, reading);
  }

  lemma SortedWithout(list: seq<Entry>, k: nat, bound: int)
    requires SortedUpTo(list, bound) && k < |list|
    ensures SortedUpTo(list[..k] + list[k + 1..], bound)
  {
    var rest := list[..k] + list[k + 1..];
    assert forall i :: 0 <= i < |rest| ==> rest[i] == list[if i < k then i else i + 1];
  }

  lemma SortedWith(list: seq<Entry>, fut: nat, bound: int)
    requires SortedUpTo(list, bound)
    ensures SortedUpTo(list + [Entry(fut, bound)], bound)
  {
  }

  lemma SortedLater(list: seq<Entry>, bound: int, d: nat)
    requires SortedUpTo(list, bound)
    ensures SortedUpTo(list, bound + d) && SortedUpTo([], bound)
  {
  }

  /** The list that a step changes, if it changes one. */
  lemma ChangedListKept(c: Config, s: State, s': State, step: Step, i: nat)
    requires i < |s.slots| && SortedUpTo(s.slots[i], s.now + c.timeout) && NextStep(c, s, s', step)
    ensures |s'.slots| == |s.slots| && SortedUpTo(s'.slots[i], s'.now + c.timeout)
  {
    hide SortedUpTo, DropExpired;
    var list, bound := s.slots[i], s.now + c.timeout;
    SortedLater(list, bound, if step.Tick? then step.d else 0);
    match step
    case Register(j, fut) => SortedWith(list, fut, bound);
    case Refresh(j, k) =>
      if i == j {
        SortedWithout(list, k, bound);
        SortedWith(list[..k] + list[k + 1..], list[k].fut, bound);
      }
    case Fetch(j, k) =>
      if i == j {
        SortedWithout(list, k, bound);
      }
    case Visit => SweepIsExact(list, if s.phase.InShard? then s.phase.reading else 0, bound);
    case Tick(d) =>
    case Clear =>
    case Wake =>
    case ReadClock =>
    case Reset =>
  }

  lemma ListsKept(c: Config, s: State, s': State, step: Step)
    requires Inv(c, s) && NextStep(c, s, s', step)
    ensures |s'.slots| == |s.slots|
    ensures forall i :: 0 <= i < |s'.slots| ==> SortedUpTo(s'.slots[i], s'.now + c.timeout)
  {
    hide SortedUpTo;
    forall i | 0 <= i < |s'.slots| ensures i < |s.slots| && SortedUpTo(s'.slots[i], s'.now + c.timeout) {
      ChangedListKept(c, s, s', step, i);
    }
  }

  lemma ShardBounds(shard: nat, shards: nat, per: nat)
    requires shard < shards
    ensures (shard + 1) * per == shard * per + per <= shards * per
  {
    assert (shard + 1) * per <= shards * per;
  }

  lemma VisitKeeps(c: Config, s: State, s': State)
    requires Inv(c, s) && s.phase.InShard? && NextStep(c, s, s', Visit)
    ensures Inv(c, s')
  {
    ListsKept(c, s, s', Visit);
    ShardBounds(s.phase.shard, c.shards, c.slotsPerShard);
    if s.phase.pos < c.slotsPerShard {
      var k := Visited(c, s.phase);
      SweepIsExact(s.slots[k], s.phase.reading, s.now + c.timeout);
      forall i | 0 <= i < Visited(c, s'.phase) ensures NotBelow(s'.slots[i], s'.phase.minNext) {
        assert i < k ==> NotBelow(s.slots[i], s.phase.minNext);
      }
    }
  }

  /** Registration and refresh append a deadline that is not below the running minimum. */
  lemma OthersKeep(c: Config, s: State, s': State, step: Step)
    requires Inv(c, s) && NextStep(c, s, s', step) && (step.Tick? || step.Register? || step.Refresh? || step.Fetch? || step.Clear?)
    ensures Inv(c, s')
  {
    ListsKept(c, s, s', step);
    if s.phase != Asleep {
      forall i | 0 <= i < Visited(c, s.phase) ensures NotBelow(s'.slots[i], s.phase.minNext) {
        assert NotBelow(s.slots[i], s.phase.minNext);
      }
    }
  }

  lemma InvKept(c: Config, s: State, s': State)
    requires Inv(c, s) && Next(c, s, s')
    ensures Inv(c, s')
  {
    var step :| NextStep(c, s, s', step);
    match step
    case Visit => VisitKeeps(c, s, s');
    case Wake =>
    case ReadClock =>
      if s.phase.shard < c.shards {
        ShardBounds(s.phase.shard, c.shards, c.slotsPerShard);
      }
    case Reset =>
    case _ => OthersKeep(c, s, s', step);
  }

  // ----- every run -----

  ghost predicate StepAt(c: Config, run: seq<State>, i: nat)
    requires i + 1 < |run|
  {
    Next(c, run[i], run[i + 1])
  }

  ghost predicate IsRun(c: Config, run: seq<State>) {
    && run != [] && Init(c, run[0])
    && forall i: nat :: i + 1 < |run| ==> StepAt(c, run, i)
  }

  lemma {:induction false} RunInv(c: Config, run: seq<State>, n: nat)
    requires IsRun(c, run) && n < |run|
    ensures Inv(c, run[n])
  {
    if n > 0 {
      RunInv(c, run, n - 1);
      assert StepAt(c, run, n - 1);
      InvKept(c, run[n - 1], run[n]);
    }
  }

  /** Every entry is dated, and no two are for the same future. */
  ghost predicate Dated(c: Config, s: State, i: nat, k: nat) {
    i < |s.slots| && k < |s.slots[i]| ==>
      && s.slots[i][k].fut in s.since && s.slots[i][k].deadline == s.since[s.slots[i][k].fut] + c.timeout
      && forall j, m :: 0 <= j < |s.slots| && 0 <= m < |s.slots[j]| && s.slots[j][m].fut == s.slots[i][k].fut ==> j == i && m == k
  }

  ghost predicate AllDated(c: Config, s: State) {
    forall i: nat, k: nat :: Dated(c, s, i, k)
  }

  /** Where an entry of the new table was before, for the steps that only take entries away. */
  function Source(c: Config, s: State, step: Step, i: nat, k: nat): nat {
    match step
    case Refresh(j, m) => if i == j && k >= m then k + 1 else k
    case Fetch(j, m) => if i == j && k >= m then k + 1 else k
    case Visit =>
      if s.phase.InShard? && s.phase.pos < c.slotsPerShard && i == s.phase.shard * c.slotsPerShard + s.phase.pos && i < |s.slots| then
        k + |s.slots[i]| - |DropExpired(s.slots[i], s.phase.reading)|
      else k
    case _ => k
  }

  /** The entry that a registration or a push appends. */
  ghost predicate IsNew(s: State, step: Step, i: nat, k: nat) {
    || (step.Register? && i == step.slot && i < |s.slots| && k == |s.slots[i]|)
    || (step.Refresh? && i == step.slot && i < |s.slots| && |s.slots[i]| > 0 && k == |s.slots[i]| - 1)
  }

  lemma OldEntry(c: Config, s: State, s': State, step: Step, i: nat, k: nat)
    requires NextStep(c, s, s', step) && i < |s'.slots| && k < |s'.slots[i]| && !IsNew(s, step, i, k)
    ensures i < |s.slots| && Source(c, s, step, i, k) < |s.slots[i]|
    ensures s'.slots[i][k] == s.slots[i][Source(c, s, step, i, k)]
    ensures step.Refresh? ==> !(i == step.slot && Source(c, s, step, i, k) == step.k)
  {
    if step.Visit? && s.phase.InShard? && s.phase.pos < c.slotsPerShard {
      var n := s.phase.shard * c.slotsPerShard + s.phase.pos;
      var d := DropIsSuffix(s.slots[n], s.phase.reading);
    }
  }

  lemma NewEntry(c: Config, s: State, s': State, step: Step, i: nat, k: nat)
    requires NextStep(c, s, s', step) && IsNew(s, step, i, k)
    ensures i < |s'.slots| && |s'.slots[i]| == k + 1
    ensures s'.slots[i][k].deadline == s'.now + c.timeout && s'.since == s.since[s'.slots[i][k].fut := s'.now]
    ensures step.Register? ==> s'.slots[i][k].fut !in s.since
    ensures step.Refresh? ==> s'.slots[i][k].fut == s.slots[i][step.k].fut
  {
  }

  /** An entry that was there before the step is for a future with a date. */
  lemma OldFut(c: Config, s: State, s': State, step: Step, i: nat, k: nat)
    requires AllDated(c, s) && NextStep(c, s, s', step) && i < |s'.slots| && k < |s'.slots[i]| && !IsNew(s, step, i, k)
    ensures s'.slots[i][k].fut in s.since
  {
    OldEntry(c, s, s', step, i, k);
    assert Dated(c, s, i, Source(c, s, step, i, k));
  }

  /** The place of an entry before the step: its own for a future that was there, none for a new one. */
  lemma FutBefore(c: Config, s: State, s': State, step: Step, i: nat, k: nat) returns (place: nat)
    requires AllDated(c, s) && NextStep(c, s, s', step) && i < |s'.slots| && k < |s'.slots[i]|
    requires !(step.Register? && IsNew(s, step, i, k))
    ensures i < |s.slots| && place < |s.slots[i]| && s.slots[i][place].fut == s'.slots[i][k].fut
    ensures place == if IsNew(s, step, i, k) then step.k else Source(c, s, step, i, k)
  {
    if IsNew(s, step, i, k) {
      NewEntry(c, s, s', step, i, k);
      place := step.k;
    } else {
      OldEntry(c, s, s', step, i, k);
      place := Source(c, s, step, i, k);
    }
  }

  lemma OnceKept(c: Config, s: State, s': State, step: Step, i: nat, k: nat, j: nat, m: nat)
    requires AllDated(c, s) && NextStep(c, s, s', step)
    requires i < |s'.slots| && k < |s'.slots[i]| && j < |s'.slots| && m < |s'.slots[j]|
    requires s'.slots[i][k].fut == s'.slots[j][m].fut
    ensures i == j && k == m
  {
    hide NextStep;
    if step.Register? && IsNew(s, step, i, k) {
      NewEntry(c, s, s', step, i, k);
      if !IsNew(s, step, j, m) {
        OldFut(c, s, s', step, j, m);
      }
    } else if step.Register? && IsNew(s, step, j, m) {
      NewEntry(c, s, s', step, j, m);
      OldFut(c, s, s', step, i, k);
    } else {
      var p := FutBefore(c, s, s', step, i, k);
      var q := FutBefore(c, s, s', step, j, m);
      assert Dated(c, s, i, p);
      if !IsNew(s, step, i, k) {
        OldEntry(c, s, s', step, i, k);
      }
      if !IsNew(s, step, j, m) {
        OldEntry(c, s, s', step, j, m);
      }
    }
  }

  lemma DateKept(c: Config, s: State, s': State, step: Step, i: nat, k: nat)
    requires AllDated(c, s) && NextStep(c, s, s', step) && i < |s'.slots| && k < |s'.slots[i]|
    ensures s'.slots[i][k].fut in s'.since && s'.slots[i][k].deadline == s'.since[s'.slots[i][k].fut] + c.timeout
  {
    if IsNew(s, step, i, k) {
      NewEntry(c, s, s', step, i, k);
    } else {
      OldEntry(c, s, s', step, i, k);
      var p := Source(c, s, step, i, k);
      assert Dated(c, s, i, p);
      if step.Refresh? {
        assert Dated(c, s, step.slot, step.k);
      }
    }
  }

  lemma DatesKept(c: Config, s: State, s': State, step: Step)
    requires AllDated(c, s) && NextStep(c, s, s', step)
    ensures AllDated(c, s')
  {
    hide NextStep;
    forall i: nat, k: nat ensures Dated(c, s', i, k) {
      if i < |s'.slots| && k < |s'.slots[i]| {
        DateKept(c, s, s', step, i, k);
        forall j, m | 0 <= j < |s'.slots| && 0 <= m < |s'.slots[j]| && s'.slots[j][m].fut == s'.slots[i][k].fut
          ensures j == i && m == k
        {
          OnceKept(c, s, s', step, j, m, i, k);
        }
      }
    }
  }

  lemma {:induction false} RunDated(c: Config, run: seq<State>, n: nat)
    requires IsRun(c, run) && n < |run|
    ensures AllDated(c, run[n])
  {
    hide AllDated;
    if n > 0 {
      RunDated(c, run, n - 1);
      assert StepAt(c, run, n - 1);
      var step :| NextStep(c, run[n - 1], run[n], step);
      DatesKept(c, run[n - 1], run[n], step);
    } else {
      NothingDated(c, run[0]);
    }
  }

  lemma NothingDated(c: Config, s: State)
    requires forall i :: 0 <= i < |s.slots| ==> s.slots[i] == []
    ensures AllDated(c, s)
  {
  }

  /** Whenever a sweep visits a slot, exactly those futures leave it whose registration and last push are
      more than the timeout before its shard's clock reading, in whatever way the run went before. */
  lemma VisitRemovesExpired(c: Config, run: seq<State>, n: nat)
    requires IsRun(c, run) && n + 1 < |run| && NextStep(c, run[n], run[n + 1], Visit)
    requires run[n].phase.InShard? && run[n].phase.pos < c.slotsPerShard
    ensures var i := Visited(c, run[n].phase);
            var before, after := run[n].slots[i], run[n + 1].slots[i];
            && |after| <= |before| && after == before[|before| - |after|..]
            && forall j :: 0 <= j < |before| ==>
                 && before[j].fut in run[n].since
                 && (run[n].since[before[j].fut] + c.timeout < run[n].phase.reading <==> j < |before| - |after|)
  {
    RunInv(c, run, n);
    RunDated(c, run, n);
    var i := Visited(c, run[n].phase);
    assert SortedUpTo(run[n].slots[i], run[n].now + c.timeout);
    SweepIsExact(run[n].slots[i], run[n].phase.reading, run[n].now + c.timeout);
    var before, rest := run[n].slots[i], |run[n].slots[i]| - |run[n + 1].slots[i]|;
    forall j | 0 <= j < |before|
      ensures before[j].fut in run[n].since
      ensures run[n].since[before[j].fut] + c.timeout < run[n].phase.reading <==> j < rest
    {
      assert Dated(c, run[n], i, j);
    }
  }

  /** Each date is the time of the registration or the push. */
  lemma DatesAre(c: Config, s: State, s': State, step: Step, fut: nat)
    requires NextStep(c, s, s', step)
    ensures if (step.Register? && step.fut == fut) || (step.Refresh? && s.slots[step.slot][step.k].fut == fut)
            then fut in s'.since && s'.since[fut] == s.now
            else fut in s'.since <==> fut in s.since
    ensures fut in s.since && fut in s'.since && s'.since[fut] != s.since[fut] ==> s'.since[fut] == s.now
  {
  }

  /** When a sweep is over, the time for which it sets its timer is not after any deadline in
      the tables, including those of requests that came in during the sweep. */
  lemma TimerIsEarlyEnough(c: Config, run: seq<State>, n: nat)
    requires IsRun(c, run) && n < |run| && run[n].phase.Finished?
    ensures forall i, j :: 0 <= i < |run[n].slots| && 0 <= j < |run[n].slots[i]| ==>
              run[n].phase.minNext <= run[n].slots[i][j].deadline
  {
    RunInv(c, run, n);
    forall i, j | 0 <= i < |run[n].slots| && 0 <= j < |run[n].slots[i]|
      ensures run[n].phase.minNext <= run[n].slots[i][j].deadline
    {
      assert NotBelow(run[n].slots[i], run[n].phase.minNext);
    }
  }

  /** A sweep that finds nothing sets its timer for the whole timeout. */
  lemma {:induction false} IdleTimer(c: Config, run: seq<State>, i: nat, n: nat)
    requires IsRun(c, run) && i < n < |run| && NextStep(c, run[i], run[i + 1], Wake)
    requires forall m :: i < m <= n ==> run[m].phase != Asleep && forall k :: 0 <= k < |run[m].slots| ==> run[m].slots[k] == []
    ensures run[n].phase.minNext == run[i].now + c.timeout
    decreases n
  {
    if i + 1 < n {
      IdleTimer(c, run, i, n - 1);
      assert StepAt(c, run, n - 1);
      var step :| NextStep(c, run[n - 1], run[n], step);
      assert run[n - 1].phase != Asleep && run[n].phase != Asleep;
      assert forall k :: 0 <= k < |run[n].slots| ==> run[n].slots[k] == [];
    }
  }
}
