/**
 Concurrent calls of GetNextConnection (connection_pool/round_robin.go).  They hold the read lock only,
 so the accesses of nextIndex to the counter interleave; the pool itself changes under the write lock.
 */
module CounterRace {
  import opened Common
  import opened RoundRobin
  import opened Fairness

  /** A call that holds the read lock: it has read the counter for its index k, then once more for the
      increment, then written it back. */
  datatype Call = Chosen(k: nat) | Loaded(k: nat, value: nat) | Stored(k: nat)

  datatype State = State(
    size: nat,
    current: nat,
    calls: map<nat, Call>,
    seen: seq<nat>,         // the counter as each call has read it for its index
    overlapped: bool)       // some call did so between the first read and the write of another one

  datatype Step =
    | Choose(a: nat)
    | Load(a: nat)
    | Store(a: nat)
    | Return(a: nat)
    | Resize(size: nat)     // AddConn and DeleteConnByAddr

  predicate Under(call: Call) {
    !call.Stored?
  }

  /** Some call is between its first read and its write. */
  ghost predicate Busy(calls: map<nat, Call>) {
    exists a :: a in calls && Under(calls[a])
  }

  ghost predicate Init(start: nat, s: State) {
    start < TWO_TO_THE_64 && s == State(s.size, start, map[], [], false)
  }

  ghost predicate NextStep(s: State, s': State, step: Step) {
    match step
    case Choose(a) =>
      a !in s.calls && s.size > 0 &&
      s' == s.(calls := s.calls[a := Chosen(s.current % s.size)], seen := s.seen + [s.current],
               overlapped := s.overlapped || Busy(s.calls))
    case Load(a) =>
      a in s.calls && s.calls[a].Chosen? &&
      s' == s.(calls := s.calls[a := Loaded(s.calls[a].k, s.current)])
    case Store(a) =>
      a in s.calls && s.calls[a].Loaded? && s.calls[a].value < TWO_TO_THE_64 &&
      s' == s.(current := Increment(TWO_TO_THE_64, s.calls[a].value), calls := s.calls[a := Stored(s.calls[a].k)])
    case Return(a) =>
      a in s.calls && s.calls[a].Stored? && s' == s.(calls := s.calls - {a})
    case Resize(size) =>
      s.calls == map[] && s' == s.(size := size)
  }

  ghost predicate Next(s: State, s': State) {
    exists step :: NextStep(s, s', step)
  }

  ghost predicate StepAt(run: seq<State>, i: nat)
    requires i + 1 < |run|
  {
    Next(run[i], run[i + 1])
  }

  ghost predicate IsRun(start: nat, run: seq<State>) {
    run != [] && Init(start, run[0]) && forall i: nat :: i + 1 < |run| ==> StepAt(run, i)
  }

  // ----- invariant -----

  /** The counter was read as by sequential calls. */
  ghost predicate InTurn(start: nat, seen: seq<nat>)
    requires start < TWO_TO_THE_64
  {
    forall t :: 0 <= t < |seen| ==> seen[t] == CounterAfter(TWO_TO_THE_64, start, t)
  }

  ghost predicate CallOk(s: State, a: nat) {
    a in s.calls ==> s.calls[a].k < s.size && (s.calls[a].Loaded? ==> s.calls[a].value < TWO_TO_THE_64)
  }

  /** While calls do not overlap, at most one is under way, and the counter is as many increments behind. */
  ghost predicate Orderly(start: nat, s: State)
    requires start < TWO_TO_THE_64
  {
    && InTurn(start, s.seen)
    && (forall a, b :: a in s.calls && b in s.calls && Under(s.calls[a]) && Under(s.calls[b]) ==> a == b)
    && (Busy(s.calls) ==> |s.seen| > 0 && s.current == CounterAfter(TWO_TO_THE_64, start, |s.seen| - 1))
    && (!Busy(s.calls) ==> s.current == CounterAfter(TWO_TO_THE_64, start, |s.seen|))
    && (forall a :: a in s.calls && s.calls[a].Loaded? ==> s.calls[a].value == s.current)
  }

  ghost predicate Inv(start: nat, s: State) {
    && start < TWO_TO_THE_64 && s.current < TWO_TO_THE_64
    && (forall a :: CallOk(s, a))
    && if s.overlapped then !InTurn(start, s.seen) else Orderly(start, s)
  }

  lemma CallsKept(start: nat, s: State, s': State, step: Step)
    requires Inv(start, s) && NextStep(s, s', step)
    ensures s'.current < TWO_TO_THE_64 && forall a :: CallOk(s', a)
  {
    hide InTurn, Orderly, Busy;
    forall a ensures CallOk(s', a) { assert CallOk(s, a); }
  }

  /** A value read behind its turn stays so. */
  lemma LateRead(start: nat, seen: seq<nat>, value: nat)
    requires start < TWO_TO_THE_64
    ensures !InTurn(start, seen) ==> !InTurn(start, seen + [value])
    ensures value != CounterAfter(TWO_TO_THE_64, start, |seen|) ==> !InTurn(start, seen + [value])
    ensures InTurn(start, seen) && value == CounterAfter(TWO_TO_THE_64, start, |seen|) ==> InTurn(start, seen + [value])
  {
    var more := seen + [value];
    assert more[|seen|] == value;
    if t :| 0 <= t < |seen| && seen[t] != CounterAfter(TWO_TO_THE_64, start, t) {
      assert more[t] == seen[t];
    }
  }

  lemma ChooseKeeps(start: nat, s: State, s': State, a: nat)
    requires Inv(start, s) && NextStep(s, s', Choose(a))
    ensures if s'.overlapped then !InTurn(start, s'.seen) else Orderly(start, s')
  {
    hide InTurn, CallOk;
    LateRead(start, s.seen, s.current);
    assert Under(s'.calls[a]);
  }

  lemma StoreKeeps(start: nat, s: State, s': State, a: nat)
    requires Inv(start, s) && NextStep(s, s', Store(a)) && !s.overlapped
    ensures Orderly(start, s')
  {
    hide InTurn, CallOk;
    assert Under(s.calls[a]);
    forall b | b in s'.calls ensures !Under(s'.calls[b]) {
      if b != a {
        assert b in s.calls && s.calls[b] == s'.calls[b];
      }
    }
  }

  lemma OthersKeep(start: nat, s: State, s': State, step: Step)
    requires Inv(start, s) && NextStep(s, s', step) && !s.overlapped && !step.Choose? && !step.Store?
    ensures Orderly(start, s')
  {
    hide InTurn, CallOk;
    forall b ensures b in s.calls && Under(s.calls[b]) <==> b in s'.calls && Under(s'.calls[b]) {}
  }

  lemma InvKept(start: nat, s: State, s': State, step: Step)
    requires Inv(start, s) && NextStep(s, s', step)
    ensures Inv(start, s')
  {
    CallsKept(start, s, s', step);
    hide InTurn, Orderly, CallOk, Busy;
    if step.Choose? {
      ChooseKeeps(start, s, s', step.a);
    } else if !s.overlapped {
      if step.Store? {
        StoreKeeps(start, s, s', step.a);
      } else {
        OthersKeep(start, s, s', step);
      }
    }
  }

  lemma {:induction false} RunInv(start: nat, run: seq<State>, i: nat)
    requires IsRun(start, run) && i < |run|
    ensures Inv(start, run[i])
  {
    if i > 0 {
      RunInv(start, run, i - 1);
      assert StepAt(run, i - 1);
      var step :| NextStep(run[i - 1], run[i], step);
      InvKept(start, run[i - 1], run[i], step);
    }
  }

  // ----- every run -----

  /** Whatever races for the counter, no call ever indexes outside the pool. */
  lemma IndexInRange(start: nat, run: seq<State>, i: nat, a: nat)
    requires IsRun(start, run) && i < |run| && a in run[i].calls
    ensures run[i].calls[a].k < run[i].size
  {
    RunInv(start, run, i);
    assert CallOk(run[i], a);
  }

  /** The calls read the counter as sequential calls would exactly if no call starts while another one
      is between its first read and its write. */
  lemma SequentialExactly(start: nat, run: seq<State>, i: nat)
    requires IsRun(start, run) && i < |run|
    ensures start < TWO_TO_THE_64 && (InTurn(start, run[i].seen) <==> !run[i].overlapped)
  {
    RunInv(start, run, i);
  }

  /** How many calls got position p of n. */
  function Got(seen: seq<nat>, n: nat, p: nat): nat
    requires n > 0
  {
    if seen == [] then 0 else Got(seen[..|seen| - 1], n, p) + Bit(seen[|seen| - 1] % n == p)
  }

  /** Calls in turn are spread over the positions as the sequential ones are. */
  lemma {:induction false} InTurnHits(start: nat, seen: seq<nat>, n: nat, p: nat)
    requires start < TWO_TO_THE_64 && n > 0 && InTurn(start, seen)
    ensures Got(seen, n, p) == Hits(TWO_TO_THE_64, start, n, |seen|, p)
  {
    if seen != [] {
      InTurnHits(start, seen[..|seen| - 1], n, p);
    }
  }

  /** Two calls that overlap get the same connection, and the counter advances once. */
  lemma OverlapRun() returns (run: seq<State>)
    ensures IsRun(0, run) && run[|run| - 1].seen == [0, 0] && run[|run| - 1].current == 1
  {
    var s0 := State(2, 0, map[], [], false);
    var s1 := s0.(calls := map[0 := Chosen(0)], seen := [0]);
    var s2 := s1.(calls := s1.calls[1 := Chosen(0)], seen := [0, 0], overlapped := true);
    var s3 := s2.(calls := s2.calls[0 := Loaded(0, 0)]);
    var s4 := s3.(calls := s3.calls[1 := Loaded(0, 0)]);
    var s5 := s4.(current := 1, calls := s4.calls[0 := Stored(0)]);
    var s6 := s5.(calls := s5.calls[1 := Stored(0)]);
    assert Under(s1.calls[0]);
    assert NextStep(s0, s1, Choose(0)) && NextStep(s1, s2, Choose(1));
    assert NextStep(s2, s3, Load(0)) && NextStep(s3, s4, Load(1));
    assert NextStep(s4, s5, Store(0)) && NextStep(s5, s6, Store(1));
    run := [s0, s1, s2, s3, s4, s5, s6];
  }
}
