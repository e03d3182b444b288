/**
 A run of two watchers of a key: the first subscribes, the second joins, an event is called back to both
 and acknowledged once, and the last to leave unsubscribes.
 */
module WatchWitness {
  import opened Common
  import opened WatchCell

  lemma Extended(run: seq<State>, s: State, step: Step) returns (more: seq<State>)
    requires IsRun(run) && NextStep(run[|run| - 1], s, step)
    ensures more == run + [s] && IsRun(more)
  {
    hide NextStep, Init;
    more := run + [s];
    forall i: nat | i + 1 < |more| ensures StepAt(more, i) {
      if i + 1 < |run| {
        assert StepAt(run, i);
      } else {
        assert NextStep(more[i], more[i + 1], step);
      }
    }
  }

  /** One cell and two watchers. */
  function Two(slot: Option<nat>, cell: Cell, x: Watcher, y: Watcher, acks: multiset<(nat, nat)>): State {
    State(slot, map[0 := cell], map[0 := x, 1 := y], acks)
  }

  lemma Updates(cell: Cell, cell': Cell, x: Watcher, x': Watcher, y: Watcher, y': Watcher)
    ensures map[0 := cell][0 := cell'] == map[0 := cell']
    ensures map[0 := x, 1 := y][0 := x'] == map[0 := x', 1 := y]
    ensures map[0 := x, 1 := y][1 := y'] == map[0 := x, 1 := y']
  {
  }

  lemma SubscribedRun() returns (run: seq<State>)
    ensures IsRun(run)
    ensures run[|run| - 1] == State(Some(0), map[0 := Cell(1, Ready, 0, false, 0)], map[0 := Watcher(Attached(0), 0)], multiset{})
  {
    var none: multiset<(nat, nat)> := multiset{};
    run := [State(None, map[], map[], none)];
    run := Extended(run, State(None, map[], map[0 := Watcher(Looking, 0)], none), Start(0));
    var made := map[0 := Cell(0, Pending, 0, false, 0)];
    run := Extended(run, State(None, made, map[0 := Watcher(Storing(0), 0)], none), LoadMiss(0, 0));
    run := Extended(run, State(Some(0), made, map[0 := Watcher(Subscribing(0), 0)], none), StoreWon(0));
    run := Extended(run, State(Some(0), map[0 := Cell(1, Ready, 0, false, 0)], map[0 := Watcher(Attached(0), 0)], none), SubscribeOk(0));
  }

  lemma JoinedRun() returns (run: seq<State>)
    ensures IsRun(run)
    ensures run[|run| - 1] == Two(Some(0), Cell(2, Ready, 0, false, 0), Watcher(Attached(0), 0), Watcher(Attached(0), 0), multiset{})
  {
    run := SubscribedRun();
    var none: multiset<(nat, nat)> := multiset{};
    var one, x := Cell(1, Ready, 0, false, 0), Watcher(Attached(0), 0);
    Updates(one, one.(cnt := 2), x, x, Watcher(Looking, 0), Watcher(Joining(0), 0));
    Updates(one, one.(cnt := 2), x, x, Watcher(Joining(0), 0), x);
    run := Extended(run, Two(Some(0), one, x, Watcher(Looking, 0), none), Start(1));
    run := Extended(run, Two(Some(0), one, x, Watcher(Joining(0), 0), none), LoadHit(1));
    run := Extended(run, Two(Some(0), one.(cnt := 2), x, x, none), Join(1));
  }

  /** The event reaches both; the WATCH is sent by the first of them. */
  lemma AcknowledgedRun() returns (run: seq<State>)
    ensures IsRun(run)
    ensures run[|run| - 1] == Two(Some(0), Cell(2, Ready, 1, true, 0), Watcher(Attached(0), 1), Watcher(Attached(0), 1), multiset{(0, 1)})
  {
    run := JoinedRun();
    var none: multiset<(nat, nat)> := multiset{};
    var cell, x, seen := Cell(2, Ready, 0, false, 0), Watcher(Attached(0), 0), Watcher(Attached(0), 1);
    Updates(cell, cell.(event := 1), x, seen, x, seen);
    run := Extended(run, Two(Some(0), cell.(event := 1), x, x, none), Event(0));
    run := Extended(run, Two(Some(0), cell.(event := 1), seen, x, none), Callback(0, 1));
    run := AcknowledgedFrom(run);
  }

  lemma AcknowledgedFrom(start: seq<State>) returns (run: seq<State>)
    requires IsRun(start)
    requires start[|start| - 1] == Two(Some(0), Cell(2, Ready, 1, false, 0), Watcher(Attached(0), 1), Watcher(Attached(0), 0), multiset{})
    ensures IsRun(run)
    ensures run[|run| - 1] == Two(Some(0), Cell(2, Ready, 1, true, 0), Watcher(Attached(0), 1), Watcher(Attached(0), 1), multiset{(0, 1)})
  {
    var none: multiset<(nat, nat)> := multiset{};
    var cell, x, seen := Cell(2, Ready, 1, false, 0), Watcher(Attached(0), 0), Watcher(Attached(0), 1);
    Updates(cell, cell.(ack := true), seen, seen, x, seen);
    assert none + multiset{(0, 1)} == multiset{(0, 1)};
    run := Extended(start, Two(Some(0), cell.(ack := true), seen, x, multiset{(0, 1)}), Acknowledge(0));
    run := Extended(run, Two(Some(0), cell.(ack := true), seen, seen, multiset{(0, 1)}), Callback(1, 1));
    run := Extended(run, Two(Some(0), cell.(ack := true), seen, seen, multiset{(0, 1)}), Acknowledge(1));
  }

  /** Both leave; the key is free again, and the event has been acknowledged once. */
  lemma WholeRun() returns (run: seq<State>)
    ensures IsRun(run)
    ensures var s := run[|run| - 1];
            s.slot == None && At(s, 0, Over) && At(s, 1, Over) && s.acks == multiset{(0, 1)} && 0 in s.cells && s.cells[0].cnt == 0
  {
    run := AcknowledgedRun();
    var once := multiset{(0, 1)};
    var cell, x := Cell(2, Ready, 1, true, 0), Watcher(Attached(0), 1);
    var last := cell.(cnt := 0, gate := Pending, owner := 1);
    Updates(cell, cell.(cnt := 1), x, Watcher(Over, 1), x, x);
    run := Extended(run, Two(Some(0), cell.(cnt := 1), Watcher(Over, 1), x, once), Detach(0));
    Updates(cell.(cnt := 1), last, Watcher(Over, 1), Watcher(Over, 1), x, Watcher(LastOut(0), 1));
    run := Extended(run, Two(Some(0), last, Watcher(Over, 1), Watcher(LastOut(0), 1), once), Detach(1));
    run := ReleasedRun(run, last, once);
  }

  lemma ReleasedRun(start: seq<State>, last: Cell, once: multiset<(nat, nat)>) returns (run: seq<State>)
    requires IsRun(start) && start[|start| - 1] == Two(Some(0), last, Watcher(Over, 1), Watcher(LastOut(0), 1), once)
    ensures IsRun(run) && run[|run| - 1] == Two(None, last.(gate := Broken), Watcher(Over, 1), Watcher(Over, 1), once)
  {
    Updates(last, last.(gate := Broken), Watcher(Over, 1), Watcher(Over, 1), Watcher(LastOut(0), 1), Watcher(Deleting(0), 1));
    Updates(last, last.(gate := Broken), Watcher(Over, 1), Watcher(Over, 1), Watcher(Deleting(0), 1), Watcher(Releasing(0), 1));
    Updates(last, last.(gate := Broken), Watcher(Over, 1), Watcher(Over, 1), Watcher(Releasing(0), 1), Watcher(Over, 1));
    run := Extended(start, Two(Some(0), last, Watcher(Over, 1), Watcher(Deleting(0), 1), once), Unwatch(1));
    run := Extended(run, Two(None, last, Watcher(Over, 1), Watcher(Releasing(0), 1), once), Delete(1));
    run := Extended(run, Two(None, last.(gate := Broken), Watcher(Over, 1), Watcher(Over, 1), once), Release(1));
  }
}
