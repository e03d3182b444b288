/**
 A run of the connection pool through everything a checker does: an address whose server changes from
 replica to master, is connected again, and is closed with the pool.
 */
module PoolWitness {
  import opened Common
  import opened Pool

  lemma Extended(addrs: set<Addr>, run: seq<State>, s: State, step: Step) returns (more: seq<State>)
    requires IsRun(addrs, run) && NextStep(run[|run| - 1], s, step)
    ensures more == run + [s] && IsRun(addrs, more)
  {
    hide NextStep, Init;
    more := run + [s];
    forall i: nat | i + 1 < |more| ensures StepAt(more, i) {
      if i + 1 < |run| {
        assert StepAt(run, i);
      } else {
        assert NextStep(more[i], more[i + 1], step);
      }
    }
  }

  /** The pool with one address, no watchers and nobody closing it. */
  function Running(x: Checker, lock: Lock, any: map<Addr, Conn>, rw: map<Addr, Conn>, ro: map<Addr, Conn>,
                   owner: map<Conn, Addr>, discovered: multiset<(Conn, Role)>, deactivated: multiset<(Conn, Role)>): State
  {
    State(Connected, lock, Pools(any, rw, ro), map[0 := x], NotClosing, false, owner, discovered, deactivated)
  }

  function Filled(x: Checker, pools: Pools, owner: map<Conn, Addr>, discovered: multiset<(Conn, Role)>): State {
    State(Unknown, Free, pools, map[0 := x], NotClosing, false, owner, discovered, multiset{})
  }

  const EMPTY := Pools(map[], map[], map[])

  lemma AddedRun() returns (run: seq<State>)
    ensures IsRun({0}, run)
    ensures run[|run| - 1] == Filled(Checker(None, UnknownRole, FillAdded(7, Replica)), REPLICA, map[7 := 0], multiset{(7, Replica)})
  {
    var x, y, z := Checker(None, UnknownRole, Unfilled), Checker(None, UnknownRole, Filling(7, Replica)),
                   Checker(None, UnknownRole, FillAdded(7, Replica));
    var s0 := Filled(x, EMPTY, map[], multiset{});
    assert s0.checkers.Keys == {0};
    run := [s0];
    SameCheckers(x, y);
    SameCheckers(y, z);
    var once := multiset{(7, Replica)};
    run := Extended({0}, run, Filled(y, EMPTY, map[7 := 0], once), ByFill(FillDiscovered(0, 7, Replica)));
    run := Extended({0}, run, Filled(z, REPLICA, map[7 := 0], once), ByFill(FillAdd(0)));
  }

  /** Stored as a replica, with the checker idle. */
  lemma FilledRun() returns (run: seq<State>)
    ensures IsRun({0}, run)
    ensures run[|run| - 1] == Running(Checker(Some(7), Replica, Idle), Free, map[0 := 7], map[], map[0 := 7],
                                      map[7 := 0], multiset{(7, Replica)}, multiset{})
  {
    run := AddedRun();
    var s3 := Filled(Checker(Some(7), Replica, Pc.Filled), REPLICA, map[7 := 0], multiset{(7, Replica)});
    SameCheckers(Checker(None, UnknownRole, FillAdded(7, Replica)), Checker(Some(7), Replica, Pc.Filled));
    run := Extended({0}, run, s3, ByFill(FillKeep(0)));
    var s4 := s3.(pool := Connected, checkers := map a | a in s3.checkers :: s3.checkers[a].(pc := Idle));
    assert 0 in s3.checkers && s3.checkers[0].conn.Some?;
    assert forall a :: a in s3.checkers ==> a == 0;
    run := Extended({0}, run, s4, ByFill(StartCheckers));
    assert s4.checkers == map[0 := Checker(Some(7), Replica, Idle)];
  }

  lemma SameCheckers(x: Checker, y: Checker)
    ensures map[0 := x][0 := y] == map[0 := y]
  {
  }

  /** The checker takes the lock and finds the pool connected. */
  lemma CheckedRun(start: seq<State>, x: Checker, kind: Kind, p: Pools, own: map<Conn, Addr>,
                   discovered: multiset<(Conn, Role)>, deactivated: multiset<(Conn, Role)>) returns (run: seq<State>)
    requires IsRun({0}, start)
    requires start[|start| - 1] == Running(x, Free, p.any, p.rw, p.ro, own, discovered, deactivated)
    requires if x.pc == WantTry then kind == Try else x.pc == Idle && (x.conn == None <==> kind == Try)
    ensures IsRun({0}, run) && start <= run
    ensures run[|run| - 1] == Running(x.(pc := Checked(kind)), HeldBy(0), p.any, p.rw, p.ro, own, discovered, deactivated)
  {
    SameCheckers(x, x.(pc := Locked(kind)));
    SameCheckers(x.(pc := Locked(kind)), x.(pc := Checked(kind)));
    run := Extended({0}, start, Running(x.(pc := Locked(kind)), HeldBy(0), p.any, p.rw, p.ro, own, discovered, deactivated),
                    ByChecker(TakeLock(0, kind)));
    run := Extended({0}, run, Running(x.(pc := Checked(kind)), HeldBy(0), p.any, p.rw, p.ro, own, discovered, deactivated),
                    ByChecker(CheckState(0)));
  }

  /** A connection leaves the pools and is deactivated, to be discovered with its new role. */
  lemma SwitchRun(start: seq<State>, k: Conn, r: Role, to: Role, p: Pools, own: map<Conn, Addr>,
                  discovered: multiset<(Conn, Role)>, deactivated: multiset<(Conn, Role)>) returns (run: seq<State>)
    requires IsRun({0}, start) && r != to
    requires start[|start| - 1] == Running(Checker(Some(k), r, Checked(Update)), HeldBy(0), p.any, p.rw, p.ro, own, discovered, deactivated)
    ensures IsRun({0}, run)
    ensures var q := Delete(p, 0);
            run[|run| - 1] == Running(Checker(None, UnknownRole, Discovering(k, to)), Free, q.any, q.rw, q.ro, own, discovered,
                                      deactivated + multiset{(k, r)})
  {
    var q := Delete(p, 0);
    var x, y, z := Checker(Some(k), r, Checked(Update)), Checker(None, UnknownRole, Switching(k, r, to)),
                   Checker(None, UnknownRole, Discovering(k, to));
    SameCheckers(x, y);
    SameCheckers(y, z);
    hide Delete;
    run := Extended({0}, start, Running(y, Free, q.any, q.rw, q.ro, own, discovered, deactivated), ByChecker(SwitchRole(0, to)));
    run := Extended({0}, run, Running(z, Free, q.any, q.rw, q.ro, own, discovered, deactivated + multiset{(k, r)}),
                    ByChecker(Deactivate(0)));
  }

  /** A broken connection leaves the pools and is deactivated, and the checker is about to try again. */
  lemma DroppedRun(start: seq<State>, k: Conn, r: Role, p: Pools, own: map<Conn, Addr>,
                   discovered: multiset<(Conn, Role)>, deactivated: multiset<(Conn, Role)>) returns (run: seq<State>)
    requires IsRun({0}, start)
    requires start[|start| - 1] == Running(Checker(Some(k), r, Checked(Reopen)), HeldBy(0), p.any, p.rw, p.ro, own, discovered, deactivated)
    ensures IsRun({0}, run)
    ensures var q := Delete(p, 0);
            run[|run| - 1] == Running(Checker(None, UnknownRole, WantTry), Free, q.any, q.rw, q.ro, own, discovered,
                                      deactivated + multiset{(k, r)})
  {
    var q := Delete(p, 0);
    var x, y, z := Checker(Some(k), r, Checked(Reopen)), Checker(None, UnknownRole, Leaving(k, r, Reopen)),
                   Checker(None, UnknownRole, WantTry);
    SameCheckers(x, y);
    SameCheckers(y, z);
    hide Delete;
    run := Extended({0}, start, Running(y, Free, q.any, q.rw, q.ro, own, discovered, deactivated), ByChecker(Drop(0)));
    run := Extended({0}, run, Running(z, Free, q.any, q.rw, q.ro, own, discovered, deactivated + multiset{(k, r)}),
                    ByChecker(Deactivate(0)));
  }

  lemma OpenedRun(start: seq<State>, k: Conn, r: Role, p: Pools, own: map<Conn, Addr>,
                  discovered: multiset<(Conn, Role)>, deactivated: multiset<(Conn, Role)>) returns (run: seq<State>)
    requires IsRun({0}, start) && k !in own
    requires start[|start| - 1] == Running(Checker(None, UnknownRole, Checked(Try)), HeldBy(0), p.any, p.rw, p.ro, own, discovered, deactivated)
    ensures IsRun({0}, run)
    ensures run[|run| - 1] == Running(Checker(None, UnknownRole, Discovering(k, r)), Free, p.any, p.rw, p.ro, own[k := 0], discovered, deactivated)
  {
    SameCheckers(Checker(None, UnknownRole, Checked(Try)), Checker(None, UnknownRole, Discovering(k, r)));
    run := Extended({0}, start, Running(Checker(None, UnknownRole, Discovering(k, r)), Free, p.any, p.rw, p.ro, own[k := 0],
                                        discovered, deactivated), ByChecker(Opened(0, k, r)));
  }

  /** From Discovered to addConnection. */
  lemma StoredRun(start: seq<State>, k: Conn, r: Role, p: Pools, own: map<Conn, Addr>,
                  discovered: multiset<(Conn, Role)>, deactivated: multiset<(Conn, Role)>) returns (run: seq<State>)
    requires IsRun({0}, start)
    requires start[|start| - 1] == Running(Checker(None, UnknownRole, Discovering(k, r)), Free, p.any, p.rw, p.ro, own, discovered, deactivated)
    ensures IsRun({0}, run)
    ensures var q := Add(p, 0, k, r);
            run[|run| - 1] == Running(Checker(Some(k), r, Idle), Free, q.any, q.rw, q.ro, own, discovered + multiset{(k, r)}, deactivated)
  {
    run := RelockedRun(start, k, r, p, own, discovered, deactivated);
    var after, q := discovered + multiset{(k, r)}, Add(p, 0, k, r);
    hide Add;
    var y, z, last := Checker(None, UnknownRole, Relocked(k, r)), Checker(None, UnknownRole, Rechecked(k, r)), Checker(Some(k), r, Idle);
    SameCheckers(y, z);
    SameCheckers(z, last);
    run := Extended({0}, run, Running(z, HeldBy(0), p.any, p.rw, p.ro, own, after, deactivated), ByChecker(RecheckState(0)));
    run := Extended({0}, run, Running(last, Free, q.any, q.rw, q.ro, own, after, deactivated), ByChecker(AddOk(0)));
  }

  lemma RelockedRun(start: seq<State>, k: Conn, r: Role, p: Pools, own: map<Conn, Addr>,
                    discovered: multiset<(Conn, Role)>, deactivated: multiset<(Conn, Role)>) returns (run: seq<State>)
    requires IsRun({0}, start)
    requires start[|start| - 1] == Running(Checker(None, UnknownRole, Discovering(k, r)), Free, p.any, p.rw, p.ro, own, discovered, deactivated)
    ensures IsRun({0}, run)
    ensures run[|run| - 1] == Running(Checker(None, UnknownRole, Relocked(k, r)), HeldBy(0), p.any, p.rw, p.ro, own,
                                      discovered + multiset{(k, r)}, deactivated)
  {
    var after := discovered + multiset{(k, r)};
    var x, y, z := Checker(None, UnknownRole, Discovering(k, r)), Checker(None, UnknownRole, Ready(k, r)),
                   Checker(None, UnknownRole, Relocked(k, r));
    SameCheckers(x, y);
    SameCheckers(y, z);
    run := Extended({0}, start, Running(y, Free, p.any, p.rw, p.ro, own, after, deactivated), ByChecker(Discover(0, true)));
    run := Extended({0}, run, Running(z, HeldBy(0), p.any, p.rw, p.ro, own, after, deactivated), ByChecker(Relock(0)));
  }

  const REPLICA := Pools(map[0 := 7], map[], map[0 := 7])
  const MASTER := Pools(map[0 := 7], map[0 := 7], map[])
  const SUCCESSOR := Pools(map[0 := 8], map[0 := 8], map[])

  lemma PoolsAre()
    ensures Delete(REPLICA, 0) == EMPTY && Delete(MASTER, 0) == EMPTY && Delete(SUCCESSOR, 0) == EMPTY
    ensures Add(EMPTY, 0, 7, Master) == MASTER && Add(EMPTY, 0, 8, Master) == SUCCESSOR
  {
    assert map[0 := 7] - {0} == map[] && map[0 := 8] - {0} == map[];
  }

  /** The replica becomes a master. */
  lemma SwitchedRun(start: seq<State>) returns (run: seq<State>)
    requires IsRun({0}, start)
    requires start[|start| - 1] == Running(Checker(Some(7), Replica, Idle), Free, map[0 := 7], map[], map[0 := 7],
                                           map[7 := 0], multiset{(7, Replica)}, multiset{})
    ensures IsRun({0}, run)
    ensures run[|run| - 1] == Running(Checker(Some(7), Master, Idle), Free, map[0 := 7], map[0 := 7], map[],
                                      map[7 := 0], multiset{(7, Replica), (7, Master)}, multiset{(7, Replica)})
  {
    hide IsRun, Running, Delete, Add;
    PoolsAre();
    var own, once := map[7 := 0], multiset{(7, Replica)};
    run := CheckedRun(start, Checker(Some(7), Replica, Idle), Update, REPLICA, own, once, multiset{});
    run := SwitchRun(run, 7, Replica, Master, REPLICA, own, once, multiset{});
    assert multiset{} + once == once;
    run := StoredRun(run, 7, Master, EMPTY, own, once, once);
    assert once + multiset{(7, Master)} == multiset{(7, Replica), (7, Master)};
  }

  /** The connection breaks and a new one is opened. */
  lemma ReopenedRun(start: seq<State>) returns (run: seq<State>)
    requires IsRun({0}, start)
    requires start[|start| - 1] == Running(Checker(Some(7), Master, Idle), Free, map[0 := 7], map[0 := 7], map[],
                                           map[7 := 0], multiset{(7, Replica), (7, Master)}, multiset{(7, Replica)})
    ensures IsRun({0}, run)
    ensures run[|run| - 1] == Running(Checker(Some(8), Master, Idle), Free, map[0 := 8], map[0 := 8], map[],
                                      map[7 := 0, 8 := 0], multiset{(7, Replica), (7, Master)} + multiset{(8, Master)},
                                      multiset{(7, Replica), (7, Master)})
  {
    hide IsRun, Running, Delete, Add;
    PoolsAre();
    var own, once, both := map[7 := 0], multiset{(7, Replica)}, multiset{(7, Replica), (7, Master)};
    run := CheckedRun(start, Checker(Some(7), Master, Idle), Reopen, MASTER, own, both, once);
    run := DroppedRun(run, 7, Master, MASTER, own, both, once);
    assert once + multiset{(7, Master)} == both;
    run := CheckedRun(run, Checker(None, UnknownRole, WantTry), Try, EMPTY, own, both, both);
    run := OpenedRun(run, 8, Master, EMPTY, own, both, both);
    assert own[8 := 0] == map[7 := 0, 8 := 0];
    run := StoredRun(run, 8, Master, EMPTY, own[8 := 0], both, both);
  }

  /** Close, on a pool with one address that is stored. */
  lemma SweptRun(start: seq<State>, both: multiset<(Conn, Role)>, own: map<Conn, Addr>) returns (run: seq<State>)
    requires IsRun({0}, start)
    requires start[|start| - 1] == Running(Checker(Some(8), Master, Idle), Free, map[0 := 8], map[0 := 8], map[], own,
                                           both + multiset{(8, Master)}, both)
    ensures IsRun({0}, run) && start <= run
    ensures run[|run| - 1] == Running(Checker(Some(8), Master, Idle), Free, map[], map[], map[], own,
                                      both + multiset{(8, Master)}, both + multiset{(8, Master)})
                              .(pool := Closed, lock := HeldByClose, closer := Closing({}))
  {
    var s := start[|start| - 1];
    var s1 := s.(pool := Closed, closer := WantLock);
    run := Extended({0}, start, s1, ByClose(CloseCas));
    var s2 := s1.(lock := HeldByClose, closer := Closing({0}));
    assert s1.checkers.Keys == {0};
    run := Extended({0}, run, s2, ByClose(CloseLock));
    PoolsAre();
    assert {0} - {0} == {};
    hide Delete;
    var s3 := s2.(pools := EMPTY, closer := Closing({}), deactivated := both + multiset{(8, Master)});
    run := Extended({0}, run, s3, ByClose(CloseOne(0)));
  }

  /** And the end of the checker. */
  lemma ClosedRun(start: seq<State>, both: multiset<(Conn, Role)>, own: map<Conn, Addr>) returns (run: seq<State>)
    requires IsRun({0}, start)
    requires start[|start| - 1] == Running(Checker(Some(8), Master, Idle), Free, map[0 := 8], map[0 := 8], map[], own,
                                           both + multiset{(8, Master)}, both)
    ensures IsRun({0}, run) && start <= run
    ensures var s := run[|run| - 1];
            && s.closer == Done && s.pools == EMPTY && At(s, 0, Stopped)
            && s.discovered == both + multiset{(8, Master)} && s.deactivated == s.discovered
  {
    run := SweptRun(start, both, own);
    var s := run[|run| - 1].(closer := Done, lock := Free);
    run := Extended({0}, run, s, ByClose(CloseDone));
    run := Extended({0}, run, Go(s, 0, Stopped), ByChecker(Stop(0)));
  }

  /** The handler has seen the connection as a replica and as a master, then its successor, and the end of
      each of them; in between it was stored under the new role. */
  lemma WholeRun() returns (run: seq<State>, i: nat)
    ensures IsRun({0}, run) && i < |run| && RoleIn(run[i].pools, 0) == Master && 0 in run[i].pools.any
    ensures var s := run[|run| - 1];
            && s.closer == Done && s.pools == EMPTY && At(s, 0, Stopped)
            && s.discovered == multiset{(7, Replica), (7, Master), (8, Master)} && s.deactivated == s.discovered
  {
    hide NextStep, Init;
    run := FilledRun();
    run := SwitchedRun(run);
    run := ReopenedRun(run);
    i := |run| - 1;
    var both := multiset{(7, Replica), (7, Master)};
    assert both + multiset{(8, Master)} == multiset{(7, Replica), (7, Master), (8, Master)};
    run := ClosedRun(run, both, map[7 := 0, 8 := 0]);
  }

  /** A pool watcher that cannot be set up: the connection with the new role is not stored, and the handler
      is told that it is gone. */
  lemma FailedWatcherRun() returns (run: seq<State>)
    ensures IsRun({0}, run)
    ensures var s := run[|run| - 1];
            && s.pools == EMPTY && At(s, 0, Idle) && s.closer == NotClosing
            && s.discovered == multiset{(7, Replica), (7, Master)} && s.deactivated == s.discovered
  {
    hide Delete, Add;
    PoolsAre();
    var own, once, both := map[7 := 0], multiset{(7, Replica)}, multiset{(7, Replica), (7, Master)};
    run := FilledRun();
    run := CheckedRun(run, Checker(Some(7), Replica, Idle), Update, REPLICA, own, once, multiset{});
    run := SwitchRun(run, 7, Replica, Master, REPLICA, own, once, multiset{});
    assert multiset{} + once == once && once + multiset{(7, Master)} == both;
    run := RelockedRun(run, 7, Master, EMPTY, own, once, once);
    run := UndoneRun(run, 7, Master, own, both, once);
  }

  lemma UndoneRun(start: seq<State>, k: Conn, r: Role, own: map<Conn, Addr>, discovered: multiset<(Conn, Role)>,
                  deactivated: multiset<(Conn, Role)>) returns (run: seq<State>)
    requires IsRun({0}, start)
    requires start[|start| - 1] == Running(Checker(None, UnknownRole, Relocked(k, r)), HeldBy(0), map[], map[], map[], own, discovered, deactivated)
    ensures IsRun({0}, run)
    ensures var s := run[|run| - 1];
            && s.pools == EMPTY && At(s, 0, Idle) && s.closer == NotClosing
            && s.discovered == discovered && s.deactivated == deactivated + multiset{(k, r)}
  {
    var x, y := Checker(None, UnknownRole, Relocked(k, r)), Checker(None, UnknownRole, Rechecked(k, r));
    SameCheckers(x, y);
    var s := Running(x, HeldBy(0), map[], map[], map[], own, discovered, deactivated).(watchers := true);
    run := Extended({0}, start, s, ByFill(NewWatcher));
    run := Extended({0}, run, Running(y, HeldBy(0), map[], map[], map[], own, discovered, deactivated).(watchers := true),
                    ByChecker(RecheckState(0)));
    run := RefusedRun(run, k, r, own, discovered, deactivated);
  }

  lemma RefusedRun(start: seq<State>, k: Conn, r: Role, own: map<Conn, Addr>, discovered: multiset<(Conn, Role)>,
                   deactivated: multiset<(Conn, Role)>) returns (run: seq<State>)
    requires IsRun({0}, start)
    requires start[|start| - 1] == Running(Checker(None, UnknownRole, Rechecked(k, r)), HeldBy(0), map[], map[], map[], own,
                                           discovered, deactivated).(watchers := true)
    ensures IsRun({0}, run)
    ensures var s := run[|run| - 1];
            && s.pools == EMPTY && At(s, 0, Idle) && s.closer == NotClosing
            && s.discovered == discovered && s.deactivated == deactivated + multiset{(k, r)}
  {
    var x, y, z := Checker(None, UnknownRole, Rechecked(k, r)), Checker(None, UnknownRole, Undoing(k, r)),
                   Checker(None, UnknownRole, Idle);
    SameCheckers(x, y);
    SameCheckers(y, z);
    run := Extended({0}, start, Running(y, Free, map[], map[], map[], own, discovered, deactivated).(watchers := true),
                    ByChecker(AddFails(0)));
    run := Extended({0}, run, Running(z, Free, map[], map[], map[], own, discovered, deactivated + multiset{(k, r)}).(watchers := true),
                    ByChecker(Deactivate(0)));
  }

  /** A check that finds the role unchanged changes nothing. */
  lemma UnchangedRun() returns (run: seq<State>, i: nat)
    ensures IsRun({0}, run) && i + 1 < |run| && run[|run| - 1] == run[i] && At(run[i], 0, Idle)
    ensures At(run[|run| - 2], 0, Checked(Update))
  {
    run := FilledRun();
    i := |run| - 1;
    var x, once := Checker(Some(7), Replica, Idle), multiset{(7, Replica)};
    var before := run;
    var more := CheckedRun(run, x, Update, REPLICA, map[7 := 0], once, multiset{});
    SameCheckers(x.(pc := Checked(Update)), x);
    run := Extended({0}, more, before[i], ByChecker(LeaveAsIs(0)));
  }
}
