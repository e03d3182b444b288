/**
 What the connection pool keeps over every run: the partition of its three indexes, the
 agreement between each checker and the indexes, and the pairing of handler calls.
 */
module PoolProofs {
  import opened Common
  import opened Pool

  predicate InFill(pc: Pc) {
    pc.Unfilled? || pc.Filling? || pc.FillAdded? || pc.Filled?
  }

  predicate HoldsLock(pc: Pc) {
    pc.Locked? || pc.Checked? || pc.Relocked? || pc.Rechecked?
  }

  /** Positions at which connState describes what the pools hold for the address. */
  predicate Settled(pc: Pc) {
    pc == Filled || pc == Idle || pc == Stopped || pc.Locked? || pc.Checked?
  }

  /** What the shared state holds for one address. */
  datatype Local = Local(
    checker: Option<Checker>,
    any: Option<Conn>,
    rw: Option<Conn>,
    ro: Option<Conn>,
    locked: bool,        // the address holds poolsMutex
    filling: bool,       // the pool is still in unknownState
    closing: bool,       // closeImpl has started
    swept: bool)         // closeImpl has dealt with the address

  function View(s: State, a: Addr): Local {
    Local(if a in s.checkers then Some(s.checkers[a]) else None,
          Get(s.pools.any, a), Get(s.pools.rw, a), Get(s.pools.ro, a),
          s.lock == HeldBy(a), s.pool == Unknown,
          s.closer.Closing? || s.closer == Done,
          s.closer == Done || (s.closer.Closing? && a !in s.closer.left))
  }

  function StoredRole(l: Local): Role {
    if l.rw.Some? then Master else if l.ro.Some? then Replica else UnknownRole
  }

  /** The pair a checker has taken out of the pools, or not yet put there. */
  function InHand(pc: Pc): Option<(Conn, Role)> {
    match pc
    case Filling(k, r) => Some((k, r))
    case Leaving(k, r, _) => Some((k, r))
    case Switching(k, r, _) => Some((k, r))
    case Ready(k, r) => Some((k, r))
    case Relocked(k, r) => Some((k, r))
    case Rechecked(k, r) => Some((k, r))
    case Undoing(k, r) => Some((k, r))
    case _ => None
  }

  /** The pair (connection, role) for which a Deactivated is still due on this address. */
  function Due(l: Local): Option<(Conn, Role)> {
    if l.any.Some? then Some((l.any.value, StoredRole(l)))
    else if l.checker == None then None
    else InHand(l.checker.value.pc)
  }

  /** A checker at position x agrees with the pools. */
  predicate Agrees(l: Local, x: Checker) {
    && (HoldsLock(x.pc) <==> l.locked)
    && (InFill(x.pc) <==> l.filling)
    && (l.any.Some? ==>
          if x.pc.FillAdded? then l.any == Some(x.pc.k) && StoredRole(l) == x.pc.r
          else Settled(x.pc) && x.conn == l.any && x.role == StoredRole(l))
    && (x.conn.Some? ==> Settled(x.pc) && (!l.swept ==> l.any.Some?))
    && (x.conn == None ==> x.role == UnknownRole)
    && (x.pc.FillAdded? ==> l.any.Some?)
    && (x.pc.Locked? || x.pc.Checked? ==> (x.conn == None <==> x.pc.kind == Try))
    && (x.pc.Checked? || x.pc.Rechecked? ==> !l.closing)
    && (l.swept ==> l.any == None && l.closing)
  }

  predicate LocalOk(l: Local) {
    && PartOf(l.any, l.rw, l.ro)
    && if l.checker.Some? then Agrees(l, l.checker.value) else l.any == None && !l.locked
  }

  ghost predicate LockOk(s: State) {
    && (s.lock == HeldByClose <==> s.closer.Closing?)
    && (s.pool == Closed <==> s.closer != NotClosing)
    && (s.pool == Unknown ==> !s.watchers)
    && (s.closer.Closing? ==> s.closer.left <= s.checkers.Keys)
  }

  predicate Owns(owner: map<Conn, Addr>, a: Addr, k: Conn) {
    k in owner && owner[k] == a
  }

  /** The connections a checker works on are its own. */
  predicate OwnConns(owner: map<Conn, Addr>, a: Addr, x: Checker) {
    && (x.conn.Some? ==> Owns(owner, a, x.conn.value))
    && (x.pc.Discovering? ==> Owns(owner, a, x.pc.k))
    && (x.pc.FillAdded? ==> Owns(owner, a, x.pc.k))
    && (InHand(x.pc).Some? ==> Owns(owner, a, InHand(x.pc).value.0))
  }

  ghost predicate OwnerOk(s: State, a: Addr) {
    a in s.checkers ==> OwnConns(s.owner, a, s.checkers[a])
  }

  /** So the connection of a due pair belongs to the address. */
  lemma DueIsOwned(s: State, a: Addr)
    requires LocalOk(View(s, a)) && OwnerOk(s, a) && Due(View(s, a)).Some?
    ensures Owns(s.owner, a, Due(View(s, a)).value.0)
  {
  }

  /** Successful Discovered calls against Deactivated calls. */
  ghost predicate PairOk(s: State, k: Conn, r: Role) {
    s.discovered[(k, r)] == s.deactivated[(k, r)] +
      if k in s.owner && Due(View(s, s.owner[k])) == Some((k, r)) then 1 else 0
  }

  ghost predicate Inv(s: State) {
    && LockOk(s)
    && (forall a :: LocalOk(View(s, a)) && OwnerOk(s, a))
    && (forall k, r :: PairOk(s, k, r))
  }

  // ----- the checkers -----

  /** What a checker leaves alone: every other address, and everything the lock does not cover. */
  ghost predicate Touches(s: State, s': State, a: Addr) {
    && a in s.checkers && a in s'.checkers && s'.checkers == s.checkers[a := s'.checkers[a]]
    && s'.pool == s.pool && s'.closer == s.closer && s'.watchers == s.watchers
    && (s'.lock == s.lock || (s.lock == HeldBy(a) && s'.lock == Free) || (s.lock == Free && s'.lock == HeldBy(a)))
    && (forall b | b != a ::
          Get(s'.pools.any, b) == Get(s.pools.any, b) && Get(s'.pools.rw, b) == Get(s.pools.rw, b) &&
          Get(s'.pools.ro, b) == Get(s.pools.ro, b))
  }

  predicate ChangesPools(step: CheckerStep) {
    step.Drop? || step.SwitchRole? || step.AddOk?
  }

  predicate ChangesLock(step: CheckerStep) {
    step.TakeLock? || step.CheckState? || step.Relock? || step.RecheckState?
  }

  predicate Holds(s: State, a: Addr) {
    a in s.checkers && (HoldsLock(s.checkers[a].pc) ==> s.lock == HeldBy(a))
  }

  lemma PoolsTouch(s: State, s': State, step: CheckerStep)
    requires Holds(s, step.a) && CheckerNext(s, s', step) && ChangesPools(step)
    ensures Touches(s, s', step.a)
  {
  }

  lemma LockTouches(s: State, s': State, step: CheckerStep)
    requires Holds(s, step.a) && CheckerNext(s, s', step) && ChangesLock(step)
    ensures Touches(s, s', step.a)
  {
  }

  lemma OthersTouch(s: State, s': State, step: CheckerStep)
    requires Holds(s, step.a) && CheckerNext(s, s', step) && !ChangesPools(step) && !ChangesLock(step)
    ensures Touches(s, s', step.a)
  {
  }

  lemma CheckerTouches(s: State, s': State, step: CheckerStep)
    requires LocalOk(View(s, step.a)) && CheckerNext(s, s', step)
    ensures Touches(s, s', step.a)
  {
    CheckerIsThere(s, s', step);
    hide CheckerNext, Touches;
    if ChangesPools(step) {
      PoolsTouch(s, s', step);
    } else if ChangesLock(step) {
      LockTouches(s, s', step);
    } else {
      OthersTouch(s, s', step);
    }
  }

  lemma CheckerIsThere(s: State, s': State, step: CheckerStep)
    requires CheckerNext(s, s', step)
    ensures step.a in s.checkers
  {
  }

  lemma CheckerSparesOthers(s: State, s': State, step: CheckerStep, b: Addr)
    requires LocalOk(View(s, step.a)) && CheckerNext(s, s', step) && b != step.a
    ensures View(s', b) == View(s, b)
  {
    CheckerTouches(s, s', step);
    hide CheckerNext, LocalOk;
  }

  lemma CheckerKeepsLock(s: State, s': State, step: CheckerStep)
    requires LockOk(s) && LocalOk(View(s, step.a)) && CheckerNext(s, s', step)
    ensures LockOk(s')
  {
    CheckerTouches(s, s', step);
    hide CheckerNext, LocalOk;
  }

  /** The same checker step as one address sees it; open means that the pool is connected. */
  ghost predicate Moves(l: Local, l': Local, step: CheckerStep, open: bool) {
    l.checker.Some? &&
    var x := l.checker.value;
    match step
    case TakeLock(_, kind) =>
      (if x.pc == WantTry then kind == Try else x.pc == Idle && (x.conn == None <==> kind == Try)) &&
      l' == Goes(l, Locked(kind)).(locked := true)
    case CheckState(_) =>
      x.pc.Locked? && l' == if open then Goes(l, Checked(x.pc.kind)) else Goes(l, Idle).(locked := false)
    case LeaveAsIs(_) => (x.pc == Checked(Update) || x.pc == Checked(Try)) && l' == Goes(l, Idle).(locked := false)
    case Drop(_) =>
      (x.pc == Checked(Notified) || x.pc == Checked(Reopen)) && x.conn.Some? &&
      l' == Emptied(l, Leaving(x.conn.value, x.role, x.pc.kind))
    case SwitchRole(_, r) =>
      x.pc == Checked(Update) && x.conn.Some? && x.role != r &&
      l' == Emptied(l, Switching(x.conn.value, x.role, r))
    case Opened(_, k, r) => x.pc == Checked(Try) && l' == Goes(l, Discovering(k, r)).(locked := false)
    case OpenedWithoutRole(_, k) => x.pc == Checked(Try) && l' == Goes(l, Idle).(locked := false)
    case Deactivate(_) =>
      (x.pc.Leaving? || x.pc.Switching? || x.pc.Undoing?) &&
      l' == Goes(l, if x.pc.Switching? then Discovering(x.pc.k, x.pc.to)
                    else if x.pc.Leaving? && x.pc.kind == Reopen then WantTry else Idle)
    case Discover(_, accepted) =>
      x.pc.Discovering? && l' == Goes(l, if accepted then Ready(x.pc.k, x.pc.r) else Idle)
    case Relock(_) => x.pc.Ready? && l' == Goes(l, Relocked(x.pc.k, x.pc.r)).(locked := true)
    case RecheckState(_) =>
      x.pc.Relocked? &&
      l' == if open then Goes(l, Rechecked(x.pc.k, x.pc.r)) else Goes(l, Undoing(x.pc.k, x.pc.r)).(locked := false)
    case AddOk(_) => x.pc.Rechecked? && l' == Stored(l, x.pc.k, x.pc.r)
    case AddFails(_) => x.pc.Rechecked? && l' == Goes(l, Undoing(x.pc.k, x.pc.r)).(locked := false)
    case Stop(_) => x.pc == Idle && l' == Goes(l, Stopped)
  }

  function Goes(l: Local, pc: Pc): Local
    requires l.checker.Some?
  {
    l.(checker := Some(l.checker.value.(pc := pc)))
  }

  function Emptied(l: Local, pc: Pc): Local {
    var e := if l.any == None then l else if l.rw.Some? then l.(any := None, rw := None) else l.(any := None, ro := None);
    e.(checker := Some(Checker(None, UnknownRole, pc)), locked := false)
  }

  function Stored(l: Local, k: Conn, r: Role): Local {
    l.(checker := Some(Checker(Some(k), r, Idle)), any := Some(k), locked := false,
       rw := if r == Master then Some(k) else l.rw, ro := if r == Replica then Some(k) else l.ro)
  }

  lemma LeaveMoves(s: State, s': State, step: CheckerStep)
    requires CheckerNext(s, s', step) && (step.Drop? || step.SwitchRole?)
    ensures Moves(View(s, step.a), View(s', step.a), step, s.pool == Connected)
  {
  }

  lemma AddMoves(s: State, s': State, a: Addr)
    requires CheckerNext(s, s', AddOk(a))
    ensures Moves(View(s, a), View(s', a), AddOk(a), s.pool == Connected)
  {
  }

  lemma LockMoves(s: State, s': State, step: CheckerStep)
    requires CheckerNext(s, s', step) && ChangesLock(step)
    ensures Moves(View(s, step.a), View(s', step.a), step, s.pool == Connected)
  {
  }

  lemma CheckerMoves(s: State, s': State, step: CheckerStep)
    requires CheckerNext(s, s', step)
    ensures Moves(View(s, step.a), View(s', step.a), step, s.pool == Connected)
  {
    if step.AddOk? {
      AddMoves(s, s', step.a);
    } else if ChangesPools(step) {
      LeaveMoves(s, s', step);
    } else if ChangesLock(step) {
      LockMoves(s, s', step);
    }
  }

  lemma MovesKeepOk(l: Local, l': Local, step: CheckerStep, open: bool)
    requires LocalOk(l) && Moves(l, l', step, open) && (open ==> !l.closing && !l.filling)
    ensures LocalOk(l')
  {
  }

  lemma CheckerKeepsOwn(s: State, s': State, step: CheckerStep)
    requires LockOk(s) && LocalOk(View(s, step.a)) && CheckerNext(s, s', step)
    ensures LocalOk(View(s', step.a))
  {
    CheckerMoves(s, s', step);
    hide CheckerNext, LocalOk, Moves;
    MovesKeepOk(View(s, step.a), View(s', step.a), step, s.pool == Connected);
  }

  // ----- handler calls of the checkers -----

  predicate Calls(step: CheckerStep) {
    step.Deactivate? || step.Discover?
  }

  lemma MovesKeepDue(l: Local, l': Local, step: CheckerStep, open: bool)
    requires LocalOk(l) && Moves(l, l', step, open) && !Calls(step)
    ensures Due(l') == Due(l)
  {
  }

  /** Deactivated is called for exactly what is due, and after it nothing is. */
  lemma DeactivatePaysDue(s: State, s': State, a: Addr)
    requires LocalOk(View(s, a)) && CheckerNext(s, s', Deactivate(a))
    ensures Due(View(s, a)).Some? && Due(View(s', a)) == None
    ensures s'.deactivated == s.deactivated + multiset{Due(View(s, a)).value} && s'.discovered == s.discovered
  {
  }

  /** A successful Discovered makes its pair due; a refused one makes nothing due. */
  lemma DiscoverMakesDue(s: State, s': State, a: Addr, accepted: bool)
    requires LocalOk(View(s, a)) && CheckerNext(s, s', Discover(a, accepted))
    ensures Due(View(s, a)) == None && s'.deactivated == s.deactivated
    ensures var pair := (s.checkers[a].pc.k, s.checkers[a].pc.r);
            if accepted then Due(View(s', a)) == Some(pair) && s'.discovered == s.discovered + multiset{pair}
            else Due(View(s', a)) == None && s'.discovered == s.discovered
  {
  }

  /** Only a connection that nobody has had gets a new owner. */
  lemma OwnerGrows(s: State, s': State, step: CheckerStep)
    requires CheckerNext(s, s', step)
    ensures s'.owner == s.owner ||
            ((step.Opened? || step.OpenedWithoutRole?) && step.k !in s.owner && s'.owner == s.owner[step.k := step.a])
    ensures step.Opened? ==> s'.owner == s.owner[step.k := step.a]
  {
  }

  lemma MovesKeepConns(l: Local, l': Local, step: CheckerStep, open: bool, owner: map<Conn, Addr>)
    requires Moves(l, l', step, open) && OwnConns(owner, step.a, l.checker.value)
    requires step.Opened? ==> Owns(owner, step.a, step.k)
    ensures l'.checker.Some? && OwnConns(owner, step.a, l'.checker.value)
  {
  }

  lemma OwnConnsGrow(owner: map<Conn, Addr>, k: Conn, a: Addr, b: Addr, x: Checker)
    requires OwnConns(owner, b, x) && k !in owner
    ensures OwnConns(owner[k := a], b, x)
  {
  }

  lemma CheckerKeepsOwners(s: State, s': State, step: CheckerStep, b: Addr)
    requires LocalOk(View(s, step.a)) && OwnerOk(s, step.a) && OwnerOk(s, b) && CheckerNext(s, s', step)
    ensures OwnerOk(s', b)
  {
    OwnerGrows(s, s', step);
    CheckerTouches(s, s', step);
    CheckerMoves(s, s', step);
    hide CheckerNext, LocalOk, OwnConns, Moves;
    if b in s.checkers {
      if s'.owner != s.owner {
        OwnConnsGrow(s.owner, step.k, step.a, b, s.checkers[b]);
      }
      if b == step.a {
        MovesKeepConns(View(s, b), View(s', b), step, s.pool == Connected, s'.owner);
      }
    }
  }

  /** Due changes with the handler calls and with nothing else. */
  lemma DueFollowsCalls(s: State, s': State, step: CheckerStep)
    requires LocalOk(View(s, step.a)) && CheckerNext(s, s', step) && !Calls(step)
    ensures Due(View(s', step.a)) == Due(View(s, step.a))
    ensures s'.discovered == s.discovered && s'.deactivated == s.deactivated
  {
    CheckerMoves(s, s', step);
    hide View, LocalOk, Moves, Due;
    MovesKeepDue(View(s, step.a), View(s', step.a), step, s.pool == Connected);
  }

  lemma OthersPairs(s: State, s': State, step: CheckerStep, k: Conn, r: Role)
    requires Inv(s) && CheckerNext(s, s', step) && k in s.owner && s.owner[k] != step.a
    ensures s'.owner[k] == s.owner[k] && Due(View(s', s.owner[k])) == Due(View(s, s.owner[k]))
  {
    OwnerGrows(s, s', step);
    assert LocalOk(View(s, step.a));
    hide CheckerNext, View, LocalOk;
    CheckerSparesOthers(s, s', step, s.owner[k]);
  }

  lemma DeactivateKeepsPairs(s: State, s': State, a: Addr, k: Conn, r: Role)
    requires Inv(s) && CheckerNext(s, s', Deactivate(a))
    ensures PairOk(s', k, r)
  {
    hide Due, View, LocalOk, OwnerOk, CheckerNext;
    assert PairOk(s, k, r) && LocalOk(View(s, a)) && OwnerOk(s, a);
    OwnerGrows(s, s', Deactivate(a));
    if k in s.owner && s.owner[k] != a {
      OthersPairs(s, s', Deactivate(a), k, r);
    }
    DeactivatePaysDue(s, s', a);
    DueIsOwned(s, a);
  }

  lemma DiscoverKeepsPairs(s: State, s': State, a: Addr, accepted: bool, k: Conn, r: Role)
    requires Inv(s) && CheckerNext(s, s', Discover(a, accepted))
    ensures PairOk(s', k, r)
  {
    hide Due, View, LocalOk, OwnerOk, CheckerNext;
    assert PairOk(s, k, r) && LocalOk(View(s, a)) && OwnerOk(s, a);
    OwnerGrows(s, s', Discover(a, accepted));
    if k in s.owner && s.owner[k] != a {
      OthersPairs(s, s', Discover(a, accepted), k, r);
    }
    DiscoverMakesDue(s, s', a, accepted);
    DiscoversOwn(s, s', a, accepted);
  }

  lemma DiscoversOwn(s: State, s': State, a: Addr, accepted: bool)
    requires OwnerOk(s, a) && CheckerNext(s, s', Discover(a, accepted))
    ensures Owns(s.owner, a, s.checkers[a].pc.k)
  {
  }

  lemma OthersKeepPairs(s: State, s': State, step: CheckerStep, k: Conn, r: Role)
    requires Inv(s) && CheckerNext(s, s', step) && !Calls(step)
    ensures PairOk(s', k, r)
  {
    hide CheckerNext, Due, View, LocalOk, OwnerOk;
    assert PairOk(s, k, r) && LocalOk(View(s, step.a)) && OwnerOk(s, step.a);
    if Due(View(s, step.a)).Some? {
      DueIsOwned(s, step.a);
    }
    DueFollowsCalls(s, s', step);
    OwnerGrows(s, s', step);
    if k in s.owner && s.owner[k] != step.a {
      OthersPairs(s, s', step, k, r);
    }
  }

  lemma CheckerKeepsPairs(s: State, s': State, step: CheckerStep, k: Conn, r: Role)
    requires Inv(s) && CheckerNext(s, s', step)
    ensures PairOk(s', k, r)
  {
    hide CheckerNext, PairOk, Inv;
    match step
    case Deactivate(a) => DeactivateKeepsPairs(s, s', a, k, r);
    case Discover(a, accepted) => DiscoverKeepsPairs(s, s', a, accepted, k, r);
    case _ => OthersKeepPairs(s, s', step, k, r);
  }

  lemma CheckerKeeps(s: State, s': State, step: CheckerStep)
    requires Inv(s) && CheckerNext(s, s', step)
    ensures Inv(s')
  {
    assert LocalOk(View(s, step.a)) && OwnerOk(s, step.a);
    CheckerKeepsLock(s, s', step);
    forall b ensures LocalOk(View(s', b)) && OwnerOk(s', b) {
      assert LocalOk(View(s, b)) && OwnerOk(s, b);
      CheckerKeepsOwners(s, s', step, b);
      if b == step.a {
        CheckerKeepsOwn(s, s', step);
      } else {
        CheckerSparesOthers(s, s', step, b);
      }
    }
    forall k, r ensures PairOk(s', k, r) { CheckerKeepsPairs(s, s', step, k, r); }
  }

  // ----- Close -----

  lemma CloseKeepsLocal(s: State, s': State, step: CloseStep, b: Addr)
    requires LockOk(s) && LocalOk(View(s, b)) && OwnerOk(s, b) && CloserNext(s, s', step)
    ensures LocalOk(View(s', b)) && OwnerOk(s', b)
  {
  }

  lemma CloseKeepsLock(s: State, s': State, step: CloseStep)
    requires LockOk(s) && CloserNext(s, s', step)
    ensures LockOk(s')
  {
  }

  /** closeImpl deactivates exactly what is due on the address, with the role under which the
      connection is stored. */
  lemma CloseOneDue(s: State, s': State, a: Addr)
    requires LocalOk(View(s, a)) && LockOk(s) && CloserNext(s, s', CloseOne(a))
    ensures s'.owner == s.owner && s'.discovered == s.discovered
    ensures if a in s.pools.any then
              && Due(View(s, a)) == Some((s.pools.any[a], RoleIn(s.pools, a))) && Due(View(s', a)) == None
              && s'.deactivated == s.deactivated + multiset{Due(View(s, a)).value}
            else Due(View(s', a)) == Due(View(s, a)) && s'.deactivated == s.deactivated
  {
  }

  lemma CloseOneSpares(s: State, s': State, a: Addr, b: Addr)
    requires CloserNext(s, s', CloseOne(a)) && b != a
    ensures Due(View(s', b)) == Due(View(s, b))
  {
  }

  lemma CloseOnePairs(s: State, s': State, a: Addr, k: Conn, r: Role)
    requires Inv(s) && CloserNext(s, s', CloseOne(a))
    ensures PairOk(s', k, r)
  {
    hide CloserNext, View, Due, LocalOk, OwnerOk;
    assert PairOk(s, k, r) && LocalOk(View(s, a)) && OwnerOk(s, a);
    CloseOneDue(s, s', a);
    if Due(View(s, a)).Some? {
      DueIsOwned(s, a);
    }
    if k in s.owner && s.owner[k] != a {
      CloseOneSpares(s, s', a, s.owner[k]);
    }
  }

  lemma CloseKeepsPairs(s: State, s': State, step: CloseStep, k: Conn, r: Role)
    requires Inv(s) && CloserNext(s, s', step)
    ensures PairOk(s', k, r)
  {
    assert PairOk(s, k, r);
    if step.CloseOne? {
      CloseOnePairs(s, s', step.a, k, r);
    } else {
      assert s'.pools == s.pools && s'.checkers == s.checkers;
    }
  }

  lemma CloseKeeps(s: State, s': State, step: CloseStep)
    requires Inv(s) && CloserNext(s, s', step)
    ensures Inv(s')
  {
    forall b ensures LocalOk(View(s', b)) && OwnerOk(s', b) {
      assert LocalOk(View(s, b)) && OwnerOk(s, b);
      CloseKeepsLocal(s, s', step, b);
    }
    CloseKeepsLock(s, s', step);
    forall k, r ensures PairOk(s', k, r) { CloseKeepsPairs(s, s', step, k, r); }
  }

  // ----- fillPools -----

  predicate AtOneAddress(step: FillStep) {
    !step.StartCheckers? && !step.NobodyAlive? && !step.NewWatcher?
  }

  lemma FillSparesOthers(s: State, s': State, step: FillStep, b: Addr)
    requires LockOk(s) && FillNext(s, s', step) && AtOneAddress(step) && b != step.a
    ensures View(s', b) == View(s, b) && s'.lock == s.lock && s'.pool == s.pool && s'.closer == s.closer
  {
  }

  lemma FillStoringKeepsOwn(s: State, s': State, step: FillStep)
    requires step.FillAdd? || step.FillDrop?
    requires LockOk(s) && LocalOk(View(s, step.a)) && FillNext(s, s', step)
    ensures LocalOk(View(s', step.a))
  {
  }

  lemma FillKeepsOwn(s: State, s': State, step: FillStep)
    requires AtOneAddress(step) && LockOk(s) && LocalOk(View(s, step.a)) && FillNext(s, s', step)
    ensures LocalOk(View(s', step.a))
  {
    NobodyRefuses(s, s', step);
    if step.FillAdd? || step.FillDrop? {
      hide LocalOk, View, FillNext;
      FillStoringKeepsOwn(s, s', step);
    } else {
      assert s'.pools == s.pools;
    }
  }

  lemma DiscoveryKeepsOwners(s: State, s': State, a: Addr, k: Conn, r: Role, b: Addr)
    requires OwnerOk(s, b) && FillNext(s, s', FillDiscovered(a, k, r))
    ensures OwnerOk(s', b)
  {
  }

  lemma FillKeepsOwners(s: State, s': State, step: FillStep, b: Addr)
    requires AtOneAddress(step) && OwnerOk(s, b) && FillNext(s, s', step)
    ensures OwnerOk(s', b)
  {
    if step.FillDiscovered? {
      DiscoveryKeepsOwners(s, s', step.a, step.k, step.r, b);
    } else {
      assert s'.owner == s.owner;
    }
  }

  lemma FillDiscovers(s: State, s': State, a: Addr, k: Conn, r: Role)
    requires LocalOk(View(s, a)) && FillNext(s, s', FillDiscovered(a, k, r))
    ensures Due(View(s, a)) == None && Due(View(s', a)) == Some((k, r))
  {
  }

  lemma FillDrops(s: State, s': State, a: Addr)
    requires LocalOk(View(s, a)) && FillNext(s, s', FillDrop(a))
    ensures Due(View(s, a)).Some? && Due(View(s', a)) == None
    ensures s'.deactivated == s.deactivated + multiset{Due(View(s, a)).value}
  {
  }

  lemma FillStores(s: State, s': State, step: FillStep)
    requires step.FillNothing? || step.FillAdd? || step.FillKeep?
    requires LocalOk(View(s, step.a)) && FillNext(s, s', step)
    ensures Due(View(s', step.a)) == Due(View(s, step.a))
  {
  }

  lemma NobodyRefuses(s: State, s': State, step: FillStep)
    requires AtOneAddress(step) && LockOk(s) && LocalOk(View(s, step.a)) && FillNext(s, s', step)
    ensures !step.FillAddFails?
  {
  }

  /** Handler calls of fillPools; without watchers addConnection cannot fail there. */
  lemma FillDue(s: State, s': State, step: FillStep)
    requires AtOneAddress(step) && LockOk(s) && LocalOk(View(s, step.a)) && FillNext(s, s', step)
    ensures !step.FillAddFails?
    ensures step.FillDiscovered? ==>
              Due(View(s, step.a)) == None && Due(View(s', step.a)) == Some((step.k, step.r)) &&
              s'.discovered == s.discovered + multiset{(step.k, step.r)} && s'.deactivated == s.deactivated
    ensures step.FillDrop? ==>
              Due(View(s, step.a)).Some? && Due(View(s', step.a)) == None &&
              s'.discovered == s.discovered && s'.deactivated == s.deactivated + multiset{Due(View(s, step.a)).value}
    ensures !step.FillDiscovered? && !step.FillDrop? ==>
              Due(View(s', step.a)) == Due(View(s, step.a)) &&
              s'.discovered == s.discovered && s'.deactivated == s.deactivated
    ensures s'.owner == if step.FillDiscovered? then s.owner[step.k := step.a] else s.owner
  {
    hide Due, View, LocalOk;
    NobodyRefuses(s, s', step);
    match step
    case FillDiscovered(a, k, r) => FillDiscovers(s, s', a, k, r);
    case FillDrop(a) => FillDrops(s, s', a);
    case _ => FillStores(s, s', step);
  }

  lemma FillKeepsPairs(s: State, s': State, step: FillStep, k: Conn, r: Role)
    requires Inv(s) && FillNext(s, s', step) && AtOneAddress(step)
    ensures PairOk(s', k, r)
  {
    assert PairOk(s, k, r) && LocalOk(View(s, step.a)) && OwnerOk(s, step.a);
    FillDue(s, s', step);
    if Due(View(s, step.a)).Some? {
      DueIsOwned(s, step.a);
    }
    if k in s.owner && s.owner[k] != step.a {
      FillSparesOthers(s, s', step, s.owner[k]);
    }
  }

  /** All addresses start their checkers, or none ever runs. */
  lemma StartKeepsLocal(s: State, s': State, step: FillStep, b: Addr)
    requires LockOk(s) && LocalOk(View(s, b)) && FillNext(s, s', step) && !AtOneAddress(step)
    ensures LocalOk(View(s', b))
  {
  }

  lemma StartKeepsDue(s: State, s': State, step: FillStep, b: Addr)
    requires LocalOk(View(s, b)) && OwnerOk(s, b) && FillNext(s, s', step) && !AtOneAddress(step)
    ensures OwnerOk(s', b) && Due(View(s', b)) == Due(View(s, b))
  {
  }

  lemma StartKeepsLock(s: State, s': State, step: FillStep)
    requires Inv(s) && FillNext(s, s', step) && !AtOneAddress(step)
    ensures LockOk(s') && s'.owner == s.owner && s'.discovered == s.discovered && s'.deactivated == s.deactivated
  {
  }

  lemma FillKeeps(s: State, s': State, step: FillStep)
    requires Inv(s) && FillNext(s, s', step)
    ensures Inv(s')
  {
    if AtOneAddress(step) {
      assert LocalOk(View(s, step.a)) && OwnerOk(s, step.a);
      FillKeepsOwn(s, s', step);
      forall b ensures LocalOk(View(s', b)) && OwnerOk(s', b) {
        assert LocalOk(View(s, b)) && OwnerOk(s, b);
        FillKeepsOwners(s, s', step, b);
        if b != step.a {
          FillSparesOthers(s, s', step, b);
        }
      }
      FillKeepsLock(s, s', step);
      forall k, r ensures PairOk(s', k, r) { FillKeepsPairs(s, s', step, k, r); }
    } else {
      forall b ensures LocalOk(View(s', b)) && OwnerOk(s', b) && Due(View(s', b)) == Due(View(s, b)) {
        assert LocalOk(View(s, b)) && OwnerOk(s, b);
        StartKeepsLocal(s, s', step, b);
        StartKeepsDue(s, s', step, b);
      }
      StartKeepsLock(s, s', step);
      forall k, r ensures PairOk(s', k, r) { assert PairOk(s, k, r); }
    }
  }

  lemma FillKeepsLock(s: State, s': State, step: FillStep)
    requires AtOneAddress(step) && LockOk(s) && FillNext(s, s', step)
    ensures LockOk(s')
  {
  }

  // ----- every run -----

  lemma InitInv(addrs: set<Addr>, s: State)
    requires Init(addrs, s)
    ensures Inv(s)
  {
  }

  lemma StepInv(s: State, s': State)
    requires Inv(s) && Next(s, s')
    ensures Inv(s')
  {
    var step :| NextStep(s, s', step);
    match step
    case ByFill(x) => FillKeeps(s, s', x);
    case ByChecker(x) => CheckerKeeps(s, s', x);
    case ByClose(x) => CloseKeeps(s, s', x);
  }

  lemma {:induction false} RunInv(addrs: set<Addr>, run: seq<State>, i: nat)
    requires IsRun(addrs, run) && i < |run|
    ensures Inv(run[i])
  {
    if i == 0 {
      InitInv(addrs, run[0]);
    } else {
      RunInv(addrs, run, i - 1);
      assert StepAt(run, i - 1);
      StepInv(run[i - 1], run[i]);
    }
  }

  /** rwPool and roPool are disjoint and inside anyPool with the same connections. */
  lemma PoolsArePartitioned(addrs: set<Addr>, run: seq<State>, i: nat)
    requires IsRun(addrs, run) && i < |run|
    ensures Partitioned(run[i].pools)
  {
    RunInv(addrs, run, i);
    forall a ensures PartOf(Get(run[i].pools.any, a), Get(run[i].pools.rw, a), Get(run[i].pools.ro, a)) {
      assert LocalOk(View(run[i], a));
    }
  }

  /** ConnectWithOpts starts the checkers if some connection is stored, and otherwise closes the pool. */
  lemma StartsWithSomebody(addrs: set<Addr>, run: seq<State>, i: nat)
    requires IsRun(addrs, run) && i + 1 < |run| && run[i].pool == Unknown && run[i + 1].pool != Unknown
    ensures run[i + 1].pool == if run[i].pools.any != map[] then Connected else Closed
    ensures run[i + 1].pools == run[i].pools
  {
    RunInv(addrs, run, i);
    var s := run[i];
    assert StepAt(run, i);
    var step :| NextStep(s, run[i + 1], step);
    StartsBy(s, run[i + 1], step);
    hide NextStep;
    if a :| a in s.checkers && s.checkers[a].conn.Some? {
      assert LocalOk(View(s, a));
      assert a in s.pools.any;
    } else {
      forall a ensures a !in s.pools.any {
        assert LocalOk(View(s, a));
      }
    }
  }

  lemma StartsBy(s: State, s': State, step: Step)
    requires LockOk(s) && NextStep(s, s', step) && s.pool == Unknown && s'.pool != Unknown
    ensures forall a :: a in s.checkers ==> s.checkers[a].pc == Filled
    ensures s'.pool == (if exists a :: a in s.checkers && s.checkers[a].conn.Some? then Connected else Closed)
    ensures s'.pools == s.pools && !s.closer.Closing? && s.closer != Done
  {
  }

  /** Between its steps a checker knows exactly what the pools hold for its address, until
      closeImpl has dealt with the address. */
  lemma CheckerMatchesPools(addrs: set<Addr>, run: seq<State>, i: nat, a: Addr)
    requires IsRun(addrs, run) && i < |run| && At(run[i], a, Idle)
    requires run[i].closer == NotClosing || run[i].closer == WantLock
    ensures var s := run[i];
            && s.checkers[a].conn == (if a in s.pools.any then Some(s.pools.any[a]) else None)
            && s.checkers[a].role == RoleIn(s.pools, a)
  {
    RunInv(addrs, run, i);
    assert LocalOk(View(run[i], a));
  }

  // ----- what a checker stores is what it has found -----

  /** The connection and the role a checker is bringing into the pools: found by tryConnect, or by
      updateConnection as a new role. */
  function Bringing(pc: Pc): Option<(Conn, Role)> {
    match pc
    case Switching(k, _, to) => Some((k, to))
    case Discovering(k, r) => Some((k, r))
    case Ready(k, r) => Some((k, r))
    case Relocked(k, r) => Some((k, r))
    case Rechecked(k, r) => Some((k, r))
    case _ => None
  }

  ghost predicate Brings(s: State, a: Addr, k: Conn, r: Role) {
    a in s.checkers && Bringing(s.checkers[a].pc) == Some((k, r))
  }

  /** It has given up, or is about to: the pair was refused, the pool was closed or a watcher failed. */
  predicate GivesUp(step: CheckerStep) {
    (step.Discover? && !step.accepted) || step.RecheckState? || step.AddFails?
  }

  lemma BringsOn(s: State, s': State, step: CheckerStep, k: Conn, r: Role)
    requires CheckerNext(s, s', step) && Brings(s, step.a, k, r)
    ensures step.a in s'.checkers
    ensures if step.AddOk? then
              && s'.checkers[step.a].conn == Some(k) && s'.checkers[step.a].role == r && s'.checkers[step.a].pc == Idle
              && step.a in s'.pools.any && s'.pools.any[step.a] == k
              && (r == Master ==> step.a in s'.pools.rw && s'.pools.rw[step.a] == k)
              && (r == Replica ==> step.a in s'.pools.ro && s'.pools.ro[step.a] == k)
              && s'.pools.rw == (if r == Master then s.pools.rw[step.a := k] else s.pools.rw)
              && s'.pools.ro == (if r == Replica then s.pools.ro[step.a := k] else s.pools.ro)
            else Brings(s', step.a, k, r) || (GivesUp(step) && Quits(s'.checkers[step.a].pc))
  {
  }

  predicate Quits(pc: Pc) {
    pc == Idle || pc.Undoing?
  }

  lemma BringsStays(s: State, s': State, a: Addr, k: Conn, r: Role, step: Step)
    requires NextStep(s, s', step) && Brings(s, a, k, r) && LocalOk(View(s, a))
    requires step != ByChecker(AddOk(a))
    ensures Brings(s', a, k, r) || (a in s'.checkers && Quits(s'.checkers[a].pc))
  {
    match step
    case ByFill(x) => FillSparesRunning(s, s', x, a);
    case ByChecker(x) =>
      if x.a == a {
        BringsOn(s, s', x, k, r);
      } else {
        SparesOther(s, s', x, a);
      }
    case ByClose(x) =>
  }

  lemma SparesOther(s: State, s': State, step: CheckerStep, b: Addr)
    requires CheckerNext(s, s', step) && b != step.a && b in s.checkers
    ensures b in s'.checkers && s'.checkers[b] == s.checkers[b]
  {
  }

  lemma FillSparesRunning(s: State, s': State, step: FillStep, a: Addr)
    requires FillNext(s, s', step) && a in s.checkers && !InFill(s.checkers[a].pc) && LocalOk(View(s, a))
    ensures a in s'.checkers && s'.checkers[a] == s.checkers[a]
  {
  }

  /** An unfinished attempt ends in Idle or goes on undoing, until the checker is Idle again. */
  lemma QuitsOn(s: State, s': State, a: Addr, step: Step)
    requires NextStep(s, s', step) && a in s.checkers && s.checkers[a].pc.Undoing? && LocalOk(View(s, a))
    ensures a in s'.checkers && Quits(s'.checkers[a].pc) && step != ByChecker(AddOk(a))
    ensures step.ByChecker? && step.checker.Discover? ==> step.checker.a != a
  {
    match step
    case ByFill(x) => FillSparesRunning(s, s', x, a);
    case ByChecker(x) =>
      if x.a != a {
        SparesOther(s, s', x, a);
      }
    case ByClose(x) =>
  }

  /** From one state to a later one without the checker being Idle in between. */
  ghost predicate Busy(run: seq<State>, i: nat, j: nat, a: Addr) {
    forall m :: i <= m <= j < |run| ==> a in run[m].checkers && run[m].checkers[a].pc != Idle
  }

  lemma {:induction false} BringsUntilIdle(addrs: set<Addr>, run: seq<State>, i: nat, j: nat, a: Addr, k: Conn, r: Role)
    requires IsRun(addrs, run) && i <= j < |run| && Busy(run, i, j, a) && Brings(run[i], a, k, r)
    ensures Brings(run[j], a, k, r) || run[j].checkers[a].pc.Undoing?
  {
    if i < j {
      assert Busy(run, i, j - 1, a);
      BringsUntilIdle(addrs, run, i, j - 1, a, k, r);
      assert StepAt(run, j - 1);
      var step :| NextStep(run[j - 1], run[j], step);
      RunInv(addrs, run, j - 1);
      assert LocalOk(View(run[j - 1], a));
      hide NextStep, LocalOk, View, Inv;
      if Brings(run[j - 1], a, k, r) {
        if step == ByChecker(AddOk(a)) {
          StoredIsIdle(run[j - 1], run[j], a);
        } else {
          BringsStays(run[j - 1], run[j], a, k, r, step);
        }
      } else {
        QuitsOn(run[j - 1], run[j], a, step);
      }
    }
  }

  lemma StoredIsIdle(s: State, s': State, a: Addr)
    requires NextStep(s, s', ByChecker(AddOk(a)))
    ensures a in s'.checkers && s'.checkers[a].pc == Idle
  {
  }

  /** What an attempt discovers is the connection and the role it was begun with. */
  lemma DiscoversWhatItBrings(addrs: set<Addr>, run: seq<State>, i: nat, j: nat, a: Addr, k: Conn, r: Role, accepted: bool)
    requires IsRun(addrs, run) && i <= j && j + 1 < |run| && Busy(run, i, j, a) && Brings(run[i], a, k, r)
    requires CheckerNext(run[j], run[j + 1], Discover(a, accepted))
    ensures run[j + 1].discovered == if accepted then run[j].discovered + multiset{(k, r)} else run[j].discovered
  {
    BringsUntilIdle(addrs, run, i, j, a, k, r);
  }

  /** And what it stores: the connection is in anyPool and in the pool of that role and no other. */
  lemma StoresWhatItBrings(addrs: set<Addr>, run: seq<State>, i: nat, j: nat, a: Addr, k: Conn, r: Role)
    requires IsRun(addrs, run) && i <= j && j + 1 < |run| && Busy(run, i, j, a) && Brings(run[i], a, k, r)
    requires CheckerNext(run[j], run[j + 1], AddOk(a))
    ensures var p := run[j + 1].pools;
            && Get(p.any, a) == Some(k)
            && Get(p.rw, a) == (if r == Master then Some(k) else None)
            && Get(p.ro, a) == (if r == Replica then Some(k) else None)
  {
    BringsUntilIdle(addrs, run, i, j, a, k, r);
    BringsOn(run[j], run[j + 1], AddOk(a), k, r);
    RunInv(addrs, run, j);
    assert LocalOk(View(run[j], a));
  }

  /** When updateConnection has found a new role, the handler is told first that the connection leaves its
      old role and then that it has the new one, and it is stored under the new one. */
  lemma SwitchTakesEffect(addrs: set<Addr>, run: seq<State>, i: nat, j: nat, a: Addr, r: Role)
    requires IsRun(addrs, run) && i < j && j + 1 < |run| && Busy(run, i, j, a)
    requires CheckerNext(run[i], run[i + 1], SwitchRole(a, r))
    ensures run[i].checkers[a].conn.Some?
    ensures var k := run[i].checkers[a].conn.value;
            && (CheckerNext(run[j], run[j + 1], Discover(a, true)) ==>
                  run[j + 1].discovered == run[j].discovered + multiset{(k, r)})
            && (CheckerNext(run[j], run[j + 1], AddOk(a)) ==>
                  Get(run[j + 1].pools.any, a) == Some(k) && RoleIn(run[j + 1].pools, a) == r)
  {
    var k := run[i].checkers[a].conn.value;
    assert Busy(run, i + 1, j, a);
    assert Brings(run[i + 1], a, k, r);
    hide CheckerNext, IsRun, Busy, Brings;
    if CheckerNext(run[j], run[j + 1], Discover(a, true)) {
      DiscoversWhatItBrings(addrs, run, i + 1, j, a, k, r, true);
    }
    if CheckerNext(run[j], run[j + 1], AddOk(a)) {
      StoresWhatItBrings(addrs, run, i + 1, j, a, k, r);
    }
  }

  /** The same for a connection that tryConnect has opened. */
  lemma OpenedIsStored(addrs: set<Addr>, run: seq<State>, i: nat, j: nat, a: Addr, k: Conn, r: Role)
    requires IsRun(addrs, run) && i < j && j + 1 < |run| && Busy(run, i, j, a)
    requires CheckerNext(run[i], run[i + 1], Opened(a, k, r))
    ensures CheckerNext(run[j], run[j + 1], Discover(a, true)) ==>
              run[j + 1].discovered == run[j].discovered + multiset{(k, r)}
    ensures CheckerNext(run[j], run[j + 1], AddOk(a)) ==>
              Get(run[j + 1].pools.any, a) == Some(k) && RoleIn(run[j + 1].pools, a) == r
  {
    assert Busy(run, i + 1, j, a);
    assert Brings(run[i + 1], a, k, r);
    hide CheckerNext, IsRun, Busy, Brings;
    if CheckerNext(run[j], run[j + 1], Discover(a, true)) {
      DiscoversWhatItBrings(addrs, run, i + 1, j, a, k, r, true);
    }
    if CheckerNext(run[j], run[j + 1], AddOk(a)) {
      StoresWhatItBrings(addrs, run, i + 1, j, a, k, r);
    }
  }

  /** Deactivated is never called more often for a connection and role than Discovered has
      succeeded for them, and at most one call is outstanding at any time. */
  lemma HandlersArePaired(addrs: set<Addr>, run: seq<State>, i: nat, k: Conn, r: Role)
    requires IsRun(addrs, run) && i < |run|
    ensures run[i].deactivated[(k, r)] <= run[i].discovered[(k, r)] <= run[i].deactivated[(k, r)] + 1
  {
    RunInv(addrs, run, i);
    assert PairOk(run[i], k, r);
  }

  /** A connection all of whose Discovered calls were refused is never deactivated. */
  lemma RefusedIsNeverDeactivated(addrs: set<Addr>, run: seq<State>, i: nat, k: Conn, r: Role)
    requires IsRun(addrs, run) && i < |run| && run[i].discovered[(k, r)] == 0
    ensures run[i].deactivated[(k, r)] == 0
  {
    HandlersArePaired(addrs, run, i, k, r);
  }

  /** Once Close is done and every checker has stopped, every successful Discovered has had its
      Deactivated, whatever happened concurrently. */
  lemma EverythingIsDeactivated(addrs: set<Addr>, run: seq<State>, i: nat, k: Conn, r: Role)
    requires IsRun(addrs, run) && i < |run| && run[i].closer == Done
    requires forall a :: a in run[i].checkers ==> run[i].checkers[a].pc == Stopped
    ensures run[i].deactivated[(k, r)] == run[i].discovered[(k, r)]
    ensures run[i].pools.any == map[]
  {
    RunInv(addrs, run, i);
    var s := run[i];
    assert PairOk(s, k, r);
    forall a ensures a !in s.pools.any { assert LocalOk(View(s, a)); }
    if k in s.owner {
      assert LocalOk(View(s, s.owner[k]));
    }
  }
}
