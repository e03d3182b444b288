/**
 The connection pool (connection_pool/connection_pool.go) as a state machine: fillPools, one
 checker goroutine per address, Close, and the user's handler callbacks, which run outside
 poolsMutex everywhere except in closeImpl.  What a server answers, whether a handler refuses
 and whether a watcher can be set up are free choices of the environment.
 */
module Pool {
  import opened Common

  datatype Role = UnknownRole | Master | Replica

  datatype PoolState = Unknown | Connected | Closed

  type Addr = nat
  type Conn = nat

  /** The three RoundRobinStrategy objects by address (see RoundRobin.View). */
  datatype Pools = Pools(any: map<Addr, Conn>, rw: map<Addr, Conn>, ro: map<Addr, Conn>)

  function Get(m: map<Addr, Conn>, a: Addr): Option<Conn> {
    if a in m then Some(m[a]) else None
  }

  /** What the pools hold for one address: rwPool or roPool, not both, and then the same as anyPool. */
  predicate PartOf(any: Option<Conn>, rw: Option<Conn>, ro: Option<Conn>) {
    && !(rw.Some? && ro.Some?)
    && (rw.Some? ==> rw == any)
    && (ro.Some? ==> ro == any)
  }

  /** rwPool and roPool are disjoint and inside anyPool with the same connections. */
  ghost predicate Partitioned(p: Pools) {
    forall a :: PartOf(Get(p.any, a), Get(p.rw, a), Get(p.ro, a))
  }

  /** deleteConnection: ro is touched only if rw had nothing. */
  function Delete(p: Pools, a: Addr): Pools {
    if a !in p.any then p
    else if a in p.rw then Pools(p.any - {a}, p.rw - {a}, p.ro)
    else Pools(p.any - {a}, p.rw, p.ro - {a})
  }

  /** addConnection without watchers that fail. */
  function Add(p: Pools, a: Addr, k: Conn, role: Role): Pools {
    match role
    case Master => Pools(p.any[a := k], p.rw[a := k], p.ro)
    case Replica => Pools(p.any[a := k], p.rw, p.ro[a := k])
    case UnknownRole => Pools(p.any[a := k], p.rw, p.ro)
  }

  /** The role under which an address is stored. */
  function RoleIn(p: Pools, a: Addr): Role {
    if a in p.rw then Master else if a in p.ro then Replica else UnknownRole
  }

  /** Why a checker has taken the lock: the notify channel, updateConnection, reconnect or
      tryConnect. */
  datatype Kind = Notified | Update | Reopen | Try

  datatype Pc =
    | Unfilled                       // fillPools has not come to this address
    | Filling(k: Conn, r: Role)      // Discovered has succeeded, before addConnection
    | FillAdded(k: Conn, r: Role)    // before ConnectedNow
    | Filled                         // fillPools is past it, the checker does not run yet
    | Idle
    | Locked(kind: Kind)             // holds poolsMutex, before the state check
    | Checked(kind: Kind)            // holds poolsMutex, has seen connectedState
    | Leaving(k: Conn, r: Role, kind: Kind)   // out of the pools, before Deactivated
    | Switching(k: Conn, r: Role, to: Role)   // the same in updateConnection
    | Discovering(k: Conn, r: Role)  // before Discovered
    | Ready(k: Conn, r: Role)        // Discovered has succeeded, before the second lock
    | Relocked(k: Conn, r: Role)     // holds the lock again, before the state check
    | Rechecked(k: Conn, r: Role)    // has seen connectedState, before addConnection
    | Undoing(k: Conn, r: Role)      // conn closed, before Deactivated
    | WantTry                        // reconnect is about to call tryConnect
    | Stopped

  /** connState of one address. */
  datatype Checker = Checker(conn: Option<Conn>, role: Role, pc: Pc)

  datatype Lock = Free | HeldBy(a: Addr) | HeldByClose

  datatype Closer = NotClosing | WantLock | Closing(left: set<Addr>) | Done

  datatype State = State(
    pool: PoolState,
    lock: Lock,
    pools: Pools,
    checkers: map<Addr, Checker>,
    closer: Closer,
    watchers: bool,                       // some pool watcher is registered
    owner: map<Conn, Addr>,               // every connection ever opened
    discovered: multiset<(Conn, Role)>,   // successful Discovered calls
    deactivated: multiset<(Conn, Role)>)

  /** Steps of ConnectWithOpts and NewWatcher. */
  datatype FillStep =
    | FillNothing(a: Addr)                // no connection, no role, or Discovered refused
    | FillDiscovered(a: Addr, k: Conn, r: Role)
    | FillAdd(a: Addr)
    | FillAddFails(a: Addr)
    | FillKeep(a: Addr)
    | FillDrop(a: Addr)
    | StartCheckers
    | NobodyAlive
    | NewWatcher

  /** Steps of the checker of address a. */
  datatype CheckerStep =
    | TakeLock(a: Addr, kind: Kind)
    | CheckState(a: Addr)
    | LeaveAsIs(a: Addr)                  // role unchanged or not known; or nothing to connect to
    | Drop(a: Addr)
    | SwitchRole(a: Addr, r: Role)
    | Opened(a: Addr, k: Conn, r: Role)
    | OpenedWithoutRole(a: Addr, k: Conn)
    | Deactivate(a: Addr)
    | Discover(a: Addr, accepted: bool)
    | Relock(a: Addr)
    | RecheckState(a: Addr)
    | AddOk(a: Addr)
    | AddFails(a: Addr)
    | Stop(a: Addr)

  datatype CloseStep =
    | CloseCas
    | CloseLock
    | CloseOne(a: Addr)
    | CloseDone

  datatype Step =
    | ByFill(fill: FillStep)
    | ByChecker(checker: CheckerStep)
    | ByClose(close: CloseStep)

  function Go(s: State, a: Addr, pc: Pc): State
    requires a in s.checkers
  {
    s.(checkers := s.checkers[a := s.checkers[a].(pc := pc)])
  }

  function Set(s: State, a: Addr, x: Checker): State {
    s.(checkers := s.checkers[a := x])
  }

  ghost predicate At(s: State, a: Addr, pc: Pc) {
    a in s.checkers && s.checkers[a].pc == pc
  }

  function Deact(s: State, k: Conn, r: Role): State {
    s.(deactivated := s.deactivated + multiset{(k, r)})
  }

  ghost predicate Init(addrs: set<Addr>, s: State) {
    && s.checkers.Keys == addrs
    && (forall a :: a in addrs ==> s.checkers[a] == Checker(None, UnknownRole, Unfilled))
    && s.pool == Unknown && s.lock == Free && s.pools == Pools(map[], map[], map[]) && s.closer == NotClosing
    && !s.watchers && s.owner == map[] && s.discovered == multiset{} && s.deactivated == multiset{}
  }

  // ----- fillPools and ConnectWithOpts -----

  ghost predicate FillNext(s: State, s': State, step: FillStep) {
    match step
    case FillNothing(a) => At(s, a, Unfilled) && s' == Go(s, a, Filled)
    case FillDiscovered(a, k, r) =>
      At(s, a, Unfilled) && k !in s.owner &&
      s' == Go(s, a, Filling(k, r)).(owner := s.owner[k := a], discovered := s.discovered + multiset{(k, r)})
    case FillAdd(a) =>
      a in s.checkers && s.checkers[a].pc.Filling? &&
      var pc := s.checkers[a].pc;
      s' == Go(s, a, FillAdded(pc.k, pc.r)).(pools := Add(s.pools, a, pc.k, pc.r))
    case FillAddFails(a) =>            // the closed connection is then deactivated a second time
      a in s.checkers && s.checkers[a].pc.Filling? && s.watchers &&
      var pc := s.checkers[a].pc;
      s' == Go(Deact(Deact(s, pc.k, pc.r), pc.k, pc.r), a, Filled)
    case FillKeep(a) =>
      a in s.checkers && s.checkers[a].pc.FillAdded? &&
      var pc := s.checkers[a].pc;
      s' == Set(s, a, Checker(Some(pc.k), pc.r, Filled))
    case FillDrop(a) =>
      a in s.checkers && s.checkers[a].pc.FillAdded? &&
      var pc := s.checkers[a].pc;
      s' == Go(Deact(s, pc.k, pc.r), a, Filled).(pools := Delete(s.pools, a))
    case StartCheckers =>              // somebody is alive
      s.pool == Unknown && (forall a :: a in s.checkers ==> s.checkers[a].pc == Filled) &&
      (exists a :: a in s.checkers && s.checkers[a].conn.Some?) &&
      s' == s.(pool := Connected, checkers := map a | a in s.checkers :: s.checkers[a].(pc := Idle))
    case NobodyAlive =>
      s.pool == Unknown && (forall a :: a in s.checkers ==> s.checkers[a].pc == Filled && s.checkers[a].conn == None) &&
      s' == s.(pool := Closed, closer := Closing(s.checkers.Keys), lock := HeldByClose,
               checkers := map a | a in s.checkers :: s.checkers[a].(pc := Stopped))
    case NewWatcher => s.pool != Unknown && s' == s.(watchers := true)
  }

  // ----- a checker -----

  ghost predicate CheckerNext(s: State, s': State, step: CheckerStep) {
    match step
    case TakeLock(a, kind) =>
      a in s.checkers && s.lock == Free &&
      (if s.checkers[a].pc == WantTry then kind == Try
       else s.checkers[a].pc == Idle && (s.checkers[a].conn == None <==> kind == Try)) &&
      s' == Go(s, a, Locked(kind)).(lock := HeldBy(a))
    case CheckState(a) =>
      a in s.checkers && s.checkers[a].pc.Locked? &&
      s' == if s.pool == Connected then Go(s, a, Checked(s.checkers[a].pc.kind))
            else Go(s, a, Idle).(lock := Free)
    case LeaveAsIs(a) =>
      (At(s, a, Checked(Update)) || At(s, a, Checked(Try))) && s' == Go(s, a, Idle).(lock := Free)
    case Drop(a) =>
      (At(s, a, Checked(Notified)) || At(s, a, Checked(Reopen))) && s.checkers[a].conn.Some? &&
      s' == Set(s, a, Checker(None, UnknownRole, Leaving(s.checkers[a].conn.value, s.checkers[a].role, s.checkers[a].pc.kind)))
            .(pools := Delete(s.pools, a), lock := Free)
    case SwitchRole(a, r) =>
      At(s, a, Checked(Update)) && s.checkers[a].conn.Some? && s.checkers[a].role != r &&
      s' == Set(s, a, Checker(None, UnknownRole, Switching(s.checkers[a].conn.value, s.checkers[a].role, r)))
            .(pools := Delete(s.pools, a), lock := Free)
    case Opened(a, k, r) =>
      At(s, a, Checked(Try)) && k !in s.owner &&
      s' == Go(s, a, Discovering(k, r)).(owner := s.owner[k := a], lock := Free)
    case OpenedWithoutRole(a, k) =>
      At(s, a, Checked(Try)) && k !in s.owner && s' == Go(s, a, Idle).(owner := s.owner[k := a], lock := Free)
    case Deactivate(a) =>
      a in s.checkers &&
      var pc := s.checkers[a].pc;
      (pc.Leaving? || pc.Switching? || pc.Undoing?) &&
      s' == Go(Deact(s, pc.k, pc.r), a,
               if pc.Switching? then Discovering(pc.k, pc.to)
               else if pc.Leaving? && pc.kind == Reopen then WantTry else Idle)
    case Discover(a, accepted) =>
      a in s.checkers && s.checkers[a].pc.Discovering? &&
      var pc := s.checkers[a].pc;
      s' == if accepted then Go(s, a, Ready(pc.k, pc.r)).(discovered := s.discovered + multiset{(pc.k, pc.r)})
            else Go(s, a, Idle)
    case Relock(a) =>
      a in s.checkers && s.checkers[a].pc.Ready? && s.lock == Free &&
      s' == Go(s, a, Relocked(s.checkers[a].pc.k, s.checkers[a].pc.r)).(lock := HeldBy(a))
    case RecheckState(a) =>
      a in s.checkers && s.checkers[a].pc.Relocked? &&
      var pc := s.checkers[a].pc;
      s' == if s.pool == Connected then Go(s, a, Rechecked(pc.k, pc.r))
            else Go(s, a, Undoing(pc.k, pc.r)).(lock := Free)
    case AddOk(a) =>
      a in s.checkers && s.checkers[a].pc.Rechecked? &&
      var pc := s.checkers[a].pc;
      s' == Set(s, a, Checker(Some(pc.k), pc.r, Idle)).(pools := Add(s.pools, a, pc.k, pc.r), lock := Free)
    case AddFails(a) =>
      a in s.checkers && s.checkers[a].pc.Rechecked? && s.watchers &&
      s' == Go(s, a, Undoing(s.checkers[a].pc.k, s.checkers[a].pc.r)).(lock := Free)
    case Stop(a) =>                    // the done channel is closed
      At(s, a, Idle) && s.closer == Done && s' == Go(s, a, Stopped)
  }

  // ----- Close -----

  ghost predicate CloserNext(s: State, s': State, step: CloseStep) {
    match step
    case CloseCas =>
      s.pool == Connected && s' == s.(pool := Closed, closer := WantLock)
    case CloseLock =>
      s.closer == WantLock && s.lock == Free && s' == s.(lock := HeldByClose, closer := Closing(s.checkers.Keys))
    case CloseOne(a) =>
      s.closer.Closing? && a in s.closer.left &&
      s' == (if a in s.pools.any then Deact(s, s.pools.any[a], RoleIn(s.pools, a)) else s)
            .(pools := Delete(s.pools, a), closer := Closing(s.closer.left - {a}))
    case CloseDone =>
      s.closer == Closing({}) && s' == s.(closer := Done, lock := Free)
  }

  ghost predicate NextStep(s: State, s': State, step: Step) {
    match step
    case ByFill(x) => FillNext(s, s', x)
    case ByChecker(x) => CheckerNext(s, s', x)
    case ByClose(x) => CloserNext(s, s', x)
  }

  ghost predicate Next(s: State, s': State) {
    exists step :: NextStep(s, s', step)
  }

  ghost predicate StepAt(run: seq<State>, i: nat)
    requires i + 1 < |run|
  {
    Next(run[i], run[i + 1])
  }

  ghost predicate IsRun(addrs: set<Addr>, run: seq<State>) {
    run != [] && Init(addrs, run[0]) && forall i: nat :: i + 1 < |run| ==> StepAt(run, i)
  }
}
