/**
 The request multiplexer of one connection as a state machine (connection.go).

 Every atomic operation and every critical section of the goroutines that share a
 connection is one step: senders (`send`, `newFuture`, `putFuture`), the reader, the
 timeout sweep, context watchdogs, one writer per socket, and the goroutines that change
 the connection state under `conn.mutex` (`Close`, `reconnect`, `createConnection`,
 `shutdown`).  Where the source holds a lock a little longer than one step, the model
 releases it earlier, which only adds interleavings.
 */
module Mux {
  import opened Common

  datatype ConnState = Disconnected | Connected | Shutdown | Closed

  /** `limited` stands for RateLimit > 0 with RLimitDrop; `honest` for a server that only
      answers requests whose frame was written to it. */
  datatype Config = Config(shards: nat, dirtyCap: nat, limited: bool, rateLimit: nat, reconnect: bool, honest: bool)

  /** Program counter of one `send` call. */
  datatype Pc =
    | Begun                 // requestCnt incremented
    | Admitted              // past the RLimitDrop check
    | Checked               // holds the shard's rmut and has loaded connConnected
    | Refused               // newFuture returned with fut.ready == nil
    | Abandoned             // "context is done" before registration
    | Accepted              // registered, before the critical section of putFuture
    | Packed(first: bool)   // frame appended; first: the buffer was empty before
    | Pushing(first: bool)  // about to push the dirty-shard token if first
    | PackFailed            // pack failed and the buffer was truncated back
    | Waiting               // pack failed and somebody else took the future
    | Ended

  /** One request: its options, its sender's position, whether it holds a rate-limit token
      and the session in which it was registered. */
  datatype Send = Send(ctx: bool, async: bool, shard: nat, pc: Pc, tok: bool, born: Option<nat>)

  datatype Stage = ToSet | ToRelease | ToCount

  /** What remains to be done by a goroutine that has removed future f from the tables:
      SetResponse (ok) or SetError, then the two halves of markDone. */
  datatype Task = Task(f: nat, ok: bool, stage: Stage)

  datatype Writer = Idle | Holding(n: nat) | Writing(frames: seq<nat>) | Gone

  /** Who holds conn.mutex, and for what. */
  datatype Holder =
    | Free
    | Dialing
    | ShutdownLoop(c: nat)
    | ShutdownPassed(c: nat)
    | Closing(forever: bool, graceful: bool)

  datatype Event = Registered(f: nat) | Left(f: nat) | Settled(f: nat) | Counted(f: nat)

  /** The futures and the two counters that account for them. */
  datatype Ledger = Ledger(
    requestCnt: int,
    tokens: nat,                  // length of the rlimit channel
    sends: map<nat, Send>,
    table: set<nat>,              // futures in any shard list
    tasks: map<nat, Task>,        // by goroutine
    held: map<nat, nat>,          // removed and not yet fully marked done, with the goroutine
    done: map<nat, bool>,         // futures whose done channel is closed; true: response
    late: set<nat>,               // packed when already removed, but not yet completed
    packed: map<nat, nat>,        // packed futures, with the session of that moment
    hist: multiset<Event>)

  datatype State = State(
    conn: ConnState,
    sock: Option<nat>,            // conn.c
    sockets: map<nat, nat>,        // every socket ever opened, with its session
    session: nat,                 // finished closeConnection calls
    controlCloses: nat,           // executions of close(conn.control)
    mutex: Holder,
    waiters: set<nat>,            // shutdown goroutines in cond.Wait
    sleepers: nat,                // createConnection loops asleep between attempts
    l: Ledger,
    bufs: seq<seq<nat>>,          // frames in each shard buffer
    dirty: seq<nat>,              // the dirtyShard channel
    writers: map<nat, Writer>,    // by socket
    wire: set<(nat, nat)>,        // (socket, future) whose frame was written
    lost: set<nat>)               // futures whose frame was dropped, by a close or by a failed write

  /** Steps of `send`, `newFuture` and `putFuture`; f is the request, a a goroutine. */
  datatype SenderStep =
    | Begin(f: nat, ctx: bool, async: bool, shard: nat)
    | Admit(f: nat)
    | Drop(f: nat)
    | LoadState(f: nat)
    | Register(f: nat)
    | CtxDone(f: nat)
    | Decrement(f: nat)
    | SendCancel(f: nat, a: nat)
    | PutSkip(f: nat)
    | PutPack(f: nat)
    | PutFail(f: nat)
    | FailFetch(f: nat, a: nat)
    | FailWait(f: nat)
    | AsyncFetch(f: nat, a: nat)
    | AfterPack(f: nat)
    | PushToken(f: nat)

  /** Steps of the goroutines that remove and complete futures. */
  datatype CompleterStep =
    | Watchdog(f: nat, a: nat)
    | ReaderFetch(f: nat, a: nat)
    | Sweep(f: nat, a: nat)
    | SetOutcome(a: nat)
    | Release(a: nat)
    | Count(a: nat)

  /** Steps of the writer of socket k. */
  datatype WriterStep =
    | Take(k: nat)
    | HandOver(k: nat)
    | Swap(k: nat)
    | Write(k: nat, n: nat)
    | Stop(k: nat)

  /** Steps under conn.mutex. */
  datatype LifecycleStep =
    | UserClose
    | Reconnect(k: nat)
    | GiveUp
    | CloseFail(f: nat, a: nat)
    | CloseEnd
    | DialOk(k: nat)
    | DialSleep
    | DialWake
    | DialLeave
    | ShutdownStart
    | ShutdownCheck
    | ShutdownWake(k: nat)
    | ShutdownReconnect

  datatype Step =
    | BySender(sender: SenderStep)
    | ByCompleter(completer: CompleterStep)
    | ByWriter(writer: WriterStep)
    | ByLifecycle(lifecycle: LifecycleStep)

  // ----- locks -----

  /** rmut of shard n can be taken. */
  ghost predicate RmutFree(s: State, n: nat) {
    !s.mutex.Closing? && forall g :: g in s.l.sends && s.l.sends[g].pc == Checked ==> s.l.sends[g].shard != n
  }

  /** Every rmut and bufmut can be taken (lockShards). */
  ghost predicate ShardsFree(s: State) {
    !s.mutex.Closing? && forall g :: g in s.l.sends ==> s.l.sends[g].pc != Checked
  }

  // ----- effects on the ledger -----

  function Enter(l: Ledger, f: nat, ctx: bool, async: bool, shard: nat): Ledger {
    l.(requestCnt := l.requestCnt + 1, sends := l.sends[f := Send(ctx, async, shard, Begun, false, None)])
  }

  function TakeToken(c: Config, l: Ledger, f: nat): Ledger
    requires f in l.sends
  {
    l.(tokens := if c.limited then l.tokens + 1 else l.tokens,
       sends := l.sends[f := l.sends[f].(pc := Admitted, tok := c.limited)])
  }

  function Move(l: Ledger, f: nat, pc: Pc): Ledger
    requires f in l.sends
  {
    l.(sends := l.sends[f := l.sends[f].(pc := pc)])
  }

  function Add(l: Ledger, f: nat, session: nat): Ledger
    requires f in l.sends
  {
    l.(table := l.table + {f},
       hist := l.hist + multiset{Registered(f)},
       sends := l.sends[f := l.sends[f].(pc := Accepted, born := Some(session))])
  }

  /** Takes f out of the tables; goroutine a will complete it. */
  function Remove(l: Ledger, f: nat, a: nat, ok: bool): Ledger {
    l.(table := l.table - {f},
       tasks := l.tasks[a := Task(f, ok, ToSet)],
       held := l.held[f := a],
       hist := l.hist + multiset{Left(f)})
  }

  /** A frame has been appended to the shard buffer. */
  function Packs(l: Ledger, f: nat, first: bool, session: nat): Ledger
    requires f in l.sends
  {
    Move(l, f, Packed(first)).(late := if f in l.table then l.late else l.late + {f}, packed := l.packed[f := session])
  }

  /** fetchFuture followed by what the caller does with a non-nil result. */
  function Fetch(l: Ledger, f: nat, a: nat, ok: bool): Ledger {
    if f in l.table then Remove(l, f, a, ok) else l
  }

  /** Future.SetResponse / Future.SetError: nothing if the future is already done. */
  function Settle(l: Ledger, f: nat, ok: bool): Ledger {
    if f in l.done then l
    else l.(done := l.done[f := ok], hist := l.hist + multiset{Settled(f)})
  }

  function SettleTask(l: Ledger, a: nat): Ledger
    requires a in l.tasks
  {
    Settle(l, l.tasks[a].f, l.tasks[a].ok).(tasks := l.tasks[a := l.tasks[a].(stage := ToRelease)])
  }

  /** Removal and SetError inside one critical section (timeouts, futureList.clear). */
  function Expel(l: Ledger, f: nat, a: nat): Ledger {
    SettleTask(Remove(l, f, a, false), a)
  }

  /** The first half of markDone. */
  function ReturnToken(c: Config, l: Ledger, a: nat): Ledger
    requires a in l.tasks && l.tasks[a].f in l.sends && (c.limited ==> l.tokens > 0)
  {
    var f := l.tasks[a].f;
    l.(tasks := l.tasks[a := l.tasks[a].(stage := ToCount)],
       tokens := if c.limited then l.tokens - 1 else l.tokens,
       sends := l.sends[f := l.sends[f].(tok := false)])
  }

  /** The second half of markDone. */
  function Discount(l: Ledger, a: nat): Ledger
    requires a in l.tasks
  {
    l.(tasks := l.tasks - {a},
       held := l.held - {l.tasks[a].f},
       requestCnt := l.requestCnt - 1,
       hist := l.hist + multiset{Counted(l.tasks[a].f)})
  }

  function InBuffers(bufs: seq<seq<nat>>): set<nat> {
    set n, f | 0 <= n < |bufs| && f in bufs[n] :: f
  }

  /** closeConnection up to the point where the tables are cleared. */
  function EnterClose(s: State, forever: bool, graceful: bool): State {
    s.(conn := if forever then Closed else Disconnected,
       controlCloses := s.controlCloses + (if forever && s.conn != Closed then 1 else 0),
       sock := None,
       bufs := seq(|s.bufs|, _ => []),
       lost := s.lost + InBuffers(s.bufs),
       mutex := Closing(forever, graceful))
  }

  ghost predicate Init(c: Config, s: State) {
    && s.conn == Disconnected && s.sock == None && s.sockets == map[] && s.session == 0
    && s.controlCloses == 0 && s.mutex == Dialing && s.waiters == {} && s.sleepers == 0
    && s.l == Ledger(0, 0, map[], {}, map[], map[], map[], {}, map[], multiset{})
    && |s.bufs| == c.shards && (forall n :: 0 <= n < c.shards ==> s.bufs[n] == [])
    && s.dirty == [] && s.writers == map[] && s.wire == {} && s.lost == {}
  }

  // ----- the sender -----

  ghost predicate At(s: State, f: nat, pc: Pc) {
    f in s.l.sends && s.l.sends[f].pc == pc
  }

  ghost predicate SenderNext(c: Config, s: State, s': State, step: SenderStep) {
    var l := s.l;
    match step
    case Begin(f, ctx, async, shard) =>
      f !in l.sends && shard < c.shards && s' == s.(l := Enter(l, f, ctx, async, shard))
    case Admit(f) =>
      At(s, f, Begun) && (c.limited ==> l.tokens < c.rateLimit) && s' == s.(l := TakeToken(c, l, f))
    case Drop(f) =>
      At(s, f, Begun) && c.limited && l.tokens >= c.rateLimit && s' == s.(l := Move(l, f, Refused))
    case LoadState(f) =>
      At(s, f, Admitted) && RmutFree(s, l.sends[f].shard) &&
      s' == s.(l := Move(l, f, if s.conn == Connected then Checked else Refused))
    case Register(f) =>
      At(s, f, Checked) && s' == s.(l := Add(l, f, s.session))
    case CtxDone(f) =>
      At(s, f, Checked) && l.sends[f].ctx && s' == s.(l := Move(Settle(l, f, false), f, Abandoned))
    case Decrement(f) =>
      At(s, f, Refused) && s' == s.(l := Move(l, f, Ended).(requestCnt := l.requestCnt - 1))
    case SendCancel(f, a) =>
      At(s, f, Accepted) && l.sends[f].ctx && a !in l.tasks && RmutFree(s, l.sends[f].shard) &&
      s' == s.(l := Move(Fetch(l, f, a, false), f, Ended))
    case PutSkip(f) =>
      At(s, f, Accepted) && f in l.done && !s.mutex.Closing? && s' == s.(l := Move(l, f, Ended))
    case PutPack(f) =>
      At(s, f, Accepted) && f !in l.done && !s.mutex.Closing? && l.sends[f].shard < |s.bufs| &&
      var n := l.sends[f].shard;
      s' == s.(l := Packs(l, f, s.bufs[n] == [], s.session), bufs := s.bufs[n := s.bufs[n] + [f]])
    case PutFail(f) =>
      At(s, f, Accepted) && f !in l.done && !s.mutex.Closing? && s' == s.(l := Move(l, f, PackFailed))
    case FailFetch(f, a) =>
      At(s, f, PackFailed) && a !in l.tasks && RmutFree(s, l.sends[f].shard) &&
      s' == s.(l := Move(Fetch(l, f, a, false), f, if f in l.table then Ended else Waiting))
    case FailWait(f) =>
      At(s, f, Waiting) && f in l.done && s' == s.(l := Move(Settle(l, f, false), f, Ended))
    case AsyncFetch(f, a) =>
      f in l.sends && l.sends[f].pc.Packed? && l.sends[f].async && a !in l.tasks && RmutFree(s, l.sends[f].shard) &&
      s' == s.(l := Move(Fetch(l, f, a, true), f, Pushing(l.sends[f].pc.first)))
    case AfterPack(f) =>
      f in l.sends && l.sends[f].pc.Packed? && !l.sends[f].async &&
      s' == s.(l := Move(l, f, Pushing(l.sends[f].pc.first)))
    case PushToken(f) =>
      f in l.sends && l.sends[f].pc.Pushing? && (l.sends[f].pc.first ==> |s.dirty| < c.dirtyCap) &&
      s' == s.(l := Move(l, f, Ended),
               dirty := if l.sends[f].pc.first then s.dirty + [l.sends[f].shard] else s.dirty)
  }

  // ----- goroutines that complete futures -----

  ghost predicate CompleterNext(c: Config, s: State, s': State, step: CompleterStep) {
    var l := s.l;
    match step
    case Watchdog(f, a) =>
      f in l.sends && l.sends[f].ctx && f in l.table && a !in l.tasks && RmutFree(s, l.sends[f].shard) &&
      s' == s.(l := Remove(l, f, a, false))
    case ReaderFetch(f, a) =>
      f in l.sends && f in l.table && a !in l.tasks && RmutFree(s, l.sends[f].shard) &&
      (c.honest ==> exists k :: (k, f) in s.wire) &&
      s' == s.(l := Remove(l, f, a, true))
    case Sweep(f, a) =>
      f in l.sends && f in l.table && a !in l.tasks && RmutFree(s, l.sends[f].shard) &&
      s' == s.(l := Expel(l, f, a))
    case SetOutcome(a) =>
      a in l.tasks && l.tasks[a].stage == ToSet && s' == s.(l := SettleTask(l, a))
    case Release(a) =>
      a in l.tasks && l.tasks[a].stage == ToRelease && l.tasks[a].f in l.sends && (c.limited ==> l.tokens > 0) &&
      s' == s.(l := ReturnToken(c, l, a))
    case Count(a) =>
      a in l.tasks && l.tasks[a].stage == ToCount && s' == s.(l := Discount(l, a))
  }

  // ----- writers -----

  ghost predicate WriterNext(c: Config, s: State, s': State, step: WriterStep) {
    match step
    case Take(k) =>
      k in s.writers && s.writers[k] == Idle && s.dirty != [] &&
      s' == s.(dirty := s.dirty[1..], writers := s.writers[k := Holding(s.dirty[0])])
    case HandOver(k) =>
      k in s.writers && s.writers[k].Holding? && s.sock != Some(k) && !s.mutex.Closing? && |s.dirty| < c.dirtyCap &&
      s' == s.(dirty := s.dirty + [s.writers[k].n], writers := s.writers[k := Gone])
    case Swap(k) =>
      k in s.writers && s.writers[k].Holding? && s.sock == Some(k) && !s.mutex.Closing? &&
      s.writers[k].n < |s.bufs| &&
      var n := s.writers[k].n;
      s' == s.(bufs := s.bufs[n := []],
               writers := s.writers[k := if s.bufs[n] == [] then Idle else Writing(s.bufs[n])])
    case Write(k, n) =>   // a write that fails has sent the first n frames, the last perhaps in part
      k in s.writers && s.writers[k].Writing? && n <= |s.writers[k].frames| &&
      s' == s.(wire := s.wire + (set f | f in s.writers[k].frames[..n] :: (k, f)),
               lost := s.lost + (set f | f in s.writers[k].frames[n..]),
               writers := s.writers[k := if n == |s.writers[k].frames| then Idle else Gone])
    case Stop(k) =>   // a flush error, or the connection is closed
      k in s.writers && s.writers[k].Idle? &&
      s' == s.(writers := s.writers[k := Gone])
  }

  // ----- goroutines that change the connection state -----

  ghost predicate LifecycleNext(c: Config, s: State, s': State, step: LifecycleStep) {
    match step
    case UserClose =>
      s.mutex == Free && ShardsFree(s) && s' == EnterClose(s, true, false)
    case Reconnect(k) =>    // conn.reconnect(err, c) from the reader or the writer of socket k
      k in s.sockets && s.mutex == Free &&
      if c.reconnect then s.sock == Some(k) && ShardsFree(s) && s' == EnterClose(s, false, false)
      else ShardsFree(s) && s' == EnterClose(s, true, false)
    case GiveUp =>          // createConnection returned an error
      s.mutex == Dialing && s.sock == None && ShardsFree(s) && s' == EnterClose(s, true, false)
    case CloseFail(f, a) =>
      s.mutex.Closing? && f in s.l.table && a !in s.l.tasks && s' == s.(l := Expel(s.l, f, a))
    case CloseEnd =>
      s.mutex.Closing? && s.l.table == {} &&
      s' == s.(session := s.session + 1, mutex := if s.mutex.forever then Free else Dialing)
    case DialOk(k) =>       // the mutex stays held until DialLeave, GiveUp or DialSleep
      s.mutex == Dialing && s.conn == Disconnected && s.sock == None && k !in s.sockets && ShardsFree(s) &&
      s' == s.(conn := Connected, sock := Some(k), sockets := s.sockets[k := s.session],
               writers := s.writers[k := Idle])
    case DialSleep =>       // a dial has failed
      s.mutex == Dialing && s.sock == None && s.conn == Disconnected && s' == s.(mutex := Free, sleepers := s.sleepers + 1)
    case DialWake =>
      s.mutex == Free && s.sleepers > 0 && s' == s.(mutex := Dialing, sleepers := s.sleepers - 1)
    case DialLeave =>       // the loop condition of createConnection is false
      s.mutex == Dialing && (s.sock.Some? || s.conn != Disconnected) && s' == s.(mutex := Free)
    case ShutdownStart =>
      s.mutex == Free && s.conn == Connected && s.sock.Some? &&
      s' == s.(conn := Shutdown, mutex := ShutdownLoop(s.sock.value))
    case ShutdownCheck =>
      s.mutex.ShutdownLoop? &&
      s' == if s.conn != Shutdown || s.sock != Some(s.mutex.c) then s.(mutex := Free)
            else if s.l.requestCnt == 0 then s.(mutex := ShutdownPassed(s.mutex.c))
            else s.(mutex := Free, waiters := s.waiters + {s.mutex.c})
    case ShutdownWake(k) =>
      s.mutex == Free && k in s.waiters && s' == s.(mutex := ShutdownLoop(k), waiters := s.waiters - {k})
    case ShutdownReconnect =>
      s.mutex.ShutdownPassed? && ShardsFree(s) && s' == EnterClose(s, !c.reconnect, true)
  }

  ghost predicate NextStep(c: Config, s: State, s': State, step: Step) {
    match step
    case BySender(x) => SenderNext(c, s, s', x)
    case ByCompleter(x) => CompleterNext(c, s, s', x)
    case ByWriter(x) => WriterNext(c, s, s', x)
    case ByLifecycle(x) => LifecycleNext(c, s, s', x)
  }

  ghost predicate Next(c: Config, s: State, s': State) {
    exists step :: NextStep(c, s, s', step)
  }

  ghost predicate StepAt(c: Config, run: seq<State>, i: nat)
    requires i + 1 < |run|
  {
    Next(c, run[i], run[i + 1])
  }

  ghost predicate IsRun(c: Config, run: seq<State>) {
    && run != []
    && Init(c, run[0])
    && forall i: nat :: i + 1 < |run| ==> StepAt(c, run, i)
  }
}
