# Verified model of a multiplexing Tarantool client

The client sends requests of many goroutines over one socket, matches the answers by request id, and
pools such connections. This project models its concurrency protocols as state machines over atomic
steps, its mutable data structures as classes, and its hand-written codecs as methods proved against
specification functions. `dafny verify dfyconfig.toml` checks everything.

## What is modelled

**Request multiplexer and connection lifecycle** (`connection.go`, `future.go`).

- `Mux` is one connection. Every atomic operation and every critical section of `send`, `newFuture`,
  `putFuture`, `markDone`, the reader, the timeout sweep, the context watchdogs, the writers,
  `closeConnection`, `reconnectImpl`, `createConnection` and `shutdown` is one step, and any
  interleaving is a run. Where the source holds a lock across two steps, the model lets it go in
  between, which only adds interleavings. A request is identified by its future; ids are the subject
  of `RequestTable`. `honest` means that the server answers only requests whose frame was written to it.
- `MuxLedger`, `MuxLifecycle`, `MuxFrames` and `MuxFlush` hold the invariants and what every step
  keeps; `MuxTheorems` says what follows for every run, and `MuxPlaces` where the frame of each
  request is at any time. `MuxWitness` has a run of a request from its send to its answer, and the runs
  that reach what the guarantees leave open.
- `FutureLists` is the intrusive list with its tail pointer, on the heap. `RequestTable` puts such lists
  into shards and slots and proves them one map. `Concurrency` is the rounding of the number of shards,
  on 32-bit words. `TimeoutSweep` interleaves the sweep with everything else that touches the lists.
- `Futures` is a future on the heap with its two channels, the iterator over its responses, and every
  interleaving of the iterator with the goroutines that fill the future.

**Watchers of a key** (`connection.go`): `WatchCell`. The one-slot channel of a `watchState` is an
atomic cell. `WatchWitness` is a run of two watchers.

**Connection pool** (`connection_pool/`): `RoundRobin` (the strategy, its index map and its counter),
`Fairness`, `CounterRace` (concurrent calls for the next connection), and `Pool` with `PoolProofs` (`fillPools`, one checker per address, `Close`, handler calls
outside the lock). `PoolStore` holds the three strategies as objects and shows that the methods which
change them do what `Pool` says in one step; it also has the pool watchers with the addresses each of
them watches. `PoolWitness` has runs through everything a checker does.

**Codecs**: `MsgPack` (the formats that frames and errors use, and skipping any value), `Buffers`
(`smallbuf.go`), `Frames` (`pack`, `read`, `decodeHeader`), `BoxErrorFormat` and `BoxErrors` (error
stacks as values and as linked objects), `Bcd` and `BcdRoundTrip` (packed decimals).

**Month arithmetic** (`datetime/datetime.go`): `Months`, over the proleptic Gregorian calendar.

`Common` has what several modules share.

## Properties that hold only under a condition

For each of these a lemma gives the exact condition, in both directions, and another one an input or a
run for which the property fails.

- `shutdown` waits for requestCnt to reach zero. It is zero exactly if nothing is live, being completed
  or on its way in, and no request has returned early with "context is done" (`MuxTheorems.ZeroCount`,
  `MuxTheorems.ShutdownPassesExactly`). Such a return keeps the counter up for good
  (`MuxTheorems.AbandonedBlocksShutdown`), and it can happen (`MuxWitness.ContextDoneRun`).
- A request is written to a connection opened after its registration exactly if a `closeConnection` has
  ended between its registration and its packing (`MuxTheorems.StaleExactly`). Under an honest server
  that takes a context and a late packing (`MuxTheorems.StaleSendIsLate`), between a watchdog's removal
  of the future and its error (`MuxTheorems.LateOnlyAfterWatchdog`), so it never happens to a context-free
  request (`MuxTheorems.NoStaleSend`); `MuxWitness.StaleContextRun` is a run in which it happens.
- `peekFuture` appends to `requests` while odd ids are looked up in `requestsWithCtx`: with a timeout
  set, a push makes a request with a context unfindable (`RequestTable.PeekKeepsFindable`,
  `RequestTable.PushLosesContextRequest`).
- Registering a future is an update of the map of live requests exactly if its id is not live
  (`RequestTable.RegisterIsUpdate`). That holds while fewer than 2^31 later requests of its kind have been
  made (`RequestTable.LiveIdsDistinct`), and fails at the 2^31-th (`RequestTable.RepeatedIdIsShadowed`).
- The rotation of a pool is fair unless its 64-bit counter wraps (`Fairness.FairExactly`,
  `Fairness.UnfairAcrossWrap`).
- Concurrent calls rotate as sequential ones exactly if no call starts while another one is between its
  first read and its write of the counter, which only a read lock guards
  (`CounterRace.SequentialExactly`, `CounterRace.OverlapRun`).
- Decoding an error stack returns, with errors or without, unless an entry of the outer map has a nil for
  its stack, which makes it panic (`BoxErrorFormat.PanicsExactly`, `BoxErrorFormat.NilStackPanics`).
- A decimal text survives encoding and decoding exactly if it is in normal form, has at most 255 digits
  behind the point, since the scale is cut to one byte, and is not a negative zero
  (`BcdRoundTrip.TextRoundTrip`, `BcdRoundTrip.NegativeZeroIsLost`).
- A frame is read back exactly if its payload is shorter than 2^32 bytes (`Frames.FrameReads`,
  `Frames.LongFrameIsMisread`). Its request code, written as one raw byte, is read back in every request
  exactly if that byte is a one-byte number of MessagePack (`Frames.CodesSurviveExactly`,
  `Frames.OthersAreMisread`).
- An iterator that is read to the end yields everything exactly if no push still to come is the very
  response object (`Futures.ReadsAllExactly`, `Futures.SharedResponseEndsEarly`).
- Adding months twice equals adding their sum exactly if the month between does not shorten or capture
  the day (`Months.AdditiveExactly`, `Months.NotAdditiveExample`); the month moves by delta exactly if
  64-bit addition does not wrap (`Months.MovesByDelta`, `Months.LargestDeltaWraps`).

In one place the code and its own comment differ, and the model follows the code: `putFuture` wants the
packing error to replace a connection error, but its last `SetError` finds the future done and has no
effect (`Mux`, step `FailWait`; `MuxTheorems.OutcomeIsFinal`). And one path is dead: when `addConnection`
fails in `fillPools`, `Deactivated` would be called twice, but no watcher exists yet that could make it
fail (`PoolProofs.FillDue`).

## Model

| member | source | states |
|---|---|---|
| MuxLedger.StepKeepsSound | connection.go:895-1090 | every step of every goroutine keeps the ledger: where each future is, who holds it, what the two counters account for |
| MuxLedger.TokenAvailable | connection.go:1085-1090 | whoever marks a future done in RLimitDrop mode finds a token to take back |
| MuxLifecycle.LifecycleKept | connection.go:620-704 | every step keeps connection state, socket, closed control channel and table contents in agreement |
| MuxLedger.ZeroExactly | connection.go:993-1001 | in a sound ledger requestCnt is 0 exactly if nothing is live, under way, on its way in or lost to an early return |
| MuxLifecycle.ZeroMeansIdle | connection.go:993-1001 | requestCnt == 0 means no live future, no completion under way and no sender that could still register |
| MuxLifecycle.DrainedKept | connection.go:1526-1562 | once shutdown has read 0 the connection stays drained through every step |
| MuxFrames.LivesKept | connection.go:936-959 | every step keeps a live future in the session in which it registered, and answers only for written frames |
| MuxFrames.FramesKept | connection.go:650-684 | every step keeps each buffered or written frame in the session of its request |
| MuxFlush.FlushKept | connection.go:746-784 | every step keeps a token, a pusher or a writer for each non-empty shard buffer |
| MuxTheorems.RunGood | connection.go:895-1090 | all invariants hold in every state of every run |
| MuxTheorems.ExactlyOnce | connection.go:211-220 | each registered future leaves the tables at most once, is completed at most once and only after leaving, and is counted out at most once; all three exactly once when nothing is live or under way |
| MuxTheorems.CompletionIsEffective | connection.go:490-495 | whoever removed a future decides its outcome: it is never found done already |
| MuxTheorems.ExpulsionIsEffective | connection.go:1147-1164 | the same for the errors set by the timeout sweep and by the clear of closeConnection, inside the removal |
| MuxTheorems.OutcomeOfTaken | connection.go:858-861 | a future taken by the reader or by an async send is completed with a response and nothing else; one taken by a watchdog, the sweep, a close, a cancelled send or a failed pack with an error |
| MuxTheorems.RemovalDecidesOutcome | connection.go:490-495 | the same for whatever step takes a future out of the tables |
| MuxTheorems.TakenLeaves | connection.go:1112-1118 | which steps take which future out, and that no step takes another |
| MuxWitness.AnsweredRun | connection.go:858-861 | a request in RLimitDrop mode is sent, answered with a response and counted out, and shutdown passes its wait |
| MuxTheorems.OutcomeIsFinal | future.go:145-168 | an outcome once set never changes |
| MuxTheorems.RequestCount | connection.go:993-1016 | requestCnt is live futures + removed but unmarked + sends before registration + early context-done returns |
| MuxTheorems.RateLimited | connection.go:897-909 | in RLimitDrop mode live futures and tokens never exceed RateLimit, and markDone never waits for a token |
| MuxTheorems.RefusedExactly | connection.go:897-942 | a request is refused exactly if in RLimitDrop mode RateLimit requests hold a token, or if the connection is not in Connected when its state is loaded |
| MuxTheorems.OneInSection | connection.go:913-959 | the rmut of a shard admits one sender at a time, and none during closeConnection |
| MuxTheorems.ShardsInRange | connection.go:1080-1082 | a request finds the buffer of its shard, and the dirty-shard channel keeps to its capacity |
| MuxTheorems.ShutdownLosesNothing | connection.go:1526-1562 | when shutdown has passed its wait, the tables are empty and every accepted request is completed and counted |
| MuxTheorems.ShutdownAdmitsNobody | connection.go:913-942 | until that shutdown's closeConnection is over nobody registers and its clear fails nobody |
| MuxTheorems.ZeroCount | connection.go:993-1016 | in every state of every run requestCnt is 0 exactly if nothing is live, under way, on its way in or lost to an early return |
| MuxTheorems.ShutdownPassesExactly | connection.go:1539-1551 | a check lets shutdown pass exactly if the connection is still its own and all that is so |
| MuxWitness.ContextDoneRun | connection.go:944-951 | a run in which newFuture returns early with "context is done" |
| MuxTheorems.AbandonedBlocksShutdown | connection.go:944-951 | a request that returned early with "context is done" keeps requestCnt above zero for good |
| MuxTheorems.ClosedIsFinal | connection.go:650-664 | Closed is absorbing and conn.control is closed exactly once, when it is entered |
| MuxTheorems.ShutdownIsAttended | connection.go:1526-1562 | a connection that is shutting down has a shutdown goroutine in its loop, past its wait, or to be woken |
| MuxTheorems.OneDialer | connection.go:620-648 | a disconnected connection is dialed by exactly one loop of createConnection, and there are never two |
| MuxWitness.HandOverRun | connection.go:764-772 | a run in which the writer of a broken socket gives its dirty shard back and its successor takes it |
| MuxTheorems.ClosingExactly | connection.go:650-704 | the four ways into closeConnection, which of them close for good, and that an error of an old socket leaves its successor alone |
| MuxTheorems.ClosingEnds | connection.go:686-696 | it ends with every future completed and, unless the connection is closed, with dialing |
| MuxTheorems.SocketMatchesState | connection.go:549-554 | with the locks free conn.c is set exactly in Connected and Shutdown; tables are empty in Disconnected and Closed |
| MuxTheorems.SocketsAreYounger | connection.go:620-648 | a socket opened later belongs to a later session than any request registered before |
| MuxTheorems.WrittenWherePacked | connection.go:1026-1083 | bytes of a request are written only to a socket of the session in which it was packed |
| MuxTheorems.StaleExactly | connection.go:1026-1083 | a request is written to a socket opened after its registration exactly if a closeConnection has ended between its registration and its packing |
| MuxTheorems.StaleSendIsLate | connection.go:1026-1083 | a request registered before a socket was opened has bytes written to it, also by a write that fails midway, only if it has a context and was packed late |
| MuxTheorems.NoStaleSend | connection.go:1026-1083 | so a context-free request never has |
| MuxTheorems.LateOnlyAfterWatchdog | connection.go:979-991 | a request is packed late only while its watchdog has removed it and not yet set its error |
| MuxWitness.StaleContextRun | connection.go:1026-1036 | a run, under an honest server, that writes a request with a context to a later connection |
| MuxTheorems.NoPanicAfterFailedPack | connection.go:1045-1064 | the panic for a future removed without an error is unreachable under an honest server |
| MuxTheorems.FlushIsOwed | connection.go:746-784 | a non-empty shard buffer always has a dirty-shard token, a sender about to push one, or a writer that holds one |
| MuxPlaces.FrameIsSomewhere | connection.go:746-784 | the frame of a packed request, and of no other, is in a shard buffer, in a writer's hands, on the wire of a socket or dropped |
| MuxPlaces.FrameIsOnce | connection.go:746-784 | it is in one such place only |
| MuxPlaces.SentAtMostOnce | connection.go:746-784 | no request is sent twice, and none that was dropped is sent |
| MuxPlaces.LostOnlyBy | connection.go:674 | a frame is dropped only by closeConnection while it is buffered, or in a batch whose write fails |
| MuxPlaces.LiveIsOnItsWay | connection.go:1026-1083 | a live request whose send has ended has its frame on its way, unless its socket's write has failed or a close is about to fail it |
| FutureLists.FutureList.Add | connection.go:206-209 | the future goes last and the tail pointer addresses the nil link |
| FutureLists.FutureList.Find | connection.go:184-204 | the first future with the id; unlinked if fetch is set, with order, links and tail kept |
| FutureLists.FutureList.Clear | connection.go:211-220 | the list is detached, and every future on it is unlinked and failed unless done |
| FutureLists.FutureList.FailHead | connection.go:1147-1164 | one expired head is unlinked and failed, the others are untouched |
| FutureLists.FutureList.Expire | connection.go:1147-1164 | exactly a prefix with passed deadlines is popped and failed unless done; on a sorted list exactly what has expired |
| FutureLists.Refresh | connection.go:1098-1104 | a push to a future without a context moves it to the end of its list with a new deadline |
| FutureLists.Transfer | connection.go:1098-1104 | a push to a future with a context moves it to the end of another list |
| FutureLists.Peek | connection.go:1092-1110 | the whole call: without a timeout nothing changes, else one of those two; no other future is touched |
| FutureLists.PrefixIsExpired | connection.go:1147-1164 | on a sorted list an expired prefix before a live element is all that has expired |
| FutureLists.IndexOf | connection.go:184-204 | the first position of an id, or the length |
| Concurrency.FillBits | connection.go:371-376 | the shift loop fills every bit below the top one |
| Concurrency.RoundConcurrency | connection.go:371-376 | the result is a power of two not below the request, and half of it is below |
| Concurrency.SmallestPower | connection.go:371-376 | such a result is the smallest power of two not below the request |
| Concurrency.MaskIsRemainder | connection.go:1121-1126 | masking a word with any power of two less one gives the remainder |
| RequestTable.SlotOfWords | connection.go:1121-1126 | the shard and position that the masks give are those of the model |
| RequestTable.ParitySurvivesWrap | connection.go:1205-1215 | ids without a context stay even and ids with one odd through any number of wraps, and are looked up accordingly |
| RequestTable.IdsRepeatLate | connection.go:1205-1215 | an id comes back exactly after every 2^31 requests of its kind |
| RequestTable.LookupIsMap | connection.go:1120-1129 | looking up an id reads the map that the slots represent |
| RequestTable.ViewIsUnique | connection.go:1120-1129 | the slots determine that map |
| RequestTable.LiveIdsDistinct | connection.go:1205-1215 | fewer than 2^31 requests of a kind apart, two ids differ |
| RequestTable.RegisterIsUpdate | connection.go:951-958 | registration adds one entry to the map exactly if the id is not live |
| RequestTable.RepeatedIdIsShadowed | connection.go:1205-1215 | the 2^31-th further request of a kind has the id of the first, and while that is live no lookup finds it |
| RequestTable.RegisterFinds | connection.go:184-209 | what every id finds after a registration, also with an id that is still live |
| RequestTable.FetchIsRemove | connection.go:1112-1118 | fetching removes the id from the map and nothing else |
| RequestTable.ClearIsEmpty | connection.go:674-682 | clearing all slots leaves the empty map |
| RequestTable.PeekIsRead | connection.go:1092-1110 | a push to a request without a context, or without a timeout, leaves the map alone |
| RequestTable.PeekKeepsFindable | connection.go:1092-1129 | a push keeps a live request findable exactly if it has no context or no timeout is set |
| RequestTable.PushLosesContextRequest | connection.go:1092-1129 | the only request of an empty table, if it has a context and a timeout is set, is not found after a push |
| RequestTable.PeekSparesOthers | connection.go:1092-1110 | a push never changes what any other id finds |
| TimeoutSweep.SweepIsExact | connection.go:1147-1164 | popping the expired prefix of a sorted list removes exactly the expired entries and keeps order |
| TimeoutSweep.InvKept | connection.go:1131-1177 | lists stay sorted and the running minimum stays below what was visited, under every step |
| TimeoutSweep.RunInv | connection.go:1131-1177 | the same in every state of every run |
| TimeoutSweep.VisitRemovesExpired | connection.go:1131-1177 | in every run a visit removes exactly the futures whose registration and last push are more than the timeout before its shard's clock reading |
| TimeoutSweep.DatesAre | connection.go:954-957 | the date of a future is the time of its registration or of its last push |
| TimeoutSweep.IdleTimer | connection.go:1131-1177 | a sweep that finds nothing sets its timer for the whole timeout |
| TimeoutSweep.TimerIsEarlyEnough | connection.go:1131-1177 | after a sweep minNext is not above any deadline, also of requests added meanwhile |
| Futures.Future.AppendPush | future.go:131-142 | appends and wakes unless the future is done; never sends on a closed channel |
| Futures.Future.SetResponse | future.go:145-156 | sets the response and closes both channels unless done; never closes twice |
| Futures.Future.SetError | future.go:159-170 | the same for an error |
| Futures.AsyncResponseIterator.NextResponse | future.go:107-118 | the push at the position, or the response behind the last push |
| Futures.AsyncResponseIterator.Await | future.go:55-76 | the loop, whatever other goroutines do while it waits |
| Futures.AsyncResponseIterator.Next | future.go:49-92 | the whole call, with its waits, its decoding error and its last element |
| Futures.RunKeepsInv | future.go:49-170 | in every interleaving what was yielded is the stream up to the position, and a stop has its reason |
| Futures.YieldsPrefix | future.go:49-118 | the values yielded are a prefix of pushes followed by the response |
| Futures.ErrorAfterAllPushes | future.go:49-118 | the future's error shows only after every push |
| Futures.DoneMeansAll | future.go:84-90 | a finished iterator has yielded all, unless the response is also a push |
| Futures.StoppedForGood | future.go:49-53 | after the last response or an error Next stays false whatever happens |
| Futures.NextTakesNext | future.go:49-92 | a call with something left yields the next element of the stream |
| Futures.WaitYieldsArrival | future.go:55-76 | a call that waits with nothing left is woken by what arrives and yields the first of it, unless its timer fires |
| Futures.ZeroTimeoutReturns | future.go:64-66 | with a zero timeout a call does not wait |
| Futures.TimerEnds | future.go:68-73 | a call whose timer fires yields nothing, even if something has just arrived |
| Futures.WaitYieldsPush | future.go:131-142 | in particular a push |
| Futures.ReadsAllExactly | future.go:49-118 | reading on yields everything exactly if no push still to come is the response object |
| Futures.SharedResponseEndsEarly | future.go:84-90 | a push that is the response object itself ends the iteration before the response |
| WatchCell.InvKept | connection.go:1311-1365 | every step of subscribe, unregister, events and re-subscription keeps the cell invariant |
| WatchCell.RunInv | connection.go:1423-1491 | it holds in every state of every run |
| WatchCell.ReadyCellCountsWatchers | connection.go:1311-1365 | a ready entry counts exactly its attached watchers and is the one in the map |
| WatchCell.NobodyAttachesAfterZero | connection.go:1465-1491 | nobody is ever attached to an entry after its count reached zero |
| WatchCell.LastDetachRetires | connection.go:1467-1473 | the last watcher to leave retires the entry |
| WatchCell.DeleteRemovesOwnEntry | connection.go:1475-1484 | Delete removes the entry of the call that issues it |
| WatchCell.UnwatchOnlyAtZero | connection.go:1466-1485 | UNWATCH is issued only when no watcher of the key is attached and no other call is subscribing |
| WatchCell.AcknowledgedOnce | connection.go:1450-1464 | the watchers together acknowledge each event at most once, also across reconnects and version wraps; the WATCH that dial sends on a reconnect is not counted |
| WatchCell.AcknowledgesNewest | connection.go:1450-1464 | a watcher that comes back from the callback for the newest event leaves it acknowledged |
| WatchCell.AcknowledgesExactly | connection.go:1450-1464 | and sends the WATCH itself exactly if neither a watcher nor a reconnect has sent one for the event |
| WatchCell.AcknowledgesOnlySeen | connection.go:1450-1464 | a WATCH is sent only for the newest event, by a watcher whose last callback was for it or for one whole turns of 2^64 - 1 before |
| WatchCell.AcknowledgedExactly | connection.go:1450-1464 | the newest event counts as acknowledged exactly if a watcher or a reconnect has sent its WATCH |
| WatchCell.SameVersionExactly | connection.go:876-881 | two events have the same version exactly if they are whole turns of 2^64 - 1 apart |
| WatchCell.ResubscribesWatched | connection.go:524-542 | a reconnect sends the WATCH of a key only while somebody is attached to it |
| WatchWitness.WholeRun | connection.go:1311-1491 | a run of two watchers in which one event is called back to both and acknowledged once |
| WatchCell.AcknowledgedForGood | connection.go:1450-1464 | an event that a watcher has acknowledged is acknowledged by no watcher again |
| WatchCell.ReconnectAcknowledges | connection.go:524-542 | after the WATCH of a reconnect no watcher ever acknowledges an event up to the newest of that moment |
| WatchCell.Version | connection.go:871-893 | the version never is 0 again after the first event |
| RoundRobin.RoundRobinStrategy.GetConnByAddr | connection_pool/round_robin.go:26-36 | the connection at the position of the address, or none |
| RoundRobin.RoundRobinStrategy.AddConn | connection_pool/round_robin.go:93-104 | a known address keeps its position, a new one goes last; the index stays a bijection |
| RoundRobin.RoundRobinStrategy.DeleteConnByAddr | connection_pool/round_robin.go:38-64 | the address leaves, the order of the others and the bijection stay |
| RoundRobin.RoundRobinStrategy.GetNextConnection | connection_pool/round_robin.go:73-81 | the connection at the counter modulo the size; the counter wraps at 2^64 |
| RoundRobin.IndexAfterDelete | connection_pool/round_robin.go:54-60 | the shifted index map spells the shortened list |
| RoundRobin.AddIsUpdate | connection_pool/round_robin.go:93-104 | seen as a map from address to connection, adding is an update |
| RoundRobin.DeleteIsRemove | connection_pool/round_robin.go:38-64 | and deleting is a removal |
| CounterRace.IndexInRange | connection_pool/round_robin.go:73-110 | in every interleaving of calls and changes of the pool each call indexes inside the pool |
| CounterRace.SequentialExactly | connection_pool/round_robin.go:106-110 | the calls read the counter as sequential ones exactly if no call starts while another one is between its first read and its write |
| CounterRace.InTurnHits | connection_pool/round_robin.go:106-110 | such calls are spread over the positions as the sequential ones are |
| CounterRace.OverlapRun | connection_pool/round_robin.go:106-110 | a run in which two calls get the same connection and the counter advances once |
| Fairness.FairExactly | connection_pool/round_robin.go:73-110 | k * n calls return each of n positions k times exactly if the counter does not wrap among them, or n divides its range, or it wraps once from a start congruent to that range |
| Fairness.FairWithoutWrap | connection_pool/round_robin.go:73-110 | with 64 bits, from any counter that does not wrap |
| Fairness.UnfairAcrossWrap | connection_pool/round_robin.go:106-110 | three calls across the wrap of the counter that are not fair |
| PoolStore.ConnectionPool.GetConnectionFromPool | connection_pool/connection_pool.go:786-796 | the stored connection with the role under which it is stored |
| PoolStore.ConnectionPool.DeleteConnection | connection_pool/connection_pool.go:798-812 | the address leaves anyPool and the one pool of its role, nobody watches it any more, and nothing else changes |
| PoolStore.ConnectionPool.CloseOne | connection_pool/connection_pool.go:210-224 | one turn of closeImpl: the address leaves the pools and is deactivated with the role under which it was stored |
| PoolStore.ConnectionPool.AddConnection | connection_pool/connection_pool.go:814-855 | stored in anyPool and the pool of its role and watched by exactly the watchers of that role; or the first that refuses it undoes those before it and nothing is stored |
| PoolStore.ConnectionPool.Watch | connection_pool/connection_pool.go:820-846 | succeeds exactly if no watcher of the role refuses; then all of them watch |
| PoolStore.EachWatcher | connection_pool/connection_pool.go:820-846 | which watchers an address is added to or taken from |
| PoolStore.FollowsPools | connection_pool/connection_pool.go:820-832 | then a watcher of mode RW watches what is in rwPool, one of mode RO what is in roPool, and others everything |
| PoolStore.AddKeepsFollow | connection_pool/connection_pool.go:814-855 | adding keeps every watcher on exactly the stored connections of its mode |
| PoolStore.DeleteKeepsFollow | connection_pool/connection_pool.go:798-812 | so does deleting |
| PoolStore.FailureKeepsFollow | connection_pool/connection_pool.go:838-846 | a failed addition of an address that is not stored leaves every watcher as it was |
| PoolProofs.RunInv | connection_pool/connection_pool.go:798-1091 | the pool invariant holds in every state of every run |
| PoolProofs.PoolsArePartitioned | connection_pool/connection_pool.go:798-855 | rwPool and roPool are disjoint and inside anyPool with the same connections |
| PoolProofs.CheckerMatchesPools | connection_pool/connection_pool.go:1056-1091 | between its steps a checker's conn and role are what the pools hold for its address, also when they hold nothing |
| PoolProofs.StartsWithSomebody | connection_pool/connection_pool.go:141-160 | the pool starts its checkers exactly if some connection is stored, and is closed otherwise |
| PoolProofs.HandlersArePaired | connection_pool/connection_pool.go:35-58 | for each connection and role Deactivated never outnumbers Discovered, and at most one is outstanding |
| PoolProofs.RefusedIsNeverDeactivated | connection_pool/connection_pool.go:857-883 | a connection that was only refused is never deactivated |
| PoolProofs.EverythingIsDeactivated | connection_pool/connection_pool.go:207-239 | when Close is done and the checkers have stopped, every Discovered has had its Deactivated |
| PoolProofs.DeactivatePaysDue | connection_pool/connection_pool.go:936-1036 | a checker calls Deactivated for exactly the pair that is due |
| PoolProofs.DiscoverMakesDue | connection_pool/connection_pool.go:857-870 | a successful Discovered makes its pair due, a refused one nothing |
| PoolProofs.SwitchTakesEffect | connection_pool/connection_pool.go:936-984 | after a role change the handler is told the new role of the same connection, and it is stored under the new role |
| PoolProofs.OpenedIsStored | connection_pool/connection_pool.go:986-1036 | the same for a connection that tryConnect has opened |
| PoolProofs.StoresWhatItBrings | connection_pool/connection_pool.go:848-853 | what is stored is in anyPool and in the pool of that role and no other |
| PoolWitness.WholeRun | connection_pool/connection_pool.go:936-1091 | a run of an address whose server becomes master, breaks, is connected again and is closed with the pool |
| PoolWitness.UnchangedRun | connection_pool/connection_pool.go:936-944 | a run in which a check finds the role unchanged and changes nothing |
| PoolWitness.FailedWatcherRun | connection_pool/connection_pool.go:969-976 | a run in which a watcher fails and the connection with the new role is deactivated |
| PoolProofs.CloseOnePairs | connection_pool/connection_pool.go:207-229 | closeImpl deactivates what is due, with the role under which it is stored |
| PoolProofs.FillDue | connection_pool/connection_pool.go:885-934 | the handler calls of fillPools, and that its failure of addConnection cannot happen |
| MsgPack.Skip | response.go:139-142 | skipping uses up at least one byte |
| MsgPack.SkipAppend | response.go:139-142 | a value delimits itself: what follows does not change how it is skipped |
| MsgPack.MapIsSkipped | response.go:139-142 | a map of n entries is skipped with its 2 * n keys and values and nothing else |
| MsgPack.ArrayIsSkipped | response.go:139-142 | an array with its elements |
| MsgPack.IntIsSkipped | response.go:139-142 | what is read as a number is skipped as that number |
| MsgPack.NumbersRead | response.go:103-113 | each number of one to eight bytes is read as what its bytes spell, big-endian, and the signed ones in two's complement |
| MsgPack.FixintReads | response.go:103-113 | and those of one byte, from -32 to 127 |
| MsgPack.HeadsAre | response.go:115-142 | with which first bytes a number, a length or a text can begin |
| MsgPack.BinaryReads | box_error.go:103-106 | binary data is read as a text |
| MsgPack.SizesDouble | response.go:139-142 | the sizes of numbers and fixed extensions |
| MsgPack.ValueRoundTrip | box_error.go:142-145 | a value is read back whole from in front of anything |
| MsgPack.MapLenRoundTrip | box_error.go:177-179 | a map length is read back, in each of its three formats |
| MsgPack.ArrayLenRoundTrip | box_error.go:184-187 | an array length likewise |
| MsgPack.StringRoundTrip | box_error.go:205-207 | a string likewise, in each of its four formats |
| Buffers.SmallBuf.Read | smallbuf.go:13-24 | up to n bytes are taken off the unread ones, or the end is reported |
| Buffers.SmallBuf.ReadByte | smallbuf.go:26-33 | one byte is taken off |
| Buffers.SmallBuf.UnreadByte | smallbuf.go:35-41 | undoes ReadByte |
| Buffers.SmallBuf.Seek | smallbuf.go:58-67 | the cursor moves only inside the buffer |
| Buffers.SmallWBuf.Trunc | smallbuf.go:98-100 | the buffer keeps its first bytes |
| Buffers.SmallWBuf.Reset | smallbuf.go:102-112 | the buffer is empty; the average is over at most sixteen uses, and a capacity far above it is given back |
| Frames.Pack | connection.go:570-618 | appends one frame, or on a failing body leaves what was there in front |
| Frames.HeaderMapIs | connection.go:577-603 | the header map of a packed request is its code, its id, and its stream id exactly if that is not 0, for every 64-bit stream id; the body follows |
| Frames.PingIs | connection.go:570-618 | two pings byte by byte, one of them in a stream |
| Frames.PutRequest | connection.go:1028-1045 | a failed body leaves no trace; the shard becomes dirty exactly with its first frame |
| Frames.Read | connection.go:1180-1203 | takes one frame off the stream, or fails on a wrong code, a zero length or a short stream |
| Frames.Response.SmallInt | response.go:103-113 | the shortcut for one-byte integers reads what the decoder would |
| Frames.Response.DecodeHeader | response.go:115-146 | id and code are set from the map, other keys are skipped, and the cursor stands at the body |
| Frames.ShiftedIsU32 | connection.go:611-615 | the four shifted and cut bytes are the big-endian length |
| Frames.FrameReads | connection.go:570-618 | a frame is read back whole exactly if its payload is shorter than 2^32 |
| Frames.LongFrameIsMisread | connection.go:599-615 | a payload of more than 2^32 bytes is not read back |
| Frames.HeaderReads | response.go:115-146 | the header of a packed request gives its id and code back for every 64-bit stream id and leaves the body, if the code is one byte of MessagePack |
| Frames.OthersAreMisread | connection.go:570-618 | for every other code there is a request that is read back wrongly or not at all |
| Frames.CodesSurviveExactly | connection.go:570-618 | so a code is read back in every request exactly if it is one byte of MessagePack |
| Frames.BufferedAppend | connection.go:1041-1047 | each request extends the concatenation of frames by its own frame or nothing |
| Frames.FramingRoundTrip | connection.go:570-618 | repeated reading gives exactly the ids, codes, stream ids and bodies of the successful packs, in order |
| Frames.PrefixReceivesPrefix | connection.go:1180-1203 | of any stream cut anywhere, a prefix of its messages is received |
| BoxErrorFormat.ItemReads | box_error.go:96-160 | each key of an error, with its value, is read back |
| BoxErrorFormat.KeysAre | box_error.go:10-19 | the byte of each key as it is written |
| BoxErrorFormat.AttributesByKey | box_error.go:101-130 | and as it is read |
| BoxErrorFormat.ErrorReads | box_error.go:190-262 | one error of six or seven keys is read back, in any order of its fields |
| BoxErrorFormat.StackRoundTrip | box_error.go:72-269 | decoding a written stack gives the same errors, empty fields gone, and leaves exactly what follows |
| BoxErrorFormat.StackBegins | box_error.go:177-187 | a written stack begins with a map of one entry and the key 0 |
| BoxErrorFormat.SampleReads | box_error.go:72-170 | eight bytes and the stack they are read as |
| BoxErrorFormat.PanicsExactly | box_error.go:72-170 | decoding panics exactly if, behind entries that can be read, an entry of the outer map has a nil for its stack |
| BoxErrorFormat.NilStackPanics | box_error.go:84-90 | three bytes on which it does |
| BoxErrors.Depth | box_error.go:60-70 | the number of errors linked by Prev |
| BoxErrors.EncodeBoxError | box_error.go:172-269 | refuses nil, and otherwise writes the format with an array as long as the chain |
| BoxErrors.MarshalMsgpack | box_error.go:290-299 | the bytes of a chain decode to the same chain and nothing is left over |
| BoxErrors.DecodeAttribute | box_error.go:101-160 | one key is decoded into the error in place |
| BoxErrors.DecodeErrors | box_error.go:88-166 | the errors of an array are decoded in place and linked in order |
| BoxErrors.DecodeBoxError | box_error.go:72-170 | a chain that is exactly the stack the bytes spell, an error, or a panic |
| BoxErrors.UnmarshalMsgpack | box_error.go:273-287 | the receiver takes the place of the first error of that chain, or is left alone by an error or a panic |
| BoxErrors.RoundTrip | box_error.go:273-299 | a chain that is written and read into any error is the same chain, empty fields gone |
| Bcd.GetNumberLength | decimal/bcd.go:79-98 | the number of digits from the first that is not zero, 1 for a zero, 0 for no text |
| Bcd.EncodeStringToBCD | decimal/bcd.go:107-177 | the encoder, byte by byte and error by error, without an index out of range |
| Bcd.EncodedIs | decimal/bcd.go:107-177 | it fails exactly on a bad symbol, with the fault of the first; else scale and packed nibbles |
| Bcd.DecodeStringFromBCD | decimal/bcd.go:186-258 | the decoder on any buffer of at least two bytes |
| Bcd.UnpackPack | decimal/bcd.go:136-172 | nibbles are unpacked as they were packed |
| BcdRoundTrip.EncodedShape | decimal/bcd.go:107-177 | success exactly on well-formed texts, with 2 + l / 2 bytes and the sign in the last low nibble |
| BcdRoundTrip.TextRoundTrip | decimal/bcd.go:107-258 | a text survives exactly if it is canonical, has at most 255 fraction digits and is no negative zero |
| BcdRoundTrip.NegativeZeroIsLost | decimal/bcd.go:107-258 | the text "-0" does not survive |
| BcdRoundTrip.SignIsRead | decimal/bcd.go:56-63 | the sign nibbles that the decoder takes for a minus |
| BcdRoundTrip.SamplesAre | decimal/bcd.go:107-177 | three texts and their bytes |
| BcdRoundTrip.BufferRoundTrip | decimal/bcd.go:107-258 | a buffer survives exactly if it is canonical |
| BcdRoundTrip.NumberReads | decimal/bcd.go:107-177 | what the decoder writes is canonical and reads back to its sign, digits and scale |
| BcdRoundTrip.DecodedIsNumber | decimal/bcd.go:186-258 | packed digits decode to their normal form, with zeroes and the point where they belong |
| Months.DaysInMonth | datetime/datetime.go:141-155 | the length of the month, also across the year end |
| Months.MonthsAreGregorian | datetime/datetime.go:141-155 | the days before each month are those of the closed form for the Gregorian calendar |
| Months.LengthIsDistance | datetime/datetime.go:141-155 | the length of a month is the distance of its first day to that of the next |
| Months.DayZeroIsDayBefore | datetime/datetime.go:149-154 | day 0 of a month is the day before its first by day number |
| Months.Interval.AddMonth | datetime/datetime.go:159-180 | truncating division, its correction and the adjustment move the date along the calendar |
| Months.Moved | datetime/datetime.go:159-180 | year * 12 + month moves by exactly delta and the month stays in 1..12 |
| Months.MovesByDelta | datetime/datetime.go:163 | the month moves by delta exactly if the 64-bit sum does not wrap |
| Months.LargestDeltaWraps | datetime/datetime.go:163 | adding the largest 64-bit delta does not move the month by it |
| Months.StaysInMonth | datetime/datetime.go:172-179 | the day stays, or becomes the last of a shorter month |
| Months.ExcessKeepsDay | datetime/datetime.go:168-171 | ExcessAdjust leaves the day alone |
| Months.LastStaysLast | datetime/datetime.go:172-179 | LastAdjust keeps a last day last |
| Months.AdditiveExactly | datetime/datetime.go:159-180 | a then b equals a + b exactly if the month between does not shorten or capture the day |
| Months.NotAdditiveExample | datetime/datetime.go:159-180 | one month twice from the end of January is not two months |
| Months.AlwaysAdditive | datetime/datetime.go:159-180 | which is always so for ExcessAdjust, for days below 28 and for last days under LastAdjust |
| Months.UndoneExactly | datetime/datetime.go:159-180 | subtracting undoes adding exactly under the same condition |
| Months.DeltaIsMonths | datetime/datetime.go:192 | years and months are added or subtracted as one number of months |

## Left out

- Sockets, TLS, dialing, greeting, authentication, `pinger`, `notify` and logging: I/O and unseen libraries.
- Liveness: condition variables, timers and full channels are modelled as steps that may happen, never as
  steps that must. The properties are safety over runs.
- The wire order of WATCH and UNWATCH across shards: async requests complete once they are buffered, so
  only the order of issue is decided here.
- `RLimitWait`, where a send can leave without a token, and context requests that receive pushes, beyond
  what `RequestTable.PeekKeepsFindable` and `RequestTable.PeekSparesOthers` say about them.
- MuxTheorems.RateLimited: states the bound for `RLimitDrop` only, since a token taken before a
  rejection is not given back and so tokens can exceed live futures.
- The two arrays of lists of a shard as mutable state: `FutureLists` has one list on the heap,
  `RequestTable` the contents of all lists as a value.
- The event loop of a watcher as a promise: a callback may miss versions that pass while it runs, so
  nothing is said about events being delivered, only about counts, deletion and acknowledgement.
- Pool watchers in `Pool`: `NewWatcher` runs without `poolsMutex`, so only the fact that some watcher
  exists is kept there; `PoolStore` has a fixed list of them, without `NewWatcher` and `Unregister`.
- RoundRobin.RoundRobinStrategy.GetNextConnection: one call alone; `CounterRace` has concurrent calls, with
  accesses to the counter that take effect one after another.
- WatchCell.AcknowledgedOnce: counts what watchers send; the WATCH of `dial` on a reconnect may repeat an
  acknowledgement, and `WatchCell.ReconnectAcknowledges` says what it does to later ones.
- Months.Interval.AddMonth: takes the length of a month from the calendar for every year, while the
  seconds inside `time.Date` overflow for years beyond some 10^11, far outside a Datetime.
- Typed decoding of values: a value of an `interface{}` is known by its bytes, and the response to
  `AppendPush` by its identity.
- Futures that were not made by `NewFuture` and so have no channels, and more than 10^9 unread wake-ups.
- Running out of memory, as on an array length that no bytes back up.
- Extension headers in front of lengths, and the size limits of the MessagePack library.
- Time zones, `time.Date` beyond day 0 of a month, and the other fields of an interval: data or foreign code.
- crud, settings, queue, stream and request builders, `ConnectorAdapter` and the deprecated multi
  connection: thin wrappers with easy properties.
