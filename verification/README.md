# Verification of the warm pool and of exec's writers

This project models two concurrent parts of the sandbox package and proves what they keep under every interleaving.

**The autoscaling warm pool** (`pkg/sandbox/pool.go`). Any number of `Run` callers, any number of `Close` callers, the
goroutine inside `NewPool` and the reaper share the registry `all`, the channel `idle`, the flag `closed` and two
handshake channels. None of the interesting operations is atomic, and nothing waits for a `Run` in flight.

- `Protocol.dfy` is the pool as a step machine, one step per atomic region of the source, for an arbitrary
  configuration. A state is the shared memory and a program counter per goroutine. What the source leaves to the outside
  (whether a container starts, whether a holder is healthy after a run, when a caller's context ends, when a tick comes)
  is an argument of a step, so every answer at every moment is covered. Time is a clock that only moves forward.
- `Invariants.dfy` proves the inductive invariant. `Ownership.dfy`, `Shutdown.dfy`, `Containers.dfy`, `Panics.dfy`,
  `SecondClose.dfy`, `Progress.dfy`, `Waiters.dfy`, `Tallies.dfy`, `Construction.dfy` and
  `Reaping.dfy` draw the conclusions, each for
  all reachable states or all continuations of one.
- `Pool.dfy` is the code: a class with the struct's fields, and a method for each Go function with its loops. Between
  two atomic regions a method calls `Interfere`, which lets the other goroutines take the steps that an arbitrary
  schedule lists. Every operation that returns normally is shown to perform a run of the step machine
  (`Valid() && Leads(old(View()), View())`), so all theorems about reachable states hold of the object; with an empty
  schedule the contracts say in addition exactly what the method alone does. Under a busy schedule they speak of the
  trace, the list of all steps so far, which `Valid()` ties to the object's state: `Acts(t)` is what goroutine t did in
  it and where it stood each time (`Deeds.dfy`), so an answer is tied to the regions that the caller went through.
  `Interference.dfy` says what a goroutine can rely on while others move.
- `Traces.dfy` constructs runs of the machine in which the plain form of a promise fails.

**The shut-off writers of `exec`** (`pkg/sandbox/syncwriter.go`, `pkg/sandbox/poolk8s.go`). `SyncWriter.dfy` has the
class and the histories its lock produces, `K8sExec.dfy` has `exec` over two such objects, and `Streaming.dfy` has both
as a machine with one step per lock operation and per byte, where calls leaked by the stream library go on after `exec`
has returned.

## How the model reads the source

- A holder's address is an id, and the map `heap` is memory; `impl == nil` is `!built`. Calls on an impl are recorded in
  the holder (`calls`), and its `close` calls are counted apart for release and drop (`ownerCloses`) and for Close
  (`teardowns`).
- A region is what runs under one critical section, or one channel operation, with the thread-local work next to it.
  Three pairs are merged because they share nothing but the clock: a failing `newImpl` and the delete after it; in
  `createHolder`, building and stamping the holder and its registration; in `reapIdle`, the receive and the look at
  `lastUsed` of the holder just received. So a clock tick between the stamp and the registration in `createHolder`
  (pool.go:149-150) is not modelled: a holder is stamped at the moment it is registered.
- A method call on a nil impl, and closing a closed channel, are steps to a state with a panic, from which nothing moves.
  The methods of class `Pool` are about processes that survive: `Interfere` skips a step of another goroutine that would
  panic, and `Close` reports its own panic as a result.
- The log fields are history: deaths, failed scale-ups, the registry when `closed` was set, what Close snapshotted,
  drained and closed, and the holders handed out after `closed` was set.

## Where the code and its comments differ

The model follows the code. Each difference has a run that shows it and, beside it, the exact condition.

- "never dropping the live count below Min" (pool.go:258, 282): `Traces.BelowMin`. A step goes below Min exactly if it
  takes a holder away while just Min are registered (`Progress.BelowMinIff`); what is missing is accounted for by deaths
  and failed scale-ups (`Progress.MinFloor`).
- "All methods are called with the owning holder's mutex held" (pool.go:21-22): `Traces.ClosedWhileRunning`. It is true
  exactly of the calls that neither the reaper nor Close makes (`Ownership.CallsLockedIff`). Mutual exclusion of
  workloads comes from who has received the holder (`Ownership.OwnershipPartition`).
- A closed pool rejects runs (pool_test.go:146): `Traces.RunAfterClose`. It can still hand out a holder exactly if one
  is idle, about to be sent to `idle`, or being built (`Shutdown.LateAcquireIff`), and does so at most Max times
  (`Shutdown.BoundedShutdown`); if no Run overlaps Close, never (`Shutdown.QuietClose`).
- "Runs beyond Max block until a holder frees" (pool.go:41-42): `Traces.WaiterStranded`. A waiter can still be served
  exactly if `Waiters.WaiterServedIff` finds a thread that may yet send a holder.
- "Max holders under load" (pool.go:41) bounds registered holders, not containers: `Traces.TwoContainersAtMaxOne`.
  Until Close has its snapshot, containers outnumber Max exactly if more closes are under way than there are free slots
  and reservations (`Containers.UpCounted`). Afterwards `Containers.UpAfter` says exactly which are up, and
  `Containers.UpBoundedAfter` that they are at most Max and the closes under way.
- Close "tears down every holder" (pool.go:308), but a reservation has no impl yet: `Traces.NilImplClosed`. From the
  moment `closed` is set, `Panics.ClosePanicIff` says exactly when that can still happen.
- "draining just empties the channel" (pool.go:334-335) keeps Close from closing twice, but release may close what Close
  has closed: `Traces.ClosedTwice`, exactly for the holders of `SecondClose.SecondCloseIff`. close is idempotent by
  contract (pool.go:31).
- "youngest-idle not old enough" (pool.go:301): the holder at the head has waited longest in the queue, which after a
  put-back says nothing about the others: `Traces.OnePassIncomplete`. One call is complete exactly if the expired holders
  stand together at the head, or enough of them to reach Min (`Reaping.PassCompleteIff`); as many calls as there are
  idle holders always are (`Reaping.ReaperComplete`).

## Model

| member | source | states |
|---|---|---|
| Configs.Normalize | pkg/sandbox/pool.go:49-60 | Succeeds exactly for Min >= 0 with Min <= max(Max, 1); then only a Max below 1 changes, to 1; which of the two errors otherwise |
| Invariants.InvStep | pkg/sandbox/pool.go:89-352 | Every atomic region of every goroutine, and every tick and new call, keeps the invariant |
| Invariants.ReachableInv | pkg/sandbox/pool.go:89-352 | The invariant holds in every reachable state, for every configuration, number of goroutines and interleaving |
| Ownership.OwnershipPartition | pkg/sandbox/pool.go:142-255 | No holder is in two places (idle twice, idle and held, held twice); until Close's snapshot `all` is exactly the holders idle, held or reserved; two Runs never execute on one holder, also after Close |
| Ownership.CapacityBound | pkg/sandbox/pool.go:325-342 | Idle, held and reserved holders together number at most Max in every reachable state, also when Close has emptied `all` |
| Ownership.SendsNeverBlock | pkg/sandbox/pool.go:136-208 | Each of the three sends on `idle` finds room whenever its goroutine stands at it |
| Ownership.ReservationsHidden | pkg/sandbox/pool.go:171-184 | A holder without impl is not idle, is in its builder's hands only, and nothing has been called on it |
| Ownership.PanicsOnlyInTearDown | pkg/sandbox/pool.go:320-347 | A step panics if and only if it is Close's teardown loop reaching a nil impl; so no channel is closed twice |
| Ownership.DeadNeverAcquired | pkg/sandbox/pool.go:236-239 | A holder that acquire has returned is not dead: the guard in Run is never taken |
| Ownership.DeadForever | pkg/sandbox/pool.go:244-251 | Over every continuation a dead holder is not idle, is at most about to be dropped, and nothing but close is called on it |
| Ownership.HygieneTrace | pkg/sandbox/pool.go:241-253 | Calls on an impl are a prefix of (run, cleanup, check)*, ending at the first failed check; dead exactly if it failed |
| Ownership.CallsGrow | pkg/sandbox/pool.go:225-255 | No step of any goroutine takes a call out of a holder's history |
| Ownership.WorkloadStartsClean | pkg/sandbox/pool.go:233-253 | A workload starts on a fresh holder or directly after a cleanup and a passed check |
| Ownership.NoCallAfterClose | pkg/sandbox/pool.go:233-253 | No run, cleanup, check or second close by release or drop comes after such a close; before Close starts, after any close |
| Ownership.CallsLockedIff | pkg/sandbox/pool.go:21-22 | A call on an impl is made with its holder's mutex held, and by nobody else, if and only if the caller is neither the reaper nor Close |
| Shutdown.CloseCounts | pkg/sandbox/pool.go:198-220 | Until Close's snapshot every impl is closed at most once, afterwards at most twice, and twice only if snapshotted and not drained; what is drained was snapshotted |
| Shutdown.NoLeak | pkg/sandbox/pool.go:309-352 | When Close and all Runs have returned, every impl ever created has been closed, no mutex is held and nothing is registered |
| Shutdown.HandoutsCounted | pkg/sandbox/pool.go:158-194 | After `closed` is set, the handout log grows by exactly the holders that acquire returns |
| Shutdown.BoundedShutdown | pkg/sandbox/pool.go:158-209 | Over all callers and all time at most Max acquires return a holder after `closed` is set, each a different one registered at that moment |
| Shutdown.ClosedForever | pkg/sandbox/pool.go:165-176 | Over every continuation no holder is reserved or created once `closed` is set |
| Shutdown.LateAcquireIff | pkg/sandbox/pool.go:158-209 | In every closed, published state some continuation hands out a holder if and only if one is idle, or a thread is about to send one to `idle`, or is building one |
| Shutdown.QuietClose | pkg/sandbox/pool.go:309-343 | If no Run overlaps Close, then after it every later acquire fails and creates nothing, over every continuation |
| Panics.ClosePanicIff | pkg/sandbox/pool.go:309-347 | From the moment `closed` is set, in every state: some continuation panics if and only if, before the snapshot, some acquire is building a holder, or, after it, an unreached holder of the snapshot has no impl |
| Containers.UpIff | pkg/sandbox/pool.go:196-220 | Until Close's snapshot an existing impl is unclosed if and only if its holder is registered or some thread is about to close it |
| Containers.UpCounted | pkg/sandbox/pool.go:165-220 | Until the snapshot, unclosed impls plus reservations equal registered holders plus closes under way; so they outnumber Max if and only if the closes under way outnumber free slots plus reservations |
| Containers.UpAfter | pkg/sandbox/pool.go:198-220 | After the snapshot an impl outside it is unclosed if and only if some thread is about to close it; one inside if and only if Close has not reached it and it is idle, drained, dead, or in some thread's hands |
| Containers.UpBoundedAfter | pkg/sandbox/pool.go:325-347 | After the snapshot the unclosed impls are at most those Close has yet to reach, Max at most, plus the closes under way of others |
| SecondClose.SecondCloseIff | pkg/sandbox/pool.go:198-206 | After the snapshot, release can still close a holder of it, a second time if Close has reached it, if and only if the holder is idle or in the hands of a thread that is not dropping it |
| Progress.NoThreadStuck | pkg/sandbox/pool.go:89-352 | Every goroutine can move, or receives from an empty `idle`, or waits for one that can move: the Run about to unlock its holder, or the reaper about to close reaperDone |
| Progress.WaitersAreServed | pkg/sandbox/pool.go:165-194 | Without reaping, deaths, failed scale-ups and Close: while a Run waits, Max holders are registered, and the keeper of each is another goroutine that can move or only waits for the unlock of one that can |
| Progress.StuckIff | pkg/sandbox/pool.go:188-193 | Nothing but the reaper and cancellations can move if and only if everybody else is a Run waiting on an empty `idle` or the closer waiting for the reaper |
| Progress.StuckForGood | pkg/sandbox/pool.go:188-193 | Nothing at all but cancellations can happen if and only if all goroutines are Runs waiting on an empty `idle`; then no holder is left in circulation and some were lost |
| Waiters.WaiterServedIff | pkg/sandbox/pool.go:165-220 | With or without a reaper: the calls under way can still give a waiting Run a holder if and only if one is idle; or, in an open pool, another Run has not come to its wait or someone has a holder that is not being dropped; or, in a closed pool, someone is about to send one |
| Waiters.NewRunServes | pkg/sandbox/pool.go:165-194 | In an open pool one more call of Run makes it possible again to serve any waiter |
| Progress.MinFloor | pkg/sandbox/pool.go:283-306 | Until Close, registered holders plus deaths plus failed scale-ups are at least Min, and more than Min while the reaper is between its count and its drop; without deaths and failures never below Min |
| Tallies.CountsAreExact | pkg/sandbox/pool.go:171-251 | The two losses in MinFloor are exact: deaths is the number of dead holders that no thread is about to drop, failed the number of holders without impl that nobody is building |
| Progress.BelowMinIff | pkg/sandbox/pool.go:171-220 | An open pool goes from at least Min to fewer if and only if a registered holder is dropped, or a scale-up fails, at exactly Min |
| Construction.NewPoolSucceeds | pkg/sandbox/pool.go:130-139 | When NewPool returns a pool: exactly Min distinct holders, live, never used, never closed, all registered and all idle, and no others |
| Construction.NewPoolFails | pkg/sandbox/pool.go:130-135 | When NewPool has failed: closed, nothing registered, nothing idle, and every impl it created closed exactly once |
| Construction.NewPoolNeverPanics | pkg/sandbox/pool.go:133-134 | No step before NewPool returns panics: its own Close never meets a reservation |
| Construction.ReaperDropsNothing | pkg/sandbox/pool.go:119-137 | The reaper running during the fill changes neither `all` nor `idle` nor any holder |
| Reaping.StaleStep | pkg/sandbox/pool.go:198-199 | No step of any goroutine adds to the registered holders expired at a given past moment |
| Reaping.StaleShrinks | pkg/sandbox/pool.go:283-306 | The same over every continuation: what a reapIdle can still drop only shrinks |
| Reaping.PassDropsAllStale | pkg/sandbox/pool.go:283-306 | If all idle holders have expired, one undisturbed call leaves max(Min, live - idle) holders, keeping the tail of the queue |
| Reaping.PassShape | pkg/sandbox/pool.go:285-305 | One undisturbed call drops a stale prefix, never below Min, and puts the first holder that has not expired at the tail |
| Reaping.PassCompleteIff | pkg/sandbox/pool.go:285-305 | One undisturbed call gets rid of everything stale, or reaches Min, if and only if the stale holders stand together at the head of the queue or enough of them do to reach Min |
| Reaping.PassesKeepFresh | pkg/sandbox/pool.go:300-303 | No sequence of calls drops a holder that has not expired |
| Reaping.ReaperComplete | pkg/sandbox/pool.go:272-306 | As many undisturbed calls as there are idle holders drop everything expired at the first, unless Min is reached first |
| Reaping.RoundsGrow | pkg/sandbox/pool.go:300-300 | At later ticks at least the same holders have expired |
| PoolObject.NewPool | pkg/sandbox/pool.go:89-140 | Which of its errors comes when, and of the two configuration errors which; the configuration that the pool keeps; without an error, Min distinct live holders all idle; on a failed create, a closed and empty pool and every impl closed once |
| PoolObject.Pool.constructor | pkg/sandbox/pool.go:109-128 | The initial state: reaper running, or reaperDone closed at once when there is no timeout |
| PoolObject.Pool.Fill | pkg/sandbox/pool.go:130-139 | Succeeds if and only if no create fails, with exactly Min holders; else everything is closed |
| PoolObject.Pool.CreateHolder | pkg/sandbox/pool.go:142-154 | A fresh built holder stamped now and registered, or nothing changed |
| PoolObject.Pool.Acquire | pkg/sandbox/pool.go:156-194 | Under every schedule: the regions it went through for each of its six outcomes, the holder it returns, and why it returns none: closed, refused, context ended, or nobody left to wait for. Alone: takes the oldest idle one; else a new built and registered one if open and under Max; else fails with registry, queue and all earlier holders unchanged |
| PoolObject.Pool.GrowOrWait | pkg/sandbox/pool.go:165-194 | acquire past the fast path, under every schedule: turned away exactly if closed; else a slot exactly if there is one under Max, built or refused by the backend; else it waits, and comes back without a holder only if the caller's context ends or nobody is left who could send one |
| PoolObject.Pool.Reserve | pkg/sandbox/pool.go:165-186 | The locked decision: closed, slot reserved with a fresh unbuilt holder, or full |
| PoolObject.Pool.AwaitIdle | pkg/sandbox/pool.go:188-193 | The blocking receive ends with the head of the queue, or with the end of the caller's context at any moment, also when a holder is there |
| PoolObject.Pool.GiveBack | pkg/sandbox/pool.go:196-209 | Pushed at the tail with a new stamp, or unregistered and closed once if closed was set |
| PoolObject.Pool.Drop | pkg/sandbox/pool.go:211-220 | The holder is neither registered nor idle, and is closed unless Close has snapshotted it |
| PoolObject.Pool.AwaitMutex | pkg/sandbox/pool.go:233-234 | Whatever others do between the receive and the lock, locking ends: whoever has the mutex only has to unlock |
| PoolObject.Pool.StartWorkload | pkg/sandbox/pool.go:236-241 | The holder is alive (the guard's branch is dead) and the workload is called with the mutex held |
| PoolObject.Pool.Workload | pkg/sandbox/pool.go:233-251 | The last three calls on the impl are run, cleanup, checkHolder, whatever others do; dead exactly if the check failed |
| PoolObject.Pool.UseHolder | pkg/sandbox/pool.go:233-255 | A Run that has a holder returns, through exactly these regions on this holder; one that died is not idle. Alone: the whole effect on queue, registry and holder, open or closed |
| PoolObject.Pool.Run | pkg/sandbox/pool.go:222-255 | Under every schedule: no holder exactly if acquire returned none, and why; otherwise the holder it names is the one it locked, ran, cleaned up, checked, and released or dropped, once and in that order. Alone, open or closed: the head of the queue is used and kept, or leaves the pool; on an empty queue a new holder is made, used, and kept or dropped; or the call fails and earlier holders are unchanged |
| PoolObject.Pool.Reaper | pkg/sandbox/pool.go:259-280 | Under every schedule: each turn is one tick or the stop, which is taken in the first turn that prefers it and finds reaperStop closed, and closes reaperDone. Alone: consecutive ticks are Passes over the queue, and as many of them as holders were idle drop all that had expired at the first, or reach Min |
| PoolObject.Pool.Turn | pkg/sandbox/pool.go:272-279 | One turn: stops only if told to; ticks only if not told to or not preferring the stop |
| PoolObject.Pool.ReapIdle | pkg/sandbox/pool.go:282-306 | However busy the others are, it looks at the live count at most Max + 1 times. Alone: exactly one Pass over the queue |
| PoolObject.Pool.ReapRound | pkg/sandbox/pool.go:285-305 | An iteration that goes on has dropped a holder expired at the start; alone, its whole effect |
| PoolObject.Pool.TakeOldest | pkg/sandbox/pool.go:293-300 | Receives the head of the queue, which is registered, and judges its age against the time read at entry |
| PoolObject.Pool.Close | pkg/sandbox/pool.go:308-352 | By any number of callers, under every schedule: AlreadyClosed exactly after one look at the flag; otherwise the caller came to the end of Close, both handshakes done and each snapshotted impl closed once by it; or it stands in the teardown loop, reached by a run of the protocol, and its next turn panics on the unbuilt holder it names. Alone: closed is idempotent, and an undisturbed close empties the pool |
| PoolObject.Pool.SetClosed | pkg/sandbox/pool.go:310-317 | Exactly one caller passes the guard |
| PoolObject.Pool.CloseReaperStop | pkg/sandbox/pool.go:319-322 | The channel was open |
| PoolObject.Pool.AwaitReaperDone | pkg/sandbox/pool.go:323-323 | The wait ends: once the others are done, the reaper's own steps lead to the close of reaperDone |
| PoolObject.Pool.CloseReaperDone | pkg/sandbox/pool.go:260-260 | The channel was open |
| PoolObject.Pool.TakeSnapshot | pkg/sandbox/pool.go:325-332 | The snapshot is `all`, which is then empty |
| PoolObject.Pool.DrainIdle | pkg/sandbox/pool.go:334-342 | The loop ends after at most Max receives, however many releases still arrive; they are what the history calls drained |
| PoolObject.Pool.TearAll | pkg/sandbox/pool.go:345-350 | In whatever order: either every snapshotted impl gets closed, or the loop stands before one that is nil, where its next turn panics; the failing NewPool's never does |
| PoolObject.Pool.Interfere | pkg/sandbox/server.go:106-114 | The others take exactly the scheduled steps that are possible and do not panic; this goroutine stays where it is, and a holder it has locked stays as it is apart from Close's count |
| Traces.BelowMin | pkg/sandbox/pool.go:282-306 | A reachable open pool below Min in which no holder died and one scale-up failed |
| Traces.OnePassIncomplete | pkg/sandbox/pool.go:300-303 | In a reachable pool an earlier put-back has brought a young holder to the head; a whole undisturbed call stops at it and leaves an expired one alive above Min |
| Traces.ClosedWhileRunning | pkg/sandbox/pool.go:21-22 | Close has closed an impl whose workload is running and whose mutex the Run holds |
| Traces.RunAfterClose | pkg/sandbox/pool.go:159-163 | After Close has returned, a workload runs on an impl that Close has closed |
| Traces.ClosedTwice | pkg/sandbox/pool.go:198-206 | An impl closed both by Close and by release |
| Traces.WaiterStranded | pkg/sandbox/pool.go:188-193 | For every IdleTimeout, with the reaper ticking or none: a Run waits, all slots are free, it can only be cancelled, and no calls under way can serve it |
| Traces.TwoContainersAtMaxOne | pkg/sandbox/pool.go:212-220 | Two impls that nobody has closed with Max == 1 |
| Traces.NilImplClosed | pkg/sandbox/pool.go:346-347 | Close panics on a reservation |
| SyncWriters.NeverFailing | pkg/sandbox/syncwriter.go:30-37 | Over a writer that never fails, what is received are the writes before the first Close, whole, and every write, kept or dropped, reports its full length |
| SyncWriters.KeptAppend | pkg/sandbox/syncwriter.go:30-43 | A write before any Close adds what it reports; anything after one, and a Close, add nothing |
| SyncWriters.SyncWriter.Write | pkg/sandbox/syncwriter.go:30-37 | Closed: reports the full length and leaves the underlying writer alone; open: the underlying writer's answer and effect |
| SyncWriters.SyncWriter.Close | pkg/sandbox/syncwriter.go:39-43 | Closed afterwards, the underlying writer untouched |
| K8sExec.Deliver | pkg/sandbox/poolk8s.go:155-159 | Each caller's writer receives exactly the chunks sent through an open SyncWriter that leads to it, also if both lead to one writer |
| K8sExec.Exec | pkg/sandbox/poolk8s.go:134-164 | Without an executor the writers are untouched; otherwise each holds exactly the chunks that came before its own SyncWriter was shut |
| K8sExec.Leak | pkg/sandbox/poolk8s.go:152-156 | After exec, no sequence of leaked writes changes either writer |
| K8sExec.FedAll | pkg/sandbox/syncwriter.go:36-36 | A writer that never fails takes all payloads, joined in order |
| Streaming.InvStep | pkg/sandbox/syncwriter.go:30-43 | Every lock operation, byte and return keeps the invariant of the two writers and exec |
| Streaming.OneInside | pkg/sandbox/syncwriter.go:31-32 | At most one call at a time is inside a SyncWriter |
| Streaming.WritesLinearize | pkg/sandbox/syncwriter.go:22-43 | For any interleaving, byte by byte: a writer holds, in lock order, what the writes before the first Close report, plus the start of the one under way; once closed nothing is under way |
| Streaming.DoneRecorded | pkg/sandbox/syncwriter.go:36-36 | The reply of a write that went through is the underlying writer's: the bytes it took, and an error exactly if it gave one |
| Streaming.WholeWrites | pkg/sandbox/syncwriter.go:22-43 | In every run whose underlying writers never fail, each of two different ones holds exactly the writes before its first Close, whole, plus the start of the one under way, and every write reports its full length |
| Streaming.RepliesRecorded | pkg/sandbox/syncwriter.go:30-37 | A returned call is in the lock order with the reply its caller got |
| Streaming.RealTimeOrder | pkg/sandbox/syncwriter.go:31-40 | A call that began after another had returned comes after it in the lock order |
| Streaming.FrozenAfterExec | pkg/sandbox/poolk8s.go:152-163 | Once exec has returned from streaming, neither caller's writer changes in any continuation, even if both are one; each of two holds exactly the writes before its own first Close |
| Streaming.NoExecutorNoOutput | pkg/sandbox/poolk8s.go:148-151 | If the executor cannot be made, the caller's writers are as before |
| Streaming.NoCallStuck | pkg/sandbox/syncwriter.go:30-43 | A call that has not returned can go on, or waits for the mutex of one that can |

## Left out

- The Docker and Kubernetes APIs, container and pod specs, probing and seccomp: they are what answers `ok` or not to a
  create, a check or a close.
- The shell scripts that capture stdio and reap processes inside a holder.
- Transport and JSON (server, client, serve, mcp), flag parsing, benchmarks.
- Durations of ticks, fairness of `select` and of the scheduler: a tick may come at any time, and progress is stated as
  "can move", not "will move".
- Error texts, the `Result` of a workload, and the error that Close collects from the impls.
- The backend dispatch in `newImpl`: a create succeeds or fails.
- Garbage: an id is never used for two holders, so reuse of a freed address does not occur.
- WritesLinearize: says nothing about contents when stdout and stderr are the same writer, because two SyncWriters have
  two mutexes and their writes may then mix byte by byte; FrozenAfterExec covers that case.
- Interfere: does not take steps of other goroutines that panic; what happens then is stated by PanicsOnlyInTearDown and
  ClosePanicIff on the step machine.
- Reaper: covers any finite number of turns of the endless loop.
- AwaitIdle: a wait that nobody can end any more, with the schedule used up and `idle` empty, is answered as if the
  caller's context had ended; the source would wait for that.
- CreateHolder: stamps the new holder when it registers it; the source stamps it just before taking the lock, so that its
  age may be a clock tick more, and during NewPool a reaper's earlier reading of the clock may come after the stamp.
