# A model of the pre-fork TCP server, and proofs about it

The server is one parent and n workers forked in advance. They share no memory. Between the
parent and each worker there is one local stream in each direction: the parent passes a
connection with the byte `p`, a worker answers `d` when it has served and closed it, and `s`
tells a worker to leave its loop. The parent accepts only while its private view (`status[i]`,
`count[i]`, `avail_workers_n`) says that a worker is free. That this view is right is a fact about
all streams and all program counters together, and it is the subject of the first part.

The protocol is modelled twice, and the two are linked:

- as a step relation (`Protocol`): parent steps, worker steps and the signal, the streams as
  sequences, and history (what was handed to a worker, served, closed and reaped). A run is any
  finite interleaving. `Invariant` proves the inductive invariant; `Handoff`, `FirstFit`,
  `Permits`, `Shutdown`, `Signals`, `Watched`, `Acceptance`, `Demand`, `Crashes`, `Starvation` and `Deaths`
  prove the theorems about all runs.
  `Turns` builds the turns of the loop that show what can happen.
- as the source's code (`WorkerPool`, `TcpServer`): the array of worker records, the counter, the
  descriptor set and its bound, updated in place by the source's loops. Each system call is a
  method of `Kernel.World`, which first lets the other processes and the signal take any number of
  steps, in any order, and then takes the caller's own. So every execution of the code extends a
  run of the step relation, and every theorem about runs holds for it. A call that may wait says
  "hung" only if what it waits for cannot come by itself. `Matches` says that the
  code's fields hold what the relation says the parent believes.

The second part covers code that the repository ships and that stands alone: descriptor passing
(`IpcFd`), the hexdump printer (`Hexdump`), jQuery's Deferred (`Deferred`), and from Underscore
throttle (`Throttle`), search and duplicate removal (`Sorted`) and HTML escaping (`Escape`). `Digits`
(hexadecimal text) and `Html` (how a browser reads character references) serve them.

## Assumptions about the environment

- A system call that succeeds does what POSIX says. The pipe descriptors are distinct and differ
  from `sock_fd` (`Protocol.ValidConfig`).
- `select` returns a non-empty set of descriptors that are in the set it was given, below its
  first argument and ready, among them every pipe that was ready when it was entered, and their
  number. It looks at one descriptor after the other, so a pipe that gets ready meanwhile may be
  missing. Interrupted by the signal, it returns -1 and leaves the set as it was; only a signal that
  comes while it is being called interrupts it. Whether a client is waiting is left open.
- The callback ends, and does not write to descriptor 2, which is the worker's stream.
- Apart from `Crashes`, `Starvation` and `Deaths`, a worker ends only by leaving its loop. There, as on Linux, a stream that is
  closed by a worker's death with its job unread makes the parent's next read on the empty stream
  fail once (ECONNRESET), and after that, as otherwise at once, reads return 0.

## Where the code does not do what one would expect

- `maxfdp` (src/tcp_server_core.c:216,251) is the maximum of `sock_fd + 1` and the pipe
  descriptors, but `select` needs one more than the largest. `Watched.WatchedExactly` says which
  pipe select never looks at: the one with the largest descriptor, if that exceeds `sock_fd`.
  `Watched.FreedIffWatched` says what that means: a report can be taken if and only if its pipe is
  watched. `Acceptance.AcceptsMoreIff` has the exact condition under which the server can ever
  accept again. Two workers are enough (`Acceptance.TwoWorkersKeepAccepting`); a single one accepts
  one connection in its whole life (`Watched.SingleWorkerServesOne`), and does reach that end
  (`Acceptance.OnlyWorkerIsUsedUp`).
- find_free leaves its loop at the first stream that has ended (src/worker_pool.c:228-233), and such a
  stream is ready for ever. So a worker that dies costs more than its job: no busy worker with a
  larger index is freed again. `Starvation.FreedIffNotBehind` has the condition both ways,
  `Starvation.CostOfDeath` the price, `Deaths.DeadWorkerStarvesTheNext` a run in which it happens.
- A worker that dies before it has read its job makes the parent's next read fail, and find_free, which
  tests only for 0 (src/worker_pool.c:228-239), takes that for a report. The permit comes back, the
  connection is lost, and nothing shows it: `Deaths.UnreadJobLooksDone`. `Deaths.KilledIsFreedIff` says
  which killed workers are freed.
- A signal can be missed in two ways. One that comes after the handler was installed and before
  `SERVER_STOP = false` (src/tcp_server_core.c:256,287) is erased; the flag is up anyway until then
  (src/tcp_server_core.c:52). One that comes in the loop after the test
  of the flag and before select does not interrupt select, and the server goes on waiting, unless
  something else ends that select (`Shutdown.SignalCanBeLost`). `Signals.HeardExactly` says in exactly
  which states the server is sure to shut down.
- `lastIndexOf` searches too far in one family of calls, for NaN from a position far enough before
  the start of the array: `Sorted.LastIndexOf` has the condition both ways,
  `Sorted.LastIndexOfFindsTooMuch` an example.
- `uniq` with `isSorted` also keeps every one of several NaNs, and works on more than sorted arrays:
  `Sorted.UniqFastIffRepeatsAdjoin` says on which, `Sorted.UniqKeepsBothNaNs` is an example.
- `hexdump` prints nothing for a buffer of more than 2^32 - 16 bytes, because the loop bound wraps
  to 0 (`Hexdump.PrintAndParse`, both ways).
- The 2 second `select_tv` (src/tcp_server_core.c:298-299) is set and not used: `select` gets no
  timeout, and has none in the model.

## Model

| member | source | states |
|---|---|---|
| Protocol.FirstFree | src/worker_pool.c:194-201 | The search yields the lowest free worker, or n if none is free. |
| Invariant.StepInv | src/tcp_server_core.c:288-330 | Every step of any process keeps the invariant that ties the parent's counters to all streams and all program counters. |
| Invariant.RunInv | src/tcp_server_core.c:271-330 | Every state of every interleaving satisfies that invariant. |
| Invariant.ParentStepInv | src/tcp_server_core.c:288-329 | The parent's steps keep it: select, stop test, accept, hand-off, scan, stop, wait. |
| Invariant.WorkerStepInv | src/worker_pool.c:130-164 | A worker's steps keep it, whatever the parent is doing. |
| Invariant.HandedInv | src/worker_pool.c:194-212 | Handing over a connection keeps the invariant; the search it starts with succeeds. |
| Invariant.ScannedInv | src/worker_pool.c:224-245 | One turn of the scan keeps it, including that `nsel` is the number of reports still to be read. |
| Invariant.StopSentInv | src/worker_pool.c:254-258 | Sending one stop keeps it: the stop is behind every job in the stream. |
| Invariant.SelectedCount | src/tcp_server_core.c:301-324 | The number select returns is one per ready pipe, plus one if the listening socket is ready. |
| Handoff.TokenInvariant | src/worker_pool.c:139-161 | In every state of every run `status[i]` is 1 exactly when one token for worker i exists (a job in its stream, a job in progress, or a report), and 0 exactly when none does. |
| Handoff.StreamsBounded | src/worker_pool.c:161-258 | A stream to a worker never holds more than one `p`, with at most one `s`, and behind it; a stream back never more than one `d`. Room for two messages never blocks a writer. |
| Handoff.NoSilentSkip | src/worker_pool.c:139-148 | What a worker reads is a stop or a job with a connection, so the branch that reports nothing is never taken; and the read of the scan always finds a report. |
| Handoff.AvailableIsExact | src/worker_pool.c:194-210 | `avail_workers_n` is the number of workers with status 0, within 0..n; "no available children" and the index past the end are unreachable. |
| Handoff.PickedIsNotReaped | src/tcp_server_core.c:311-326 | The worker picked for a new connection is not among those whose reports are read in the same turn. |
| Handoff.ExactlyOnce | src/tcp_server_core.c:311-319 | In every state each accepted connection, and nothing else, is at exactly one place: with the parent, in one stream, with one worker, or served and closed. |
| Handoff.ServedInOrder | src/worker_pool.c:132-161 | Each worker serves what it was handed, once each, in order of acceptance, closes it in that order, and is never more than one behind; when it has reported, or is taken to be free, it has closed all. |
| Handoff.Ledger | src/worker_pool.c:208-239 | The counts add up to the connections submitted; each count is the reports reaped plus the status; submitted less reaped is n less the counter. |
| FirstFit.UsedWorkersArePeak | src/worker_pool.c:194-210 | Over every run, the workers ever used are the first k, and k is the largest number ever busy at once in the parent's view. |
| FirstFit.PeakIsMaximum | src/worker_pool.c:194-210 | That number is reached in the run and never exceeded. |
| FirstFit.FirstFreeBound | src/worker_pool.c:194-210 | The first free worker was used before, or is the first unused one while all used ones are busy. |
| Permits.SimulatesPermits | src/tcp_server_core.c:290-326 | Each step of the whole system is a step of a server with n permits: accept takes one, reaping returns one, all else is internal; permits and jobs make n. |
| Permits.AcceptNeedsPermit | src/tcp_server_core.c:290-313 | At the top of the loop of a server that is not being stopped, the parent can go on to accept if and only if a permit is left. |
| Shutdown.ShutdownDrains | src/tcp_server_core.c:303-329 | From any reachable state with the stop flag set, once the loop was entered, every schedule ends within 8n + 12 steps (7n + 2 once the loop is left). One that cannot go on has every worker exited, the streams to them empty, and every accepted connection served and closed; or it is parked in a select that began after the signal, never if the signal came during select or later. |
| Shutdown.Progress | src/worker_pool.c:260-264 | Until the parent has returned, some process can move by itself, unless the system is parked: waiting for the workers is no deadlock. |
| Shutdown.StillExactly | src/tcp_server_core.c:288-330 | Nothing moves by itself in a reachable state if and only if the parent has returned or the system is parked: select uninterrupted, no watched pipe ready, every worker waiting for a job. |
| Shutdown.LostSignalWasEarly | src/tcp_server_core.c:301-308 | If the flag is set and select was not interrupted, the flag was set before select was entered. |
| Signals.HeardExactly | src/tcp_server_core.c:287-329 | In any reachable state with the flag set, every schedule that comes to rest without a client or another signal has shut the server down, if and only if the parent is about to test the flag or has left its loop, or a watched worker has a job whose report is not in the select result still to be scanned, or is about to get one. |
| Signals.MoveKeepsHeard | src/tcp_server_core.c:288-329 | No move of the parent or a worker changes whether a signal is heard, except a client that ends select, which makes it heard. |
| Signals.StoppedIffSignalled | src/tcp_server_core.c:52-57 | Once the loop was entered, the stop flag is up if and only if a signal has come since, at whatever point: the flag's earlier value does not count, and no signal is forgotten. |
| Signals.StoppedBySignal | src/tcp_server_core.c:287-308 | A server that stops has had a signal that came after the flag was cleared and turned it up. |
| Shutdown.SignalCanBeLost | src/tcp_server_core.c:301-308 | For every configuration there is a run that ends parked with the stop flag set. |
| Shutdown.NoneLeftBehind | src/worker_pool.c:138-164 | A worker that has exited had served and closed everything it was ever handed. |
| Invariant.MaxFdpIsMax | src/tcp_server_core.c:213-252 | `maxfdp` is the maximum of `sock_fd + 1` and all pipe descriptors. |
| Watched.WatchedExactly | src/tcp_server_core.c:246-301 | select tests the listening socket and every pipe but the one with the largest descriptor, which it skips if and only if that exceeds `sock_fd`. |
| Watched.UnwatchedNeverFreed | src/tcp_server_core.c:251-301 | In every run the unwatched worker is given at most one connection, is never freed, and from then on at most n - 1 workers are available. |
| Watched.SingleWorkerServesOne | src/tcp_server_core.c:251-301 | One worker whose descriptor exceeds `sock_fd`: the server accepts at most one connection. |
| Watched.FreedIffWatched | src/tcp_server_core.c:301-326 | A worker whose report has arrived can be freed in some continuation if and only if its pipe is watched. |
| Turns.FreeingTurn | src/tcp_server_core.c:301-326 | One turn with a select that reports every ready pipe frees a worker whose report has arrived, unless its pipe is not watched or that of a dead worker comes first. |
| Acceptance.AcceptsMoreIff | src/tcp_server_core.c:290-326 | A server at the top of its loop and not being stopped accepts another connection in some continuation if and only if it has a permit or a busy worker whose pipe is watched. |
| Acceptance.TwoWorkersKeepAccepting | src/tcp_server_core.c:246-326 | With two or more workers it always can. |
| Demand.LongScheduleAccepts | src/tcp_server_core.c:288-327 | With clients always waiting and no signal: from any reachable state, every schedule of more than 5n + 13 steps accepts another connection. |
| Demand.GoesOnUnlessUsedUp | src/tcp_server_core.c:288-327 | And every schedule can go on, if and only if the system is not parked with the listening socket unwatched; with two or more workers it never is. |
| Acceptance.OnlyWorkerIsUsedUp | src/tcp_server_core.c:251-301 | With one worker above `sock_fd` there is a run in which it has served one connection, its report has arrived, and none will ever be accepted again. |
| Acceptance.ParkedWaitsForClient | src/tcp_server_core.c:290-301 | When nothing moves, every worker has closed all it was handed, every watched one is free, and the listening socket is watched, unless there are no workers or the only one is used up. |
| Crashes.AvailableDespiteCrashes | src/worker_pool.c:228-243 | Workers may be killed at any point, a job unread or not: the counter stays exact and within 0..n, also across the early end of the scan; the search finds a worker; a worker taken to be free has no job; a live one has a job exactly if it is not; each worker that died in the middle of a job costs a permit. What else a death costs is in the next rows. |
| Crashes.LostForGood | src/worker_pool.c:226-233 | A worker that died in the middle of a job, having read it and not reported, is never taken to be free again and is handed nothing more. |
| Deaths.KilledIsFreedIff | src/worker_pool.c:226-239 | A busy worker within reach of the scan that is killed can still be freed if and only if it was not in the middle of its job: its report is there, or its unread job makes one read fail, which find_free takes for a report. |
| Deaths.UnreadJobLooksDone | src/worker_pool.c:228-239 | A run in which a worker is killed before it reads its job, the parent frees it and has all n permits, and the connection was never served. |
| Starvation.StarvedBehind | src/worker_pool.c:224-245 | Once a worker is dead and its watched stream is at its end, with neither a report nor a failed read to come, no busy worker with a larger index is freed again. |
| Starvation.FreedIffNotBehind | src/worker_pool.c:224-245 | A worker whose report has arrived can be freed in some continuation if and only if its pipe is watched and no such dead worker has a smaller index. |
| Starvation.CostOfDeath | src/worker_pool.c:228-239 | From then on at most n permits, less all workers that were busy with an index from the dead one on. |
| Deaths.DeadWorkerStarvesTheNext | src/worker_pool.c:224-245 | A run in which the first worker is killed after it has read its job, after which the second worker's report has arrived, its pipe is watched, and no continuation frees it. |
| Kernel.World.Others | src/worker_pool.c:103-113 | Any steps of other processes extend the run and leave alone what the caller owns. |
| Kernel.World.Select | src/tcp_server_core.c:301-308 | select as the code uses it takes the parent's steps, with the result it returns; it hangs only if the system is parked. |
| Kernel.World.WaitAll | src/worker_pool.c:260-264 | Waiting for the workers returns, and then all have exited. |
| Kernel.World.Recv | src/worker_pool.c:132-148 | A worker's read yields the message at the head of its stream, which is a stop or a job with a connection; it hangs only if there is none. |
| Kernel.World.ReadReport | src/worker_pool.c:228-239 | Reading a report frees that worker and changes no other one in the parent's view. |
| WorkerPool.Pool.constructor | src/worker_pool.c:44-63 | A new pool has n zeroed records and n available workers. |
| WorkerPool.Pool.DispatchWorker | src/worker_pool.c:103-113 | The record gets its descriptor and status 0; the others are untouched. |
| WorkerPool.Pool.SubmitConn | src/worker_pool.c:188-215 | Exactly the first free record becomes busy with its count one higher; the loop never runs off the end; the run is extended by the hand-off. |
| WorkerPool.Pool.TakeReport | src/worker_pool.c:226-243 | One report is read and that record becomes free. |
| WorkerPool.ScanStarts | src/tcp_server_core.c:301-326 | In every run, the number find_free is entered with is the number of pipes in the select result, and at least one. |
| WorkerPool.Pool.FindFree | src/worker_pool.c:217-246 | The loop with its early end frees exactly the workers in the select result, as a full scan would, and the counter grows by their number. |
| WorkerPool.Pool.Terminate | src/worker_pool.c:248-265 | Every worker is sent a stop; then all exit and the call returns. |
| WorkerPool.WorkerTurn | src/worker_pool.c:130-162 | One turn of a worker takes what is at the head of its stream: it ends by a stop with nothing served, or serves and closes exactly that connection and reports; it hangs only if there is nothing to read. |
| TcpServer.Server.constructor | src/tcp_server_core.c:213-218 | The set starts as the listening socket, the bound one above it. |
| TcpServer.Server.Dispatch | src/tcp_server_core.c:235-259 | The set becomes the listening socket and all pipes, the bound the running maximum, and the system is in its initial state. |
| TcpServer.Server.AwaitEvents | src/tcp_server_core.c:290-308 | After select and the stop test, the listening socket is in the result only if a worker is available; it hangs only if the system is parked. |
| TcpServer.Server.TakeConnection | src/tcp_server_core.c:311-324 | One connection is accepted and handed over, and one worker fewer is available. |
| TcpServer.Server.Turn | src/tcp_server_core.c:288-327 | One turn of the run loop extends the run and ends at the top of the loop, at the stops, or with the system parked. |
| TcpServer.Server.Run | src/tcp_server_core.c:271-330 | The flag is cleared, which erases what it was before; then the loop goes on until it is stopped, unless the system is parked. It is stopped only by a signal that came since; then it returns, and every connection ever accepted was served and closed. |
| IpcFd.IpcFdWrite | src/ipc_fd.c:13-42 | One message is added to the stream, with the descriptor at its first byte; a closed descriptor adds nothing. |
| IpcFd.IpcFdRead | src/ipc_fd.c:44-96 | One byte is taken off, with its descriptor or -1; a control message of another level or kind is an error that leaves the caller's variable alone, as does the end of the stream. |
| IpcFd.Exchange | src/ipc_fd.c:13-96 | However writes, with and without descriptors, and one-byte reads interleave, each read returns as soon as there is a byte, and the reader gets the same bytes with the same descriptors in the same order. |
| IpcFd.ReturnedIsMinimum | src/ipc_fd.c:67-70 | Reads return as soon as there is a byte: as many have returned as, at every moment, the bytes written before and the reads after it allow. |
| Hexdump.Print | libs/utils/src/hexdump.c:11-60 | The nested loops write the heading and as many whole rows as the 32-bit bound allows. |
| Hexdump.BoundWraps | libs/utils/src/hexdump.c:20 | The bound is the length rounded up to rows up to 2^32 - 16, and 0 beyond. |
| Hexdump.DumpIsInvertible | libs/utils/src/hexdump.c:20-57 | A reader that refuses every departure from the layout (`0x` and at least six digits, colon, blank, sixteen cells, sixteen characters, newline) accepts the whole dump; the rows say their offsets and their bytes, show those bytes as text padded with blanks, and give back the buffer if and only if it has at most 2^32 - 16 bytes; there are then ceil(len/16) rows. |
| Hexdump.DumpLayout | libs/utils/src/hexdump.c:20-57 | Up to 2^24 bytes the dump has 75 characters for each started group of sixteen, with `0x`, six digits, the colon, the blank and the newline at fixed places. |
| Digits.HexWidth | libs/utils/src/hexdump.c:25-30 | A number is padded with zeros to the width, and has no zero in front if it needs more digits. |
| Digits.HexIsDigits | libs/utils/src/hexdump.c:25-30 | The text consists of lower-case hexadecimal digits and has the number's value. |
| Hexdump.PrintAndParse | libs/utils/src/hexdump.c:11-60 | The same of the printing loops themselves, row by row, behind the heading on a line of its own. |
| Hexdump.RowIsRead | libs/utils/src/hexdump.c:22-56 | A row is read back as its offset, its bytes and their text, whatever follows it. |
| Deferred.Deferred.constructor | docs/_static/jquery.js:3922-3960 | A new Deferred is pending, with only the built-in functions in its two lists. |
| Deferred.Deferred.Perform | docs/_static/jquery.js:3922-3974 | Each of resolve, reject, done and fail, also from within a running callback, does what the reference semantics says. |
| Deferred.Deferred.FireWith | docs/_static/jquery.js:3622-3632 | Resolving or rejecting settles a pending Deferred and otherwise does nothing. |
| Deferred.Deferred.Add | docs/_static/jquery.js:3533-3561 | A callback is appended, run at once with the remembered value, or dropped, as the state asks. |
| Deferred.Deferred.Fire | docs/_static/jquery.js:3485-3527 | Firing runs what waits and what that adds, remembers the value and empties the list. |
| Deferred.Deferred.RunList | docs/_static/jquery.js:3495-3505 | The inner loop reaches every entry, also those added while it runs, and ends. |
| Deferred.Deferred.CallBuiltIn | docs/_static/jquery.js:3932-3960 | The built-in functions set the state once and disable the opposite list before any registered callback runs. |
| Deferred.Callbacks.Disable | docs/_static/jquery.js:3598-3602 | Disabling empties list, queue and memory and locks the list. |
| Deferred.Program | docs/_static/jquery.js:3690-3985 | After any calls, the state is that of the first settlement; the callbacks called are those registered on the winning side, in the order in which they were registered, each once, with that settlement's value and with the state already settled. Those registered from outside before the settlement come first. If resolved, what runs was passed to done, and all that was passed to done from outside runs; if rejected, the same of fail. |
| Deferred.BurstInOrder | docs/_static/jquery.js:3493-3506 | First come, first served: what waited runs in that order, and then what the callbacks registered, in the order in which they ran. |
| Deferred.OutsideFirst | docs/_static/jquery.js:3495-3546 | The callbacks registered from outside before the first settlement are the first to run, in the order of registration. |
| Deferred.RanGrows | docs/_static/jquery.js:3533-3561 | A callback registered on the winning side after the settlement runs at once, after all that ran before. |
| Deferred.RunsWhatWasCalledFor | docs/_static/jquery.js:3929-3973 | In terms of the calls alone: what runs was passed to done (fail) somewhere, and what was passed to it from outside runs. |
| Deferred.SettlesOnceRunsOnce | docs/_static/jquery.js:3485-3974 | The first settlement decides the outcome for good; each registration on the winning side, earlier or later, from outside or within a callback, runs exactly once. |
| Deferred.BurstRunsEachOnce | docs/_static/jquery.js:3493-3506 | The order in which the list is worked off runs each registration it leads to exactly once. |
| Throttle.Throttled.Call | docs/_static/underscore.js:1111-1135 | A call of the wrapper extends the run by that call: it runs the function at once, or with trailing on a timer will pass its arguments within `wait`; with leading on, at once if and only if `wait` has passed since the last invocation. |
| Throttle.Throttled.Later | docs/_static/underscore.js:1104-1109 | The timer extends the run by one invocation, with the arguments of the last call. |
| Throttle.Throttled.Return | docs/_static/underscore.js:1108-1130 | A return extends the run, neither invokes nor drops a timer, and forgets the arguments unless a timer still needs them. |
| Throttle.Use | docs/_static/underscore.js:1099-1138 | Any use of the closure, with whatever calls, timers and returns the clock allows, leaves a log of spaced invocations in which the last call is not lost. |
| Throttle.CallMeans | docs/_static/underscore.js:1111-1133 | The same as for Call, of every call in every run. |
| Throttle.CallRunsIff | docs/_static/underscore.js:1111-1133 | A call runs at once if and only if `wait` has passed since the last invocation or, with leading off, since the first call after the last timer; otherwise, with trailing on, the timer is due exactly when `wait` will have passed. |
| Throttle.FirstCallWaits | docs/_static/underscore.js:1105-1113 | With leading off, the first call after a timer, or of all, never runs at once: it is put off by `wait`, or dropped if there is no trailing edge. |
| Throttle.InvocationsAreSpaced | docs/_static/underscore.js:1099-1138 | Any two invocations are at least `wait` apart, for every setting and every nesting of calls; a negative `wait` is none. |
| Throttle.LatestCallIsServed | docs/_static/underscore.js:1117-1133 | With trailing on, the last call is no later than the last invocation, which passed its arguments, or a timer holds its arguments and is due within `wait`. |
| Throttle.TimerPassesLatest | docs/_static/underscore.js:1104-1109 | A timer invokes with the arguments of the latest call, never with forgotten ones. |
| Throttle.NoTimerWithoutTrailing | docs/_static/underscore.js:1131-1133 | With trailing off there is never a timer. |
| Sorted.SortedIndex | docs/_static/underscore.js:1262-1271 | On a sorted array everything before the result is smaller and nothing from it on is. |
| Sorted.IndexFinder | docs/_static/underscore.js:1274-1296 | indexOf finds the first and lastIndexOf the last occurrence in the part searched, or -1. |
| Sorted.FindNaN | docs/_static/underscore.js:1242-1259 | findIndex and findLastIndex find the first and the last NaN. |
| Sorted.IndexOf | docs/_static/underscore.js:1298-1302 | The first occurrence among the positions from the given one on, a negative one counting from the end; or -1. |
| Sorted.IndexOfBothWays | docs/_static/underscore.js:1274-1302 | On a sorted array the binary search and the scan return the same index, for every item. |
| Sorted.LastIndexOf | docs/_static/underscore.js:1274-1306 | It finds the last occurrence among the positions up to the given one, a negative one counting from the end, or -1, if and only if not (NaN, a position more than one before the start, and a NaN early enough); and what it finds in that case. |
| Sorted.LastIndexOfFindsTooMuch | docs/_static/underscore.js:1278-1306 | A call for which it does not. |
| Sorted.Contains | docs/_static/underscore.js:1426-1430 | True if and only if the item occurs, NaN included. |
| Sorted.Uniq | docs/_static/underscore.js:1722-1747 | The loop keeps the elements that differ from their neighbour, or those not seen before. |
| Sorted.FirstsAreDistinct | docs/_static/underscore.js:1743-1745 | The linear result has every value of the array exactly once. |
| Sorted.FirstsInOrder | docs/_static/underscore.js:1732-1745 | And in the order of their first occurrences. |
| Sorted.UniqFastIffRepeatsAdjoin | docs/_static/underscore.js:1735-1745 | The fast path gives the linear result if and only if every repeat stands next to an equal value; sorted arrays are of that kind. |
| Sorted.UniqKeepsBothNaNs | docs/_static/underscore.js:1735-1745 | On two NaNs the two paths differ. |
| Escape.Invert | docs/_static/underscore.js:556-563 | Inverting a table with distinct values swaps every pair and loses none. |
| Escape.EscapeUnescape | docs/_static/underscore.js:808-839 | Escaping and then unescaping gives every string back; a browser shows the escaped string as the string itself; and it has no markup character but the ampersand. |
| Escape.EscapedIsShown | docs/_static/underscore.js:823-830 | Each entity stands for the character it replaces, read by its name or its number, not by the table. |
| Escape.EscapeConcat | docs/_static/underscore.js:815-819 | Escaping a concatenation is the concatenation of the escaped parts. |
| Escape.EscaperReplaces | docs/_static/underscore.js:815-819 | The test before the replacement changes nothing, and null becomes the empty string. |
| Escape.ReplaceBack | docs/_static/underscore.js:808-820 | The same for any table of single characters whose replacements begin with a replaced character and are no prefixes of each other. |

## Left out

- TcpServer.Server.Run: the endless loop is cut off after a given number of turns; that the loop is
  ever left without a signal is not claimed.
- WorkerPool.WorkerTurn: one turn of the endless loop of a worker.
- Failing system calls: `accept` or a read returning -1 (except the read in find_free after a worker's
  death, which `Crashes` has), a failing `fork` or `socketpair`, and what
  the code then does with stale variables.
- SIGINT delivered to the workers, and the end of a worker's stream when the parent dies.
- Crashes.AvailableDespiteCrashes: a write to a dead worker kills the source's parent; the model
  lets the run go on.
- The parent's own copies of descriptors, which it closes after a hand-off: a connection counts as
  handed over once it is in the stream.
- The `pid` field, log messages, `select_tv`, and overflow of `count`.
- Sockets, bind, listen, ioctl, argument parsing, the example servers and clients, the logger.
- IpcFd.IpcFdRead: only reads of one byte, as the server uses it; the number that the kernel gives
  a received descriptor is identified with the one that was sent.
- Hexdump.Print: other values of `HEXDUMP_COLS`, and locales in which more characters are printable.
- Deferred.Deferred.Perform: callbacks are finite scripts of calls on the same Deferred, given when
  they are registered; progress and notify, then, the handler lists, callbacks that throw, several
  functions in one call, and the list options other than once and memory are not modelled.
- Throttle.InvocationsAreSpaced: no `cancel`; the clock never goes back and timers are never early.
- Sorted.Uniq: no iteratee; values are numbers and NaN.
- Escape.EscapeUnescape: of regular expressions only alternatives of literal strings.
- The rest of jQuery and Underscore and the other scripts of the documentation pages: user interface
  code without comparable properties.
