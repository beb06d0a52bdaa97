# Verification of the Ulord centre and its network library

The licence centre answers masternodes over TCP and a watcher renews their licences in a shared
table. Both are built on the muduo reactor library, which is part of the repository. These Dafny
modules model the parts whose correctness is not visible from one body, and prove what they promise.

Code that changes state in place is written as classes and methods with loops. Each such method is
proved against a function of the old state; the promises are then proved about those functions, over
every run. Where threads, clocks, sockets or the kernel take part, the module has a state machine:
`Enabled` and `Next` give its atomic steps, `After` a run, an invariant is kept by every step, and
the class methods are the bodies of those steps. What the outside world decides (the result of a
write, the hour, which thread goes next) is a parameter of a step. What a run was asked for is read
off its actions and not off what its steps noted, so a step that drops its work does not pass.

| file | what it models |
|---|---|
| `ExactCover`, `DancingLinks`, `LinkBuilding`, `SudokuRules`, `SudokuSolver` | the dancing-links Sudoku solver: link structure in one node array, exact restoration, search, encoding of the puzzle |
| `EventLoop` | pending functors and wakeups of the reactor |
| `TimerQueue`, `TimerHistory`, `TimerLife` | timers, batches, cancellation and the timer descriptor; what fires along a run, and the life of one timer |
| `TcpConnection`, `TcpHistory` | output path and shutdown of a connection, and what becomes of the calls of a run |
| `Pollers`, `PollerHistory` | the poll and epoll back ends against one map of watched descriptors |
| `Common` | options, and streams cut into chunks |
| `Bytes`, `ByteBuffer`, `Codec` | the byte buffer and the centre's length-prefixed framing |
| `AsyncLogging`, `LoggingTurns`, `LogStream` | double-buffered logging, what a turn of it achieves, and the text of integers |
| `Monitors`, `MonitorHistory`, `WorkerPool`, `WorkerLife` | bounded blocking queue with explicit waiting and signalled sets, and the thread pool with its workers |
| `MemcacheStore`, `MemcachePolicies`, `MemcacheSession`, `MemcacheProtocol`, `MemcacheClients` | the memcached server: sharded store, tokens, incremental parser, the protocol from request to answer, and many clients at once |
| `Multiplexer`, `MultiplexHistory` | many client streams over one link |
| `Calendar`, `LocalTime` | Julian day numbers, UTC, and local time from a table of transitions |
| `License`, `LicenseEffects`, `IdleScan`, `IdleEffects` | licence renewal with the centre's cache, and the idle-connection scan |
| `SudokuStat`, `SudokuWindow`, `TimingWheel`, `WheelHistory` | a sliding window against a plain log, and a wheel of idle connections |

`dfyconfig.toml` names all files.

## Where the code does less than expected

Each is proved, with the exact condition:

- A timer cancelled before its insertion has run is not cancelled (`TimerQueue.CancelWorks`, `TimerQueue.EarlyCancelIsLost`), and one cancelled from a callback still fires in the running batch when its turn has not come (`TimerHistory.CancelledFiresExactly`).
- `addTimer` reads the id from a timer that the loop may have deleted already (`TimerHistory.IdReadExactly`, `TimerHistory.IdReadTooLate`).
- `shutdown` called from another thread can close the write side twice, with output to drain or when two callers race (`TcpConnection.OtherShutdownRepeats`, `TcpConnection.RaceRepeats`), and a call that races with the closing leaves a state in which the connection does not look closed (`TcpConnection.ClosedReopens`).
- Stopping a thread pool wakes only workers: a producer that waits for a place never returns when the queue is full and no worker is past its test of the running flag (`WorkerPool.StrandedExactly`, `WorkerPool.PlacesAfterStop`, `WorkerPool.StopStrands`).
- The week day of dates before the epoch of the day numbers is negative (`Calendar.WeekDayRight`, `Calendar.WeekDayWrong`).
- The demultiplexer asserts that an id that comes up has no entry, but an entry whose socket was connected is never removed within a session (`Multiplexer.FailsOnlyOnReuse`, `Multiplexer.ReuseFails`).
- A request line of 1024 characters or more is accepted, or has the connection shut down, depending on the chunks (`MemcacheSession.NeverGivenUp`, `MemcacheSession.EffectsExact`).
- Values found in front of a key that is too long are not sent with the error but in front of the answer to the next look-up (`MemcacheProtocol.LeaksExactly`, `MemcacheProtocol.LongKeyLeaks`).
- A message of more than 65536 bytes is sent like any other and never arrives (`Codec.FrameArrives`).
- A renewal limit below the update window does not lengthen every due licence (`License.GrowsExactly`).
- A clock that goes back, or a second thread that serves connections, lets an idle connection hide behind a young one (`IdleScan.EarlyIsFullExactly`, `IdleScan.BackwardClockHides`, `IdleScan.TwoThreadsHide`).
- A moment whose local clock reading comes again is not recovered from it, except at the end of summer time by one hour (`LocalTime.LocalRoundTrip`, `LocalTime.RoundTripExactly`, `LocalTime.SetBackFails`); nor is one whose reading comes only once, in a table that does not rise by the local clock (`LocalTime.CrossedFails`).
- A reset of the statistics does not reset the number of dropped requests (`SudokuStat.TotalsAreLog`).

## Model

| member | source | states |
|---|---|---|
| `SudokuSolver.SolveSudoku` | ulordcenter/3rdlibs/muduo/examples/sudoku/sudoku.cc:263-291 | whole program: the answer is a completion of the puzzle that keeps every given when one exists, and "NoSolution" for malformed text, clashing givens and unsolvable puzzles alike |
| `SudokuSolver.SudokuSolver.constructor` | ulordcenter/3rdlibs/muduo/examples/sudoku/sudoku.cc:33-93 | the links built from a board stand for exactly the matrix of the puzzle: all columns still needed, one row per candidate |
| `SudokuSolver.SudokuSolver.Solve` | ulordcenter/3rdlibs/muduo/examples/sudoku/sudoku.cc:95-133 | returns true exactly when the open columns have an exact cover by the rows; on failure nodes, stack and board are as they were; on success the stack adds an exact cover and the board holds it; it terminates because fewer columns stay open |
| `SudokuSolver.SudokuSolver.TryRow` | ulordcenter/3rdlibs/muduo/examples/sudoku/sudoku.cc:118-130 | one round of the search: push, cover the rest of the row, recurse, and on failure pop and uncover with nothing changed |
| `SudokuSolver.SudokuSolver.GetMinColumn` | ulordcenter/3rdlibs/muduo/examples/sudoku/sudoku.cc:201-216 | the column returned is open and no open column has fewer linked entries, or it has at most one |
| `SudokuSolver.SudokuSolver.CoverColumn` | ulordcenter/3rdlibs/muduo/examples/sudoku/sudoku.cc:218-229 | the in-place loops compute the cover of the column |
| `SudokuSolver.SudokuSolver.UncoverColumn` | ulordcenter/3rdlibs/muduo/examples/sudoku/sudoku.cc:231-242 | after cover, uncover restores every field of every node |
| `SudokuSolver.SudokuSolver.UncoverOthers` | ulordcenter/3rdlibs/muduo/examples/sudoku/sudoku.cc:127-129 | nested covers of a row, undone in reverse, restore every field of every node |
| `SudokuSolver.SudokuSolver.LinkRow` | ulordcenter/3rdlibs/muduo/examples/sudoku/sudoku.cc:81-89 | four new nodes in the four columns of a candidate, linked left and right, extend the structure by that row |
| `SudokuSolver.SudokuSolver.WriteBoard` | ulordcenter/3rdlibs/muduo/examples/sudoku/sudoku.cc:97-114 | the walk to the right of each chosen row finds its cell and value, and the board is filled accordingly |
| `DancingLinks.UnlinkKeeps` | ulordcenter/3rdlibs/muduo/examples/sudoku/sudoku.cc:222-227 | taking an entry out keeps all columns rings with exact sizes, and putting it back restores the whole array |
| `DancingLinks.CoverKeeps` | ulordcenter/3rdlibs/muduo/examples/sudoku/sudoku.cc:218-229 | covering a column leaves a valid structure for the remaining columns and rows |
| `DancingLinks.CoverRowKeeps` | ulordcenter/3rdlibs/muduo/examples/sudoku/sudoku.cc:120-122 | covering the other columns of a row leaves a valid structure without exactly the columns of that row |
| `LinkBuilding.RowAdded` | ulordcenter/3rdlibs/muduo/examples/sudoku/sudoku.cc:158-184 | appending a row keeps the toroidal structure valid for the larger matrix |
| `ExactCover.PickRow` | ulordcenter/3rdlibs/muduo/examples/sudoku/sudoku.cc:116-130 | a column is in some row of every exact cover, so trying its rows one by one loses no solution |
| `SudokuRules.CoverableIffSolvable` | ulordcenter/3rdlibs/muduo/examples/sudoku/sudoku.cc:33-93 | the matrix has an exact cover exactly when the puzzle has a solution |
| `SudokuRules.CoverSolves` | ulordcenter/3rdlibs/muduo/examples/sudoku/sudoku.cc:97-114 | every exact cover, written into the board, is a solution of the puzzle |
| `SudokuRules.SolutionIsCover` | ulordcenter/3rdlibs/muduo/examples/sudoku/sudoku.cc:57-92 | every solution of the puzzle gives an exact cover by candidate rows |
| `EventLoop.ExecutedInOrder` | ulordcenter/3rdlibs/muduo/muduo/net/EventLoop.cc:149-172 | over all interleavings of loop and producers, the functors asked for, read off the calls of all threads alone, are those that have run, then those of the running batch, then the pending ones, in one order, each once |
| `EventLoop.NoLostWakeup` | ulordcenter/3rdlibs/muduo/muduo/net/EventLoop.cc:103-135 | a loop that may block with functors pending (or after quit) is about to be woken by a thread between its push and its write |
| `EventLoop.TurnExecutesAll` | ulordcenter/3rdlibs/muduo/muduo/net/EventLoop.cc:300-315 | every functor asked for before an iteration, by any thread, has run by the next one |
| `EventLoop.EventLoop.QueueInLoop` | ulordcenter/3rdlibs/muduo/muduo/net/EventLoop.cc:161-172 | push under the lock, then wakeup when called from another thread or from a functor: the queue step of the machine |
| `EventLoop.EventLoop.SwapPendingFunctors` | ulordcenter/3rdlibs/muduo/muduo/net/EventLoop.cc:300-309 | the swap takes every pending functor and leaves none |
| `TimerQueue.RunKeeps` | ulordcenter/3rdlibs/muduo/muduo/net/TimerQueue.cc:147-251 | over every run: both indexes hold the same timers under their current expirations, each allocated timer is in exactly one place, none is deleted twice, and the alarm is early enough |
| `TimerQueue.TakePlaces` | ulordcenter/3rdlibs/muduo/muduo/net/TimerQueue.cc:199-219 | a batch takes exactly the timers that expire at or before now |
| `TimerQueue.ExpiredCountIs` | ulordcenter/3rdlibs/muduo/muduo/net/TimerQueue.cc:203-207 | the expired entries are exactly the leading ones of the ordered set |
| `TimerQueue.NeverOversleeps` | ulordcenter/3rdlibs/muduo/muduo/net/TimerQueue.cc:147-156 | between handlers a nonempty queue has the descriptor armed for no later than its first expiration, up to the 100 microsecond floor, although cancel never re-arms |
| `TimerQueue.HowMuchTimeFromNow` | ulordcenter/3rdlibs/muduo/muduo/net/TimerQueue.cc:43-57 | seconds and nanoseconds add up to the distance, at least 100 microseconds |
| `TimerQueue.CancelWorks` | ulordcenter/3rdlibs/muduo/muduo/net/TimerQueue.cc:158-176 | after a cancel no later batch can take the timer exactly when it is not still waiting for its own insertion; what the running batch still fires is in TimerHistory.CancelledFiresExactly |
| `TimerQueue.EarlyCancelIsLost` | ulordcenter/3rdlibs/muduo/muduo/net/TimerQueue.cc:147-176 | the other case, for every such timer, between batches and from a callback of one: a cancel that overtakes the insertion has no effect, and there is a continuation in which the timer is inserted and a later batch takes it |
| `TimerQueue.CancelledNeverFires` | ulordcenter/3rdlibs/muduo/muduo/net/TimerQueue.cc:158-251 | over every run: a timer cancelled after its insertion, during a batch or outside, is in no batch taken later, whatever happens in between |
| `TimerQueue.StaleCancelsNothing` | ulordcenter/3rdlibs/muduo/muduo/net/TimerQueue.cc:158-176 | an id with an old sequence number cancels nothing, even when the address is in use again |
| `TimerQueue.TimerQueue.GetExpired` | ulordcenter/3rdlibs/muduo/muduo/net/TimerQueue.cc:199-219 | the loop moves the expired entries out of both indexes, in order |
| `TimerQueue.TimerQueue.Reset` | ulordcenter/3rdlibs/muduo/muduo/net/TimerQueue.cc:221-251 | repeating timers that were not cancelled are restarted, the others deleted once, and the alarm set for the first |
| `TimerLife.EndReadExactly` | ulordcenter/3rdlibs/muduo/muduo/net/TimerQueue.cc:221-251 | in every reachable state, for each timer of the batch: if it repeats and its id was not cancelled from a callback it is queued again, for its interval after the time of the batch and with the same sequence, else it is gone |
| `TimerLife.AskedIsQueued` | ulordcenter/3rdlibs/muduo/muduo/net/TimerQueue.cc:119-145 | over every run: from the call that creates a timer to the step that inserts it nothing changes it, and then it is queued for the time asked for |
| `TimerLife.QueuedIsTaken` | ulordcenter/3rdlibs/muduo/muduo/net/TimerQueue.cc:178-219 | over every run: a timer queued and not cancelled is taken, as it was queued, by the first batch at or after its time |
| `TimerLife.RepeatingIsQueuedAgain` | ulordcenter/3rdlibs/muduo/muduo/net/TimerQueue.cc:178-251 | over every run: a repeating timer that a batch takes and no callback cancels is queued when the batch ends, for its interval after it |
| `TimerLife.RepeatingIsTakenAgain` | ulordcenter/3rdlibs/muduo/muduo/net/TimerQueue.cc:178-251 | and the first batch at or after that time takes it again |
| `TimerLife.AlarmIsForFirst` | ulordcenter/3rdlibs/muduo/muduo/net/TimerQueue.cc:147-156 | whatever step sets the descriptor sets it for what is then the first expiration of the queue |
| `TimerHistory.TakenThenFired` | ulordcenter/3rdlibs/muduo/muduo/net/TimerQueue.cc:178-197 | over every run: the timers taken by batches are those that have fired, in that order, followed by those of the running batch still to fire |
| `TimerHistory.OneShotFiresOnce` | ulordcenter/3rdlibs/muduo/muduo/net/TimerQueue.cc:178-251 | over every run: a timer that does not repeat fires at most once |
| `TimerHistory.CancelledFiresExactly` | ulordcenter/3rdlibs/muduo/muduo/net/TimerQueue.cc:158-197 | a timer cancelled after its insertion fires again exactly when the running batch holds it and its turn has not come |
| `TimerHistory.IdReadExactly` | ulordcenter/3rdlibs/muduo/muduo/net/TimerQueue.cc:119-127 | the id that addTimer reads after queueing the timer is the right one exactly when the timer has not been deleted meanwhile |
| `TimerHistory.IdReadTooLate` | ulordcenter/3rdlibs/muduo/muduo/net/TimerQueue.cc:119-127 | a run in which it has been |
| `TcpHistory.OutputConserved` | ulordcenter/3rdlibs/muduo/muduo/net/TcpConnection.cc:139-203 | on every run, with calls from other threads interrupted anywhere: the payloads of all sends that ran, read off the calls and the results of write(2), are the bytes on the wire followed by the output buffer, the wire has exactly what write(2) took, and until handleClose has run write interest is on exactly while there is output |
| `TcpHistory.QueueInOrder` | ulordcenter/3rdlibs/muduo/muduo/net/TcpConnection.cc:89-111 | what other threads queue runs once each, in the order of the queue |
| `TcpHistory.CallsGoOn` | ulordcenter/3rdlibs/muduo/muduo/net/TcpConnection.cc:89-111 | a call from another thread goes on once for each time it passes its test, and a shutdown is queued once for each setting of the state |
| `TcpHistory.ShutdownCloses` | ulordcenter/3rdlibs/muduo/muduo/net/TcpConnection.cc:194-213 | once a shutdown has reached the loop thread, the write side is closed as soon as there is no output, unless the connection is closed altogether |
| `TcpConnection.ClosedReopens` | ulordcenter/3rdlibs/muduo/muduo/net/TcpConnection.cc:194-203 | a run in which a call past its test of the state sets it back after handleClose, so that output without write interest is in a state other than disconnected |
| `TcpConnection.ShutdownOnce` | ulordcenter/3rdlibs/muduo/muduo/net/TcpConnection.cc:194-213 | shutdown from the loop thread closes the write side at most once, after everything accepted is on the wire |
| `TcpConnection.OtherShutdownRepeats` | ulordcenter/3rdlibs/muduo/muduo/net/TcpConnection.cc:194-213 | in every reachable state: a shutdown from another thread that is past its test can be followed by two closings of the write side exactly when one has been made or another shutdown is on its way, or something is still to be sent |
| `TcpConnection.RaceRepeats` | ulordcenter/3rdlibs/muduo/muduo/net/TcpConnection.cc:194-203 | a run with nothing to send in which two callers pass the test before either sets the state, and the write side can be closed twice |
| `TcpConnection.TcpConnection.DoSend` | ulordcenter/3rdlibs/muduo/muduo/net/TcpConnection.cc:139-192 | direct write, fault and buffering branches of sendInLoop |
| `TcpConnection.TcpConnection.BeginCall` | ulordcenter/3rdlibs/muduo/muduo/net/TcpConnection.cc:89-111 | the test of the state with which send, shutdown and forceClose begin on another thread |
| `TcpConnection.TcpConnection.ContinueCall` | ulordcenter/3rdlibs/muduo/muduo/net/TcpConnection.cc:194-259 | what they do after it, step by step: set the state, queue to the loop |
| `TcpConnection.TcpConnection.OnWritable` | ulordcenter/3rdlibs/muduo/muduo/net/TcpConnection.cc:368-406 | a partial write keeps the rest; the last one turns write interest off and completes a pending shutdown |
| `ByteBuffer.Buffer.Retrieve` | ulordcenter/3rdlibs/muduo/muduo/net/Buffer.h:113-124 | takes a prefix off the readable bytes |
| `ByteBuffer.Buffer.MakeSpace` | ulordcenter/3rdlibs/muduo/muduo/net/Buffer.h:390-409 | growing or moving to the front keeps the readable bytes and makes room |
| `ByteBuffer.Buffer.Append` | ulordcenter/3rdlibs/muduo/muduo/net/Buffer.h:182-219 | puts bytes behind the readable ones |
| `ByteBuffer.Buffer.Prepend` | ulordcenter/3rdlibs/muduo/muduo/net/Buffer.h:354-360 | puts bytes in front of the readable ones |
| `ByteBuffer.Buffer.Shrink` | ulordcenter/3rdlibs/muduo/muduo/net/Buffer.h:362-369 | keeps the readable bytes in a smaller buffer |
| `ByteBuffer.Buffer.ReadFd` | ulordcenter/3rdlibs/muduo/muduo/net/Buffer.cc:25-57 | the split read appends exactly what the kernel delivered, part in the tail and part through the overflow array; a failure changes nothing but the saved error number |
| `ByteBuffer.Buffer.FindCrlf` | ulordcenter/3rdlibs/muduo/muduo/net/Buffer.h:80-85 | the first CR LF of the readable bytes, or none |
| `Bytes.IntRoundTrip` | ulordcenter/3rdlibs/muduo/muduo/net/Buffer.h:224-310 | an integer written in network order reads back as itself, negative ones included |
| `Bytes.IntDigitAt` | ulordcenter/3rdlibs/muduo/muduo/net/Buffer.h:224-310 | byte k of an integer of w bytes is its digit of weight 256^(w-1-k): most significant first, negative numbers in two's complement |
| `Codec.FrameBytes` | ulordcenter/codec.h:65-74 | a frame is the length in four bytes, most significant first, and then the message |
| `Codec.RoundTrip` | ulordcenter/codec.h:27-74 | decoding what was encoded gives the messages, with nothing left over |
| `Codec.ChunkingIrrelevant` | ulordcenter/codec.h:27-63 | the cutting of the stream into chunks makes no difference |
| `Codec.StreamRoundTrip` | ulordcenter/codec.h:27-74 | for any messages of at most 65536 bytes and any chunks: delivered in order, only an incomplete frame is held, and all are there at the end |
| `Codec.InvalidForever` | ulordcenter/codec.h:34-41 | after an invalid length nothing is ever delivered again |
| `Codec.OnMessage` | ulordcenter/codec.h:27-63 | the consuming loop over the in-place buffer delivers exactly the decoded messages and leaves the rest |
| `Codec.ReceiveStream` | ulordcenter/3rdlibs/muduo/muduo/net/TcpConnection.cc:347-366 | the stream theorem over the real buffer: readings of any sizes that the buffer offers, each followed by the consuming loop, deliver a prefix of the messages sent, hold only an incomplete frame, and at the end have delivered all |
| `Codec.FrameMessage` | ulordcenter/codec.h:65-74 | for a message of any length: its size, cast to 32 bits, in network order, and the message |
| `Codec.FrameArrives` | ulordcenter/codec.h:27-74 | what is framed arrives exactly when it has at most 65536 bytes; a longer message, up to the 32-bit limit, delivers nothing and ends the stream |
| `AsyncLogging.LinesAccountedFor` | ulordcenter/3rdlibs/muduo/muduo/base/AsyncLogging.cc:29-126 | on every run the lines appended are, in order, the finished batches, the buffers being written, the queued ones and the current one, and the file has each finished batch whole or, of a pile, its two oldest buffers |
| `AsyncLogging.NoLineLost` | ulordcenter/3rdlibs/muduo/muduo/base/AsyncLogging.cc:29-126 | file, in-flight, queued and current buffers are exactly the lines appended, in order, unless more than 25 buffers pile up |
| `AsyncLogging.PileWritten` | ulordcenter/3rdlibs/muduo/muduo/base/AsyncLogging.cc:87-102 | of a pile exactly the first two buffers are written |
| `LoggingTurns.TurnWritesAll` | ulordcenter/3rdlibs/muduo/muduo/base/AsyncLogging.cc:68-125 | over every run: after a turn, whatever was appended meanwhile, the batches written are exactly the lines appended before its swap, and the file is exactly these lines unless a turn found a pile |
| `LoggingTurns.DropsAreNoted` | ulordcenter/3rdlibs/muduo/muduo/base/AsyncLogging.cc:87-102 | over every run: the buffers in the file and those its notes speak of are together all that was swapped out, and there is a note exactly when some turn found more than 25 |
| `AsyncLogging.RunKeeps` | ulordcenter/3rdlibs/muduo/muduo/base/AsyncLogging.cc:53-126 | the spare buffers are present and empty at each loop head, and a missing next buffer implies a nonempty queue, so the recycling pops never fail |
| `AsyncLogging.AsyncLogging.AppendLogline` | ulordcenter/3rdlibs/muduo/muduo/base/AsyncLogging.cc:29-51 | the branches of append |
| `AsyncLogging.AsyncLogging.SwapBuffers` | ulordcenter/3rdlibs/muduo/muduo/base/AsyncLogging.cc:70-83 | the exchange of buffers under the lock |
| `AsyncLogging.AsyncLogging.WriteAndRecycleBuffers` | ulordcenter/3rdlibs/muduo/muduo/base/AsyncLogging.cc:85-125 | writing, dropping and recycling outside the lock |
| `Monitors.FirstInFirstOut` | ulordcenter/3rdlibs/muduo/muduo/base/BoundedBlockingQueue.h:31-55 | tasks are taken once each in order of acceptance, and the bound holds |
| `MonitorHistory.QueueIsHistory` | ulordcenter/3rdlibs/muduo/muduo/base/BoundedBlockingQueue.h:31-55 | over every run, read off the calls alone: the queue is the tasks of the puts that found a place, without as many of the first as takes that found something; these went out in that order |
| `Monitors.NoTakerLeftBehind` | ulordcenter/3rdlibs/muduo/muduo/base/ThreadPool.cc:113-132 | while a taker waits and the queue is not empty, some woken taker is about to get an item |
| `Monitors.NoPutterLeftBehind` | ulordcenter/3rdlibs/muduo/muduo/base/ThreadPool.cc:71-90 | while a producer waits and there is a place, some woken producer is about to put its task |
| `Monitors.NeverAllWait` | ulordcenter/3rdlibs/muduo/muduo/base/BoundedBlockingQueue.h:31-55 | takers and producers never all wait for each other |
| `Monitors.BoundedBlockingQueue.PutPass` | ulordcenter/3rdlibs/muduo/muduo/base/BoundedBlockingQueue.h:31-41 | one pass of put under the lock |
| `Monitors.BoundedBlockingQueue.TakePass` | ulordcenter/3rdlibs/muduo/muduo/base/BoundedBlockingQueue.h:43-55 | one pass of take under the lock |
| `WorkerPool.PoolRunsMonitor` | ulordcenter/3rdlibs/muduo/muduo/base/ThreadPool.cc:53-168 | every run of pool and workers is a run of the monitor, so order, bound and wakeups hold of the pool |
| `WorkerLife.WorkersStay` | ulordcenter/3rdlibs/muduo/muduo/base/ThreadPool.cc:148-155 | over every run: until the pool is stopped, every worker it was started with is still in its loop |
| `WorkerLife.TaskFindsWorker` | ulordcenter/3rdlibs/muduo/muduo/base/ThreadPool.cc:113-155 | in every reachable state of a running pool: while not every worker is at work, the first task can be taken by one in at most two steps and without a spurious wakeup |
| `WorkerPool.PlacesAfterStop` | ulordcenter/3rdlibs/muduo/muduo/base/ThreadPool.cc:53-168 | after stop, in every reachable state: any set of the producers waiting in run can still all get their places exactly when it is no larger than the free places and the workers past their test of the running flag together |
| `WorkerPool.StrandedExactly` | ulordcenter/3rdlibs/muduo/muduo/base/ThreadPool.cc:53-168 | after stop a producer in run never returns, whatever follows, exactly when the queue is full and no worker is past its test |
| `WorkerPool.SleeperWakesExactly` | ulordcenter/3rdlibs/muduo/muduo/base/ThreadPool.cc:53-168 | without spurious wakeups, a producer asleep at stop can still be woken and put exactly when some worker is past its test |
| `WorkerPool.StopStrands` | ulordcenter/3rdlibs/muduo/muduo/base/ThreadPool.cc:53-90 | a run from the start of the pool in which stop leaves a producer waiting for ever |
| `WorkerPool.ThreadPool.RunPass` | ulordcenter/3rdlibs/muduo/muduo/base/ThreadPool.cc:71-90 | one pass of run under the lock, in a pool with threads |
| `WorkerPool.ThreadPool.TakePass` | ulordcenter/3rdlibs/muduo/muduo/base/ThreadPool.cc:113-132 | one pass of take under the lock, after stop included |
| `WorkerPool.ThreadPool.TestRunning` | ulordcenter/3rdlibs/muduo/muduo/base/ThreadPool.cc:148-155 | the test at the head of the worker loop: on to take, or out |
| `Pollers.PollPoller.UpdateChannel` | ulordcenter/3rdlibs/muduo/muduo/net/poller/PollPoller.cc:77-112 | afterwards the kernel watches exactly the mask of each channel, and an entry is ignored exactly after an update that found it registered and its mask empty; the bijection of descriptors and indexes is kept |
| `Pollers.PollPoller.RemoveChannel` | ulordcenter/3rdlibs/muduo/muduo/net/poller/PollPoller.cc:114-142 | the swap with the last entry keeps the bijection, for entries of either sign |
| `Pollers.PollPoller.FillActiveChannels` | ulordcenter/3rdlibs/muduo/muduo/net/poller/PollPoller.cc:57-75 | the channels of all marked entries, in order, although the scan stops early |
| `Pollers.EPollPoller.UpdateChannel` | ulordcenter/3rdlibs/muduo/muduo/net/poller/EPollPoller.cc:109-151 | the same watched map; ADD only for unregistered descriptors, MOD and DEL only for registered ones |
| `Pollers.EPollPoller.RemoveChannel` | ulordcenter/3rdlibs/muduo/muduo/net/poller/EPollPoller.cc:153-172 | the same for removal |
| `Pollers.RunBoth` | ulordcenter/3rdlibs/muduo/muduo/net/poller/EPollPoller.cc:109-172 | after any updates and removals that the poll back end accepts, both back ends watch the same descriptors for the same events, namely those of the masks |
| `PollerHistory.LastCounts` | ulordcenter/3rdlibs/muduo/muduo/net/poller/PollPoller.cc:77-142 | after any updates and removals, a descriptor is registered exactly when the last thing asked about it was an update, with the mask of that update |
| `PollerHistory.RunAsAsked` | ulordcenter/3rdlibs/muduo/muduo/net/poller/EPollPoller.cc:109-172 | both back ends watch a descriptor for some events exactly when the last thing they were asked about it was an update to just those |
| `Calendar.DateRoundTrip` | ulordcenter/3rdlibs/muduo/muduo/base/Date.cc:20-42 | a date of the Gregorian calendar from the year -4799 on, converted to its Julian day number and back, is itself |
| `Calendar.JdnRoundTrip` | ulordcenter/3rdlibs/muduo/muduo/base/Date.cc:20-42 | the other way round, and the date exists |
| `Calendar.NextDayCounts` | ulordcenter/3rdlibs/muduo/muduo/base/Date.cc:20-27 | the next day of the calendar has the next number |
| `Calendar.TimeRoundTrip` | ulordcenter/3rdlibs/muduo/muduo/base/TimeZone.cc:317-358 | a time broken down and put together again is unchanged, before 1970 as well |
| `Calendar.FieldsRoundTrip` | ulordcenter/3rdlibs/muduo/muduo/base/TimeZone.cc:317-358 | the fields of a valid date and time of day survive the trip through seconds |
| `Calendar.Anchor` | ulordcenter/3rdlibs/muduo/muduo/base/TimeZone.cc:317-343 | the time 0 is midnight of Thursday, 1 January 1970, and the following seconds are those of that day |
| `Calendar.ToUtcTime` | ulordcenter/3rdlibs/muduo/muduo/base/TimeZone.cc:317-343 | the step-by-step filling of the fields, negative remainders corrected |
| `Calendar.WeekDayRight` | ulordcenter/3rdlibs/muduo/muduo/base/Date.h:96-99 | the week day is right exactly when the day number is at least -1 or one less than a multiple of seven |
| `Calendar.WeekDayWrong` | ulordcenter/3rdlibs/muduo/muduo/base/Date.h:96-99 | a date in range whose week day is negative |
| `LocalTime.RoundTripExactly` | ulordcenter/3rdlibs/muduo/muduo/base/TimeZone.cc:272-314 | for any table that a file yields, in order or not, and the code's own search in it: a moment survives the trip through local time exactly when the search by the local clock finds a type of the same offset, or one an hour less whose summer-time sign holds |
| `LocalTime.LocalRoundTrip` | ulordcenter/3rdlibs/muduo/muduo/base/TimeZone.cc:272-314 | when both clocks rise over the transitions and repeated readings are over before the next one: exactly when the clock reading does not come again, or comes again because summer time ends by one hour |
| `LocalTime.SetBackFails` | ulordcenter/3rdlibs/muduo/muduo/base/TimeZone.cc:272-314 | a zone that sets its standard time back by an hour, and a moment that comes back an hour late |
| `LocalTime.CrossedFails` | ulordcenter/3rdlibs/muduo/muduo/base/TimeZone.cc:218-250 | a table that does not rise by the local clock, and a moment, whose reading comes only once, that comes back an hour early |
| `LocalTime.ShownAs` | ulordcenter/3rdlibs/muduo/muduo/base/TimeZone.cc:272-292 | in a table that rises, a moment is shown as that many seconds later as the type of the last transition at or before it says, the first type before all of them |
| `LocalTime.FoundIs` | ulordcenter/3rdlibs/muduo/muduo/base/TimeZone.cc:218-250 | in a table that rises, the search finds the last transition at or before a time, and nothing else |
| `LocalTime.FindLocaltime` | ulordcenter/3rdlibs/muduo/muduo/base/TimeZone.cc:218-250 | the front check, the binary search and its correction by one, on any table, with the assertion in between |
| `LocalTime.TimeZone.ToLocalTime` | ulordcenter/3rdlibs/muduo/muduo/base/TimeZone.cc:272-292 | the local fields of a moment |
| `LocalTime.TimeZone.FromLocalTime` | ulordcenter/3rdlibs/muduo/muduo/base/TimeZone.cc:294-314 | the moment of local fields, with the second look when summer time is claimed |
| `MemcacheStore.ShardsAreOneMap` | ulordcenter/3rdlibs/muduo/examples/memcached/server/MemcacheServer.cc:48-159 | under any interleaving of locked shard steps, the 4096 shards answer like one map |
| `MemcacheStore.TokensUnique` | ulordcenter/3rdlibs/muduo/examples/memcached/server/MemcacheServer.cc:57-131 | no two live items carry the same token |
| `MemcacheStore.CasExact` | ulordcenter/3rdlibs/muduo/examples/memcached/server/MemcacheServer.cc:123-135 | a cas store with a token read earlier succeeds exactly when nobody wrote or deleted the key since the read |
| `MemcacheStore.BodiesJoined` | ulordcenter/3rdlibs/muduo/examples/memcached/server/MemcacheServer.cc:92-119 | append and prepend join the bodies, keep one trailing CR LF and the flags of the item already there |
| `MemcachePolicies.EveryOperation` | ulordcenter/3rdlibs/muduo/examples/memcached/server/MemcacheServer.cc:48-159 | every operation of a run, said of the map before and after it: set always stores, add exactly a missing key, replace, append and prepend exactly an existing one, cas exactly when the token is that of the item; what is stored has the drawn token, nothing else changes, a refused one changes nothing, and the reply says which happened |
| `MemcacheStore.MemcacheServer.StoreItem` | ulordcenter/3rdlibs/muduo/examples/memcached/server/MemcacheServer.cc:48-140 | the six policies on the shard, with the reply and the existence flag |
| `MemcacheStore.MemcacheServer.GetItem` | ulordcenter/3rdlibs/muduo/examples/memcached/server/MemcacheServer.cc:144-151 | the look-up in the shard |
| `MemcacheStore.MemcacheServer.DeleteItem` | ulordcenter/3rdlibs/muduo/examples/memcached/server/MemcacheServer.cc:153-159 | the removal from the shard |
| `MemcacheStore.Item.Append` | ulordcenter/3rdlibs/muduo/examples/memcached/server/Item.cc:33-39 | bytes received are added behind those already there |
| `MemcacheStore.Item.ResetKey` | ulordcenter/3rdlibs/muduo/examples/memcached/server/Item.cc:56-63 | the look-up item takes another key |
| `MemcacheSession.ChunkingIrrelevant` | ulordcenter/3rdlibs/muduo/examples/memcached/server/Session.cc:73-134 | every chunking of a request stream asks the same of the store and for the same replies, and leaves the same parser state; long lines can also have the connection shut down, which is the next row |
| `MemcacheSession.EffectsExact` | ulordcenter/3rdlibs/muduo/examples/memcached/server/Session.cc:73-134 | every chunking leads to exactly the requests and replies of the whole stream and no shutdown of its own, exactly when all lines of the stream have at most 1023 characters |
| `MemcacheSession.NeverGivenUp` | ulordcenter/3rdlibs/muduo/examples/memcached/server/Session.cc:108-118 | no chunking makes the server shut the client down exactly when all lines of the stream have at most 1023 characters |
| `MemcacheSession.ValueExact` | ulordcenter/3rdlibs/muduo/examples/memcached/server/Session.cc:136-181 | a value fills to exactly its declared size, whatever bytes it holds |
| `MemcacheSession.SkipExact` | ulordcenter/3rdlibs/muduo/examples/memcached/server/Session.cc:183-199 | an oversized value is skipped by exactly its size and line end |
| `MemcacheSession.RequestsArrive` | ulordcenter/3rdlibs/muduo/examples/memcached/server/Session.cc:201-236 | update requests written by a client lead to exactly the operations meant, in order, under any chunking, and the client is not given up |
| `MemcacheSession.SetThenGet` | ulordcenter/3rdlibs/muduo/examples/memcached/server/Session.cc:231-269 | setting a value and getting its key sends back exactly that value, whatever was stored before |
| `MemcacheSession.LineRead` | ulordcenter/3rdlibs/muduo/examples/memcached/server/Session.cc:325-394 | a request line, taken apart, means what the client meant |
| `MemcacheProtocol.AllArrive` | ulordcenter/3rdlibs/muduo/examples/memcached/server/Session.cc:201-423 | requests of every kind, updates, get and gets of several keys, delete and version, with noreply or without, lead to exactly what they mean, in order, under any chunking |
| `MemcacheProtocol.ServedByProtocol` | ulordcenter/3rdlibs/muduo/examples/memcached/server/Session.cc:73-423 | from any state of the store: the items, the tokens and all that is sent, after requests of every kind in any chunks, are those of a plain server that keeps to the protocol, refused updates and missing keys included |
| `MemcacheProtocol.SetDeleteGet` | ulordcenter/3rdlibs/muduo/examples/memcached/server/Session.cc:201-423 | setting, deleting and getting a key sends STORED, DELETED and END without a value, whatever was there before, and another deletion sends NOT_FOUND |
| `MemcacheProtocol.LongKeyLeaks` | ulordcenter/3rdlibs/muduo/examples/memcached/server/Session.cc:242-268 | values found in front of a key that is too long are sent in front of the answer to the next look-up |
| `MemcacheProtocol.LeaksExactly` | ulordcenter/3rdlibs/muduo/examples/memcached/server/Session.cc:242-268 | a look-up leaves values behind exactly when it meets a key that is too long behind one that it has found |
| `MemcacheSession.AsksOk` | ulordcenter/3rdlibs/muduo/examples/memcached/server/Session.cc:136-181 | the store is only asked to take complete values that end with a line end |
| `MemcacheSession.Session.OnMessage` | ulordcenter/3rdlibs/muduo/examples/memcached/server/Session.cc:73-134 | the loop over the input does what the whole-stream parser does |
| `MemcacheSession.Session.ReceiveValue` | ulordcenter/3rdlibs/muduo/examples/memcached/server/Session.cc:136-181 | one turn of filling a value |
| `MemcacheSession.Session.DiscardValue` | ulordcenter/3rdlibs/muduo/examples/memcached/server/Session.cc:183-199 | one turn of skipping a value |
| `MemcacheSession.Session.ProcessRequest` | ulordcenter/3rdlibs/muduo/examples/memcached/server/Session.cc:201-306 | the dispatch of a request line, with noreply |
| `MemcacheSession.Session.DoUpdate` | ulordcenter/3rdlibs/muduo/examples/memcached/server/Session.cc:325-394 | the checks on an update line and what follows it |
| `MemcacheClients.ServedOneByOne` | ulordcenter/3rdlibs/muduo/examples/memcached/server/Session.cc:73-306 | any number of sessions over the sharded store, their steps interleaved anyhow: there is one order of all that was done in which each client's part is what its own chunks lead to, every output is that of one server with one map, and the operations are the store's history |
| `MemcacheClients.SetIsSeen` | ulordcenter/3rdlibs/muduo/examples/memcached/server/MemcacheServer.cc:48-151 | over every run: what one client has set is what another is shown, with its token, unless a turn in between may have changed it |
| `MemcacheClients.NobodyStuck` | ulordcenter/3rdlibs/muduo/examples/memcached/server/MemcacheServer.cc:48-159 | over every run: a session with something to do can do it, or waits for one that holds its shard and can go on |
| `Multiplexer.StreamsPreserved` | ulordcenter/3rdlibs/muduo/examples/multiplexer/demux.cc:81-184 | for every id, what its socket was given followed by what is pending is a prefix of what the client sent in the same use of the id |
| `Multiplexer.NothingMissing` | ulordcenter/3rdlibs/muduo/examples/multiplexer/demux.cc:81-184 | once the link is empty, every connected client has all its bytes with its socket or pending |
| `MultiplexHistory.SocketGetsPrefix` | ulordcenter/3rdlibs/muduo/examples/multiplexer/demux.cc:81-184 | over every run: what the socket of an id was given and what is pending for it is the beginning of what one client with that id has sent, read off the clients' calls alone |
| `MultiplexHistory.SocketGetsAll` | ulordcenter/3rdlibs/muduo/examples/multiplexer/demux.cc:81-184 | once the link is empty, it is all that the client still there has sent, and nothing else |
| `Multiplexer.FailsOnlyOnReuse` | ulordcenter/3rdlibs/muduo/examples/multiplexer/demux.cc:119-155 | an assertion of the demultiplexer is violated exactly when an id comes up whose entry is still there, and then its last socket had been connected |
| `Multiplexer.ReuseFails` | ulordcenter/3rdlibs/muduo/examples/multiplexer/demux.cc:119-155 | a run from the start, with clients of any address, that violates it: an id is used and left, the nine others are used, and it comes up again |
| `Multiplexer.ParsePrefix` | ulordcenter/3rdlibs/muduo/examples/multiplexer/demux.cc:81-117 | whatever has arrived of a list of packets, a prefix of it is read and the rest kept |
| `Multiplexer.UpRead` | ulordcenter/3rdlibs/muduo/examples/multiplexer/demux.cc:119-155 | the text of an up command is read as one for that id |
| `Multiplexer.DownRead` | ulordcenter/3rdlibs/muduo/examples/multiplexer/demux.cc:119-155 | the text of a down command is read as one for that id |
| `Multiplexer.MultiplexServer.SendBackendBuffer` | ulordcenter/3rdlibs/muduo/examples/multiplexer/multiplexer_simple.cc:129-142 | the loop cuts a client's bytes into packets of at most 255 bytes, in order |
| `Multiplexer.MultiplexServer.OnClientUp` | ulordcenter/3rdlibs/muduo/examples/multiplexer/multiplexer_simple.cc:52-78 | the first free id and the up command, or the client is turned away |
| `Multiplexer.DemuxServer.OnServerMessage` | ulordcenter/3rdlibs/muduo/examples/multiplexer/demux.cc:81-117 | the loop reads as many packets as there are |
| `Multiplexer.DemuxServer.OnSocksConnection` | ulordcenter/3rdlibs/muduo/examples/multiplexer/demux.cc:157-184 | what was pending goes to the socket first |
| `License.RenewalsLengthen` | licensetool/licensewatcher.cc:50-113 | each renewal that is signed and written strictly lengthens that licence, stays within the node period and changes no other row; any other leaves the table as it is |
| `License.GrowsExactly` | licensetool/licensewatcher.cc:64-98 | every due row gains time exactly when the renewal limit is at least the update window |
| `License.ServedNeverFalls` | ulordcenter/ulordcenter.cc:302-347 | the period served for a coin never decreases from one request to a later one |
| `License.ServedIsFresh` | ulordcenter/ulordcenter.cc:302-347 | a confirmed row that reaches past the window is served with at least the window, when the read succeeds |
| `License.ServedIsBacked` | ulordcenter/ulordcenter.cc:302-347 | nothing is served beyond what the table holds |
| `LicenseEffects.AnswerExactly` | ulordcenter/ulordcenter.cc:302-347 | a request is answered exactly when, and with the period, that cache and table call for: a reaching entry as it is, a stale one renewed only from a confirmed row past the window, a missing one from any confirmed row, however short |
| `LicenseEffects.CacheExactly` | ulordcenter/ulordcenter.cc:302-347 | a miss brings in every confirmed row of the transaction, a stale hit every confirmed row past the window, and nothing else changes |
| `LicenseEffects.RenewalExactly` | licensetool/licensewatcher.cc:64-113 | in every run: a renewal is made exactly under the conditions of the code and sets the licence to the renewal limit from now or the end of the node period, whichever comes first; no other column or row changes |
| `LicenseEffects.RoundRenews` | licensetool/licensewatcher.cc:50-113 | a whole round with no failures: exactly the confirmed rows that run out within the window and are paid for come out renewed so, and every other row is as before |
| `License.LicenseWatcher.SelectNeedUpdateMNData` | licensetool/licensewatcher.cc:50-62 | exactly the due rows, each once |
| `License.LicenseWatcher.SignMNLicense` | licensetool/licensewatcher.cc:64-98 | refusals, the new period and the failing signature |
| `License.LicenseWatcher.UpdateDB` | licensetool/licensewatcher.cc:100-113 | the loop over a batch, row by row, with signing and writing that may fail |
| `License.UCenter.SelectMNData` | ulordcenter/ulordcenter.cc:302-347 | hit, stale hit and miss, and what the cache becomes |
| `IdleScan.EarlyScanIsFull` | ulordcenter/ulordcenter.cc:76-93 | while the clock does not go back and the base loop serves the connections itself, the early-exit scan does what a full scan would |
| `IdleScan.OneThreadHidesNone` | ulordcenter/ulordcenter.cc:258-286 | the same clock and one thread of its own for the connections: the scan closes all that a full one would, and differs from it exactly when a connection came after the scan read the clock, behind its stop |
| `IdleScan.TwoThreadsHide` | ulordcenter/ucentermain.cc:42-45 | two threads for the connections, which is the default, and a clock that never goes back: a run in which an idle connection hides behind a young one |
| `IdleScan.EarlyIsFullExactly` | ulordcenter/ulordcenter.cc:258-286 | for any list: exactly when there is nothing to do behind the stop |
| `IdleEffects.ScanShutsIdle` | ulordcenter/ulordcenter.cc:258-286 | in every run in which the clock does not go back and the base loop serves the connections itself: the scan shuts exactly the connections silent for too long, in the order in which they came, and does nothing else |
| `IdleScan.BackwardClockHides` | ulordcenter/ulordcenter.cc:258-286 | the base loop alone and a clock that goes back: a run in which one hides |
| `IdleScan.UCenter.OnTimer` | ulordcenter/ulordcenter.cc:258-286 | the loop computes the early-exit scan |
| `SudokuStat.WindowIsLog` | ulordcenter/3rdlibs/muduo/examples/sudoku/stat.h:85-160 | each slot has the exact count and latency sum of the good responses of its second since the last reset |
| `SudokuStat.WindowMovesForward` | ulordcenter/3rdlibs/muduo/examples/sudoku/stat.h:85-160 | between resets the window start never moves back |
| `SudokuWindow.LastMinuteIsThere` | ulordcenter/3rdlibs/muduo/examples/sudoku/stat.h:85-160 | over every run: the last slot is for the newest second, and every good response of the last sixty seconds that was the newest when it was given is in the window, however the clock jumped |
| `SudokuStat.ReportIsLog` | ulordcenter/3rdlibs/muduo/examples/sudoku/stat.h:21-66 | the requests and the latency sum of the last minute and both averages of a report are those of the log, over the seconds in the window and since the last reset |
| `SudokuStat.TotalsAreLog` | ulordcenter/3rdlibs/muduo/examples/sudoku/stat.h:68-178 | every total, of requests, responses, solved, bad requests and latencies, is that of the history since the last reset; the dropped requests are counted over the whole history |
| `SudokuStat.SudokuStat.RecordResponse` | ulordcenter/3rdlibs/muduo/examples/sudoku/stat.h:85-160 | all branches of recording a response |
| `SudokuStat.SudokuStat.Report` | ulordcenter/3rdlibs/muduo/examples/sudoku/stat.h:21-66 | the loops over the slots compute the figures of the report |
| `TimingWheel.DiesExactly` | ulordcenter/3rdlibs/muduo/examples/idleconnection/echo.cc:35-80 | an entry is alive exactly until as many turns after its last touch as there are buckets |
| `TimingWheel.ShutExactly` | ulordcenter/3rdlibs/muduo/examples/idleconnection/echo.cc:76-80 | a turn shuts down exactly the existing connections last touched that many turns before |
| `WheelHistory.ShutWhenUnused` | ulordcenter/3rdlibs/muduo/examples/idleconnection/echo.cc:35-80 | over every run, with the last use read off the events alone: an entry is in a bucket exactly until as many turns after it as there are buckets, and a turn shuts exactly the connections still there and last used that many turns before |
| `TimingWheel.DeadStaysDead` | ulordcenter/3rdlibs/muduo/examples/idleconnection/echo.cc:57-74 | activity after death does not bring an entry back |
| `TimingWheel.EchoServer.OnTimer` | ulordcenter/3rdlibs/muduo/examples/idleconnection/echo.cc:76-80 | pushing an empty bucket drops the oldest, and entries nobody else holds die |
| `LogStream.DecimalParses` | ulordcenter/3rdlibs/muduo/muduo/base/LogStream.cc:34-55 | every integer, the least one included, parses back from its text |
| `LogStream.TextUnique` | ulordcenter/3rdlibs/muduo/muduo/base/LogStream.cc:34-73 | the text is the only row of digits without a leading zero that parses to the number |
| `LogStream.FitsNumericSize` | ulordcenter/3rdlibs/muduo/muduo/base/LogStream.cc:98-114 | any 64-bit integer fits in the space the stream insists on |
| `LogStream.Convert` | ulordcenter/3rdlibs/muduo/muduo/base/LogStream.cc:34-55 | digits backwards with truncating division, sign, then reversal in place |
| `LogStream.ConvertHex` | ulordcenter/3rdlibs/muduo/muduo/base/LogStream.cc:57-73 | the same in base sixteen |
| `LogStream.LogStream.FormatInteger` | ulordcenter/3rdlibs/muduo/muduo/base/LogStream.cc:106-114 | all of the text or none of it |

## Left out

- EventLoop: functors queued on the loop thread before `loop()` starts get no wakeup; the machine starts with the loop running. Timer, channel and poll callbacks other than the wakeup are not modelled.
- TimerQueue: callbacks are a step without effect on the queue other than the adding and cancelling that may happen between steps; `std::set` is an ordered sequence.
- TcpConnection: how often connection callbacks fire, the high-water-mark callback and the receiving side; the error branches of a write are one kind of failure. Reading and writing the state are single steps, which a variable that is not atomic does not promise. The loop running a queued forceCloseInLoop is the step `Close`.
- Pollers: using a channel again after its removal from the poll back end, and removing one there that no update has marked to be ignored, as its first registration never does, break assertions of the code and are excluded. A descriptor registered with an empty mask, which both kernels still watch for errors, counts as watched for nothing.
- WorkerPool: exceptions thrown by tasks; run in a pool without threads, which calls the task at once; joining the workers at the end of stop. The running flag is read as one step.
- AsyncLogging: lines as long as a large buffer or longer are dropped by the code and by the model; the last swap after `stop` is not made.
- Calendar: 32-bit overflow of day numbers.
- LocalTime: the bytes of a zone file.
- LocalTime.LocalRoundTrip: about tables over which both clocks rise and where the readings that come again after a transition are over before the next one; there the condition can be said without the searches. `LocalTime.RoundTripExactly` has the condition for every table.
- MemcacheStore: wrap-around of the 64-bit token counter and of the 32-bit length of an item that is appended to without end; expiry times are stored and never acted on.
- MemcacheSession: the binary protocol, which is unfinished in the code. A line that makes the server violate an assertion or read past its words leads to `Failed`. A number word is read as the C library does, without its locale.
- Multiplexer: the direction from the demultiplexer back to the clients, which uses the same packets, and a second backend session, in which ids of the first may return.
- License: SQL and the connection to the server, keys, signatures and hashing; a read or write may fail and so may signing. Times are below 2^31, as `atoi` reads them. Clearing the table and lowering a licence by hand are outside the runs considered.
- IdleScan: `timeDifference` yields a floating-point number of seconds; whole microseconds are compared here. Append, erasure and scan of the list are one step each, although no lock protects it. The delayed forced close after `shutdown` is not modelled.
- SudokuStat: seconds before 1970 and the second zero, for which the code reads an empty buffer; 64-bit overflow.
- TimingWheel: an idle time of zero seconds, for which there is no bucket; other owners of an entry than the buckets.
- LogStream: floating-point formatting and `Fmt`.
- `Hex2Int64`, the boost archive requests and their keys, reward tables, the inspector, HTTP, connector retries, and the simple example servers.
