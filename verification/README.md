# Verified model of dtest

dtest is a C++ test framework. This project models its stateful parts in Dafny and proves what they
promise: the memory tracker, the leak verdict, the dependency scheduler, the driver and worker
protocol, the notification channel, messages with their sockets, module registration, and the fast
random generator.

`dafny verify dfyconfig.toml` checks everything.

| file | part of dtest |
|---|---|
| `Words.dfy`, `Collections.dfy`, `TestStatus.dfy` | 64-bit word arithmetic, sequences and sets, test statuses by severity |
| `IntervalTable.dfy` | the ordered table of mapped regions and what unmapping means for it |
| `MemoryTracker.dfy` | the `Memory` class: two tables and six wrapping counters |
| `MemoryRuns.dfy` | conservation, order of unmapping and high-water marks over all runs |
| `LeakVerdict.dfy` | resource snapshots and the memory verdict of a unit test |
| `Scheduler.dfy`, `SchedulerTheorems.dfy` | `Test::runAll` |
| `Registration.dfy` | test registration and module dependencies |
| `SuperChannel.dfy`, `SuperChannelSafety.dfy`, `SuperChannelProgress.dfy` | spawning, RUN_TEST, FINISHED_TEST, joining, terminating: safety, and how long tests take |
| `WorkerPool.dfy` | the driver's worker tables: spawning, allocating, joining, releasing |
| `TestChannel.dfy`, `Barrier.dfy` | counting waits, user messages, and rounds of notify and wait |
| `Codec.dfy`, `Messages.dfy`, `MessageTransfer.dfy` | value encoding, the message buffer, framing and round trip |
| `SocketIO.dfy` | the send loop with its back-off and the receive loop |
| `FastRandom.dfy` | `frand` |

## How the parts are modelled

- **Memory tracker.** A class with the fields of `Memory`. Each method's contract equates the new state
  with a reference transition. For unmapping that is map subtraction (`Cut`, the maximal surviving runs
  of every block) up to the first address nobody owns, and the release loop is proved to compute it.
  Sizes and counters are 64-bit words that wrap; addresses are integers. Whether a call stack may be
  tracked is an arbitrary parameter.
- **Scheduler.** The loops of `runAll` over its local lists and tables. A test's copy is alive exactly
  while it is a key of the table `owed`, so a lookup there is a proof that the copy was not deleted.
  The status a test ends with is an oracle.
- **Super channel.** A step system: every action of the driver and of a worker process is one atomic
  step, messages in flight are per-worker bags that deliver in any order (to a worker they share a
  connection, so there are more runs here than there), and history variables record who handled and
  reported which test, and what the report said.
- **Worker tables.** The same operations once more as the loops of `DriverContext` over its two tables,
  with the messages a call receives as a parameter, in any order.
- **Test channel.** Classes for the two contexts. `inbox` lists the messages still to arrive, in any
  order, and a call that finds it empty does not return. Ghost fields keep everything received,
  consumed and handed out.
- **Messages and sockets.** A message is an array with a cursor. The kernel is an oracle for every
  system call: partial sends, refusals, fragments, would-block, signals, errors and end of stream.
  `Receive` tells a receive event by event; `Brings`, `After`, `Ends` and `Asleep` say of the coming
  events alone what it will get, so that delivery, and not only its result, is stated. The
  allocation length is a 64-bit word, as in the code.

## What the code does that one might not expect

Where the code and its own documentation differ, the model follows the code.

- A test that only shrinks memory it already held is reported as leaking; `LeakVerdictExact` says
  exactly for which bodies the verdict is right, `ShrinkIsReportedAsLeak` is an instance.
- Tracking an address that is still tracked charges the counters but keeps the old entry, so the
  balance is lost; `StepBalancedIff` says for every call exactly when.
- `clear` leaves the lock depth changed unless the tracker was active (`Memory.ClearAll`).
- The block high-water mark is never restarted, the byte mark is (`Memory.ResetMaxAllocation`,
  `Snapshot.Take`), so a body that keeps its limit of blocks may be reported as exceeding it.
  `BlockLimitExact` says exactly when the report is right, `EarlierBlocksBreakLimit` is an instance,
  and `ReportedPeak` says which blocks are reported.
- A worker's count of notifications is not restarted between tests. A notification left over lets a
  worker get a round ahead of the driver, or the driver ahead of a worker, exactly when it was sent
  to that worker (`OvertakesIff`) or by it (`LagsIff`).
- `runAll` reports success when tests stay blocked (`SuccessWithEverythingBlocked`); success means
  that all tests ran exactly when no tests wait in a cycle or for an empty module
  (`SuccessMeansAllRanIff`). The user guide
  says a module needs its dependencies to run without errors; skipped tests, and tests that end in
  the status they expect, also count.
- `Message::recv` compares the payload result with a 32-bit -1 while the receive loop returns a 64-bit
  one, so a stream that ends inside a message has its beginning delivered (`DeliveredIff`, `ReceiveCut`).
- A frame length below 8, or within 1016 of 2^64, makes `Message::recv` ask the socket for more bytes
  than the message has allocated: the length without the header, or the grown allocation length,
  wraps. `RoomIff` is the exact condition for room, `ReceiveHeader` the exact range of lengths; for
  length 0 the allocation even shrinks, to 1016 bytes. A message made with fewer than eight bytes
  has room for nothing.
- The back-off leaves its range when a one-byte send is refused at size 1 (`ResizeInRange`).
- Seeds that are multiples of 2^31 - 1 leave `frand` stuck at one value (`StuckIffMultiple`).
- The user guide reserves worker id 0 for the driver, yet workers registered on the command line are
  numbered from 0; the model numbers them as the code does.
- Declaring a module's dependencies twice makes them depend on when a test was registered
  (`RedeclaringDependsOnOrder`); the order does not matter exactly when all declarations are of one
  set (`OrderDoesNotMatterIff`).

## Model

| member | source | states |
|---|---|---|
| IntervalTable.CutIsCut | src/memory.cpp:329-380 | the reference table after unmapping holds exactly the maximal runs of every block that avoid the removed addresses, with the block's call stack |
| IntervalTable.CutUnique | src/memory.cpp:329-380 | no other table holds exactly those runs |
| IntervalTable.CutValid | src/memory.cpp:329-380 | the surviving blocks are non-empty, disjoint and keyed by their last address |
| IntervalTable.CutTracked | src/memory.cpp:329-401 | exactly the removed addresses lose their owner |
| IntervalTable.CutKeepsOwner | src/memory.cpp:338-379 | every other address stays with the allocation that owned it |
| IntervalTable.CutCompose | src/memory.cpp:325-405 | two removals are one removal of the union |
| IntervalTable.CarveIsCut | src/memory.cpp:342-379 | trimming, splitting or dropping the one block around a range is the removal of that range from the whole table |
| IntervalTable.BytesIsTracked | src/memory.cpp:418-421 | the sizes of all regions add up to the number of owned addresses |
| MemoryTracker.LowerBound | src/memory.cpp:330-332 | the least key not below an address, or that there is none |
| MemoryTracker.LowerBoundOwns | src/memory.cpp:330-336 | that key names the only block that can own the address, and the break is taken exactly when nobody does |
| MemoryTracker.Memory.Enter | include/dtest_core/memory.h:42-46 | a call is recorded exactly when tracking is on and the thread is not inside the tracker |
| MemoryTracker.Memory.TrackBlock | src/memory.cpp:129-144 | a heap block is added, charged and the marks taken, or nothing changes |
| MemoryTracker.Memory.TrackRegion | src/memory.cpp:146-160 | a region is added under its last address, charged and the marks taken, or nothing changes |
| MemoryTracker.Memory.RetrackBlock | src/memory.cpp:162-199 | a known block moved to itself or a free address is found there, with the new size and its call stack, and nowhere else; it is charged the difference; an unknown address is ignored or raises and switches tracking off |
| MemoryTracker.MovedBlock | src/memory.cpp:186-192 | a moved block stands at its new address alone and all others stay |
| MemoryTracker.TrackMoveFree | src/memory.cpp:129-323 | tracking, moving and freeing at the new address leaves the blocks as before |
| MemoryRuns.MappedOwners | src/memory.cpp:146-160 | every address of a new region belongs to one block with its call stack, and all others keep their owner |
| MemoryTracker.Memory.RemoveBlock | src/memory.cpp:291-323 | a block is released and counted; an unknown address is ignored or raises |
| MemoryTracker.Memory.TrimHead | src/memory.cpp:342-356 | releasing from the start of a block carves exactly the released bytes out of the table and counts them |
| MemoryTracker.Memory.TrimTail | src/memory.cpp:357-379 | releasing from inside a block keeps what lies below, and what lies above, and counts the released bytes |
| MemoryTracker.Memory.TrimOnce | src/memory.cpp:329-380 | one turn of the loop stops at an unowned address or removes a non-empty tracked range |
| MemoryTracker.Memory.ReleaseRange | src/memory.cpp:329-380 | the loop terminates, is map subtraction up to the first unowned address, and leaves bytes over exactly when the range was not fully tracked |
| MemoryTracker.Memory.RemoveRegion | src/memory.cpp:325-405 | unmapping is map subtraction with the freed bytes counted, and the not-found path is taken exactly when the range was not fully tracked, at the first unowned address |
| MemoryTracker.Memory.RetrackRegion | src/memory.cpp:201-289 | moving a region unmaps the old range and maps the new one only when all of the old was tracked |
| MemoryTracker.RemapIsUnmapThenMap | src/memory.cpp:201-289 | two trackers, one told of the move and one of unmapping and mapping, end in the same state with the same outcome |
| MemoryTracker.Memory.ClearHeap | src/memory.cpp:411-416 | all heap blocks are released and counted |
| MemoryTracker.Memory.ClearRegions | src/memory.cpp:418-422 | all regions are released and counted |
| MemoryTracker.Memory.ClearAll | src/memory.cpp:407-426 | both tables are emptied into the free counters, and the lock depth is kept exactly when the tracker was active |
| MemoryTracker.Memory.ResetMaxAllocation | include/dtest_core/memory.h:88-90 | only the byte mark is restarted |
| MemoryRuns.ChargeDifference | src/memory.cpp:193 | adding an unsigned difference of sizes is the true integer update |
| MemoryRuns.StepBalancedIff | src/memory.cpp:129-422 | a call keeps allocated minus freed bytes equal to the live bytes and allocated minus freed count equal to the heap blocks exactly when it meets only addresses that are not tracked |
| MemoryRuns.RunBalanced | src/memory.cpp:129-422 | so does every run in which libc hands out addresses not tracked |
| MemoryRuns.InitialBalanced | include/dtest_core/memory.h:33-38 | a new tracker is balanced |
| MemoryRuns.TrackMappedBalanced | src/memory.cpp:146-160 | mapping a region keeps the balance exactly when nobody owns any of its addresses |
| MemoryRuns.RetrackBalanced | src/memory.cpp:162-199 | a reallocation keeps the balance exactly unless it moves a known block onto another one |
| MemoryRuns.RunExact | src/memory.cpp:129-422 | while fewer than 2^64 bytes are claimed in all, the byte counters are the true integers and the free counter never falls |
| MemoryRuns.RunCountsExact | src/memory.cpp:129-422 | in fewer than 2^64 calls one block counter tells the blocks added, the other the blocks released, and their difference is the blocks there are |
| MemoryRuns.SeriesReleases | src/memory.cpp:325-405 | a series of unmaps succeeds exactly when its ranges are tracked and do not overlap, and then releases their union |
| MemoryRuns.UnmapOrder | src/memory.cpp:325-405 | successful series of unmaps of the same addresses leave the same state, whatever their order and splitting |
| MemoryRuns.MarksArePeaks | src/memory.cpp:138-139 | over every run the marks are the greatest live bytes and blocks right after an allocating call, or what they were |
| LeakVerdict.Snapshot.Take | src/sandbox.cpp:326-340 | a snapshot replaces each counter by its distance to the tracker's, and the first one restarts the byte mark |
| LeakVerdict.ReportedCounts | src/sandbox.cpp:333-337 | the report's counts are the blocks the body added and released, and differ by how the number of blocks changed |
| LeakVerdict.ReportedSizes | src/sandbox.cpp:333-336 | the report's sizes are the sum of the gains, and that less how live memory grew |
| LeakVerdict.UnitTest.CheckMemoryLeak | src/unit_test.cpp:16-45 | a broken limit overrides a leak, which overrides the status so far, and each of the three findings gives one warning |
| LeakVerdict.Judge | src/unit_test.cpp:16-45 | a body run on the tracker between two snapshots is judged to exceed its limits exactly when an allocating call leaves more live memory than the limit or the block mark is above it, and else to leak exactly when live memory grew or reallocations took more than was added |
| LeakVerdict.BytesLimitExact | src/unit_test.cpp:30-36 | exceeding the bytes limit is seen exactly when an allocating call of the body leaves more live memory |
| LeakVerdict.LeakVerdictExact | src/unit_test.cpp:17-20 | for every run before and between two snapshots, a leak is seen exactly when live memory grew if and only if the gains of the body's calls do not add up to less than nothing; else live memory fell and a leak is reported |
| LeakVerdict.RunNet | src/memory.cpp:129-289 | the allocation counter moves by the sum of the calls' gains, of which only a reallocation's can be negative |
| LeakVerdict.NetWithoutShrinks | src/memory.cpp:193 | a body in which no reallocation makes a block smaller never takes from the allocation counter |
| LeakVerdict.ShrinkIsReportedAsLeak | src/unit_test.cpp:17-20 | a body that only makes a block smaller is reported as leaking, whatever the sizes |
| LeakVerdict.ReportedPeak | src/sandbox.cpp:339-340 | the reported byte peak is the most live memory right after an allocating call of the body; the reported block peak is never less than the blocks then, and is theirs exactly when they come up to the mark of before |
| LeakVerdict.BlockLimitExact | src/unit_test.cpp:35-43 | for every limit, exceeding it is reported exactly when the body exceeds it if and only if the mark was within the limit before or the body does exceed it |
| LeakVerdict.EarlierBlocksBreakLimit | src/unit_test.cpp:35-43 | a body that holds one block is reported as exceeding one block, after two were held and released before it |
| Scheduler.Register | src/test.cpp:138-156 | the tables hold every test as ready or as waiting for each of its dependencies, with its module's tests remaining |
| Scheduler.Enlist | src/test.cpp:149-151 | a test joins the list of each of its dependencies and no other |
| Scheduler.Unblock | src/test.cpp:262-271 | the completed module is struck off every waiting test, and those that owe nothing more go in order before what was ready |
| Scheduler.CompleteAfter | src/test.cpp:257-260 | a success completes its module when nothing of it remains, and changes no other module |
| Scheduler.WaitingAlive | src/test.cpp:265-269 | a test waiting for a module that is not complete has not been deleted and still owes that module |
| Scheduler.Account | src/test.cpp:214-281 | runs, skips, successes and the number of tests per status are counted one by one |
| Scheduler.RunAll | src/test.cpp:121-355 | no test runs twice, each runs after all tests of its dependency modules ran and succeeded, and those that run are the least fixpoint of that rule; what a test makes ready runs before what was ready, otherwise tests run in the order of registration; success means that every enabled test of a chosen module ended as expected, and the counts are of exactly the skipped and the successful; the loop terminates |
| Scheduler.StatusesMean | src/test.cpp:214-281 | per status, the numbers of tests that ended in it as expected and not as expected, skipped ones being expected |
| SchedulerTheorems.LogIsDetermined | src/test.cpp:189-271 | dependencies, outcomes and the order of registration determine the log |
| SchedulerTheorems.NoneIsAll | src/test.cpp:211-212 | choosing no module gives the same runs and the same summary as choosing all |
| SchedulerTheorems.OrderDoesNotMatter | src/test.cpp:138-156 | the run set and all final counts do not depend on the order the tests are iterated in |
| SchedulerTheorems.BlockedIff | src/test.cpp:257-272 | a test stays blocked exactly when a dependency has no tests, or has one that did not run or did not succeed |
| SchedulerTheorems.DeadlockNeverRuns | src/test.cpp:264-270 | tests that wait for each other, for themselves or for an empty module never run |
| SchedulerTheorems.CountsAddUp | src/test.cpp:289-291 | failures are runs minus successes, blocked tests are all minus runs, and all succeed exactly when the counts agree |
| SchedulerTheorems.SkipsAreSuccesses | src/test.cpp:330-331 | when only skipping yields SKIP, skips never exceed successes |
| SchedulerTheorems.SuccessMeansAllRanIff | src/test.cpp:131 | when every test that ran succeeded, all tests ran exactly when the dependencies can be met, which the dependencies alone decide |
| SchedulerTheorems.AllPassIff | src/test.cpp:257-291 | all tests run and succeed exactly when each would succeed and the dependencies can be met |
| SchedulerTheorems.SuccessWithEverythingBlocked | src/test.cpp:131 | a test that waits for its own module is never run and success is reported |
| Registration.Registry.Register | include/dtest_core/test.h:89-101 | a new test joins its module and copies what the module declares |
| Registration.ListInOrder | include/dtest_core/test.h:89-101 | a module's tests are listed in the order of their registration |
| Registration.Registry.SetGlobalModuleDependencies | src/test.cpp:106-119 | a declaration is kept for later tests and added to the module's earlier ones, and to no other test |
| Registration.TestGets | src/test.cpp:106-119 | in every run a test ends with the last declaration of its module before its registration and all later ones |
| Registration.OrderDoesNotMatterIff | src/test.cpp:106-119 | over all orders of the same calls a test ends with the same dependencies if and only if its module is only ever declared to depend on one set |
| Registration.RedeclaringDependsOnOrder | src/test.cpp:110-118 | a test registered between two declarations depends on both, one registered after them on the second alone |
| SuperChannelSafety.StepKeeps | src/test.cpp:398-562 | every step keeps one token per worker and test: the RUN_TEST in flight, the test running, the FINISHED_TEST in flight or the done flag |
| SuperChannelSafety.RunKeeps | src/test.cpp:398-562 | so does every run, over any number of tests and any interleaving |
| SuperChannelSafety.GuardNeverDiscards | src/test.cpp:683-685 | a worker that takes a RUN_TEST is never inside a test, and the test is the current one |
| SuperChannelSafety.NoForeignResult | src/test.cpp:456-461 | an arriving result is for the current test, from a worker allocated to it and still awaited |
| SuperChannelSafety.JoinLeavesNothingInFlight | src/test.cpp:549-562 | when joining ends no test message is in flight and no worker is inside a test |
| SuperChannelSafety.JoinResults | src/test.cpp:549-562 | there is one result per allocated worker, with the status and the report which that worker gave for this test, and the test's status is the most severe of the driver's and the workers' |
| SuperChannelSafety.ExactlyOnce | src/test.cpp:683-709 | every past test was handled and reported exactly once by each worker allocated to it and by nobody else |
| SuperChannelSafety.SpawnedIsFresh | src/test.cpp:399-416 | a spawned worker's id is above all ids in use, and nothing is in flight for it |
| SuperChannelSafety.AllocatesExactly | src/test.cpp:509-532 | allocation yields exactly as many workers as the test asked for, running, with cleared flags, all spawned ones among them |
| SuperChannelSafety.TerminatesAllocated | src/test.cpp:534-538 | only an allocated worker that has reported is told to terminate |
| SuperChannelSafety.WorkersRestored | src/test.cpp:534-541 | between tests exactly the workers registered on the command line are known |
| SuperChannelSafety.NeverStuck | src/test.cpp:429-562 | in every reachable state some step is possible, and one that belongs to the current test when there is one, so nobody waits for a message that was lost |
| SuperChannelProgress.StepRank | src/test.cpp:398-562 | every step but beginning a test uses up exactly one of the finitely many steps to come |
| SuperChannelProgress.TestsEnd | src/test.cpp:30-36 | under every scheduling a test of n workers ends after at most a stated number of steps, and there is a next step until it has |
| SuperChannelProgress.RunFromInitial | src/test.cpp:398-562 | the length of every run is what its tests cost, and two steps per registered worker, less what is still to be done |
| WorkerPool.DriverContext.RegisterWorkers | src/dtest.cpp:99-103 | the workers announced are numbered from 0 on, so that spawned ones get numbers not in use |
| WorkerPool.DriverContext.SpawnWorker | src/test.cpp:398-419 | a spawned worker gets a number not in use, and all others keep their handles |
| WorkerPool.DriverContext.HandleSuperEvent | src/test.cpp:447-465 | WORKER_STARTED marks a known worker running and FINISHED_TEST an allocated one done with its result; other senders change nothing |
| WorkerPool.DriverContext.AllocateWorkers | src/test.cpp:509-532 | exactly n workers are allocated, each running before or by its WORKER_STARTED, with cleared flags; exactly the missing ones are spawned, are among them and have started; or a worker that has not started is awaited |
| WorkerPool.DriverContext.AwaitRunning | src/test.cpp:521-523 | waiting for a worker ends when it runs, and nobody runs who did not before or whose WORKER_STARTED did not come |
| WorkerPool.DriverContext.Join | src/test.cpp:549-562 | it returns exactly when every allocated worker reports, with one result per worker, the one reported, and the most severe status |
| WorkerPool.WorstUnique | src/test.cpp:555-557 | that status depends on the set of results only, not on the order of arrival or of joining |
| TestStatus.InOrderOfSeverity | include/dtest_core/test.h:33-42 | the statuses are ordered by severity as they are declared |
| WorkerPool.DriverContext.DeallocateWorkers | src/test.cpp:534-541 | exactly the spawned workers are forgotten, no handle is made up for them, and none stays allocated |
| WorkerPool.DriverContext.RunTest | src/test.cpp:30-36 | a whole test leaves the worker table as it found it, with one result per worker asked for, each one a started worker reported; it ends when everybody known or to be spawned starts and reports |
| TestChannel.DriverContext.WaitForEvent | src/test.cpp:471-507 | one arriving message is counted or queued, and nothing received is lost |
| TestChannel.DriverContext.PullRung | src/test.cpp:623-630 | notifications already there are taken once from distinct workers, until enough or none is left |
| TestChannel.DriverContext.Wait | src/test.cpp:616-648 | it returns exactly when enough workers have rung, having taken no message more and consumed one notification from each of that many distinct workers, and while it blocks no worker still needed has one left |
| TestChannel.DriverContext.GetUserMessage | src/test.cpp:592-604 | the oldest user message is handed out, notifications met on the way are kept, and it blocks exactly when no user message comes |
| TestChannel.WorkerContext.WaitForEvent | src/test.cpp:665-732 | one arriving message is counted or queued |
| TestChannel.WorkerContext.Wait | src/test.cpp:783-795 | it returns exactly when enough notifications come, having taken no message more, consumes just these and keeps every user message |
| TestChannel.WorkerContext.GetUserMessage | src/test.cpp:756-768 | the oldest user message is handed out and notifications are kept |
| Barrier.RunKeeps | src/test.cpp:606-648 | in every run each notification is in flight, counted or used by one wait |
| Barrier.InStep | src/test.cpp:783-795 | no worker is past more rounds than the driver started, and notifications were left over for it, nor behind the rounds finished by more than it left over |
| Barrier.PassesAfterNotify | src/test.cpp:783-792 | a worker with nothing left over passes its wait of a round only after that round's notification was sent to it |
| Barrier.LeavesAfterAll | src/test.cpp:616-648 | the driver leaves a round only when every worker that left nothing over passed its wait and notified, and then nothing is left over |
| Barrier.OvertakesIff | src/test.cpp:783-792 | a worker can pass a wait of a round not yet started exactly when a notification to it was left over by an earlier test |
| Barrier.LagsIff | src/test.cpp:616-648 | the driver can finish a round that a worker has not passed exactly when a notification from it was left over in flight |
| Barrier.AlwaysAStep | test/distributed_unit_test.dtest.cpp:121-130 | the rounds never get stuck: in every reachable state there is a step |
| Barrier.RoundsEnd | src/test.cpp:606-648 | under every scheduling a round ends after the steps still to come; with nothing left over, a round of w workers can be left after exactly 6 w + 1 steps, and not before |
| Codec.WordRoundTrip | include/dtest_core/message.h:147-170 | a scalar that fits its width is read back |
| Codec.LowestFirst | include/dtest_core/message.h:147-157 | the bytes of a scalar are its digits in base 256, lowest first |
| Codec.ValuePrefix | include/dtest_core/message.h:147-224 | bytes determine the value: no other value of the type starts with the same bytes |
| Messages.Message.constructor | include/dtest_core/message.h:71-75 | a new message of any length has its cursor behind eight bytes, which is inside it exactly when it has that many, and then holds no payload |
| Messages.RoomIff | include/dtest_core/message.h:33-41 | asking for bytes gives room for them exactly when the cursor is inside and there is room already or the grown length stays below 2^64 |
| Messages.Message.Fit | include/dtest_core/message.h:33-41 | nothing happens when there is room, else the allocation grows by the bytes asked for or 1024, in 64-bit words; there is room afterwards exactly under that condition, and then everything before the cursor is kept |
| Messages.Message.Put | include/dtest_core/message.h:136-145 | the bytes are appended to the payload, inside the allocation |
| Messages.Message.WriteAtom | include/dtest_core/message.h:147-157 | the encoding of a scalar or string is appended |
| Messages.Message.Write | include/dtest_core/message.h:174-217 | the encoding of a value, with its count for vectors and lists, is appended |
| Messages.Message.ReadAtom | include/dtest_core/message.h:165-170 | a scalar or string that was written is read back and the cursor moves past it |
| Messages.Message.Read | include/dtest_core/message.h:181-224 | any value that was written is read back and the cursor moves past it |
| Messages.Message.Send | src/message.cpp:20-24 | one frame with its own length goes on the wire and the payload stays to be sent again |
| Messages.Message.Recv | src/message.cpp:26-43 | it answers data exactly when the coming events bring the header and the payload or the stream's end, and no data exactly when nothing is there yet, takes only these bytes from the front of the stream, keeps what was before the cursor, and overruns the allocation exactly when the header asks for more than there is room for |
| MessageTransfer.DeliveredIff | src/message.cpp:29-36 | what is delivered is the first message exactly when the stream holds all of it; a shorter stream has its beginning delivered |
| MessageTransfer.ReceiveOne | src/message.cpp:26-43 | one receive on a stream of whole frames delivers the first message, or finds nothing and takes nothing, or fails with less than a frame taken |
| MessageTransfer.ReceiveAll | src/message.cpp:26-43 | under any fragmentation the messages sent are delivered in order, as many as the events let arrive and never a wrong one; every byte is in a message delivered, in the beginning of the next one, or still to come |
| MessageTransfer.AllArrive | src/message.cpp:26-43 | without errors and would-blocks, as many ready events as there are bytes make all messages arrive |
| MessageTransfer.ReceiveCut | src/message.cpp:34 | a peer that closes inside a message: the receive answers data with the proper beginning of it, exactly when the events show the end |
| MessageTransfer.ReceiveHeader | src/message.cpp:30-33 | a header word makes a new message ask for more than its allocation exactly when it is below 8 or within 1016 of 2^64 |
| MessageTransfer.WriteAll | include/dtest_core/message.h:147-217 | writing values one by one appends their encodings in order |
| MessageTransfer.ReadAll | include/dtest_core/message.h:165-224 | reading at the same types returns the values and ends behind them |
| MessageTransfer.Exchange | src/message.cpp:20-43 | values written, framed, sent piecemeal, received in fragments and read back are the same, with the cursor at the payload end; they come exactly when sending succeeds and the events bring the header before a would-block, and the payload, before an error |
| SocketIO.Sender.ResizeMTU | src/socket.cpp:65-80 | a refusal of more than the present size changes nothing; any other takes one off from 8001 to 8192 and up to 512, and else goes to 512, so it never falls below what the refusal leaves possible; the range is left exactly at size 1 with at most one byte refused |
| SocketIO.ResizeInRange | src/socket.cpp:67-79 | a back-off stays in [8000,8192] or [1,512] exactly unless a send of at most one byte was refused at size 1 |
| SocketIO.Sender.Send | src/socket.cpp:163-196 | it terminates, transmits exactly the bytes in order or raises after a prefix, never without a socket error; the shared size never grows, stays in range and never falls below the limit from 8000 on, nor below the limit or 512; unhindered it takes one call for each 64 kilobytes |
| SocketIO.Receiver.Recv | src/socket.cpp:198-222 | the bytes from the front of the stream are stored in order; how it ends, how many bytes are taken and which events are used up are those of the reference `Receive`, whose properties follow |
| SocketIO.ReceiveBrings | src/socket.cpp:201-219 | when the stream holds all bytes wanted, they are got exactly when the events bring them before an error, or a would-block that is not waited out |
| SocketIO.ReceiveSeesEnd | src/socket.cpp:203-205 | when a closed stream holds fewer, its end is told exactly when the events bring what there is and one more call is answered |
| SocketIO.ReceiveAsleep | src/socket.cpp:210-213 | a call that does not wait finds nothing at all exactly when, signals apart, the first event is that nothing is there yet |
| SocketIO.ReceiveShort | src/socket.cpp:201-219 | on an open stream that holds too few bytes, waiting ends with an error if there is one, and else not at all |
| SocketIO.ReceiveIdle | src/socket.cpp:201-219 | on an idle open stream a call that does not wait gives up at the first event that is no signal |
| SocketIO.ReceiveReadies | src/socket.cpp:206-209 | no ready event is in vain while there are bytes, or an end, to get |
| SocketIO.ReadiesBring | src/socket.cpp:201-205 | any number of ready events bring as many bytes, and no more of them are used up |
| FastRandom.Generator.Draw | src/random.cpp:10-23 | one step, seeding from the clock when the state is 0; otherwise the result is in (0,1] and the state never 0 |
| FastRandom.FoldCongruent | src/random.cpp:17-18 | the single fold changes the product by whole moduli only |
| FastRandom.FoldTakes | src/random.cpp:17-18 | the fold takes away as many moduli as 2^31 goes into the product, which leaves the modulus or more exactly when that is too few |
| FastRandom.OrbitCongruent | src/random.cpp:17-19 | after k draws the state is congruent to the seed times 48271^k modulo 2^31 - 1 and lies in [1, 2^31 - 1 + 96541] |
| FastRandom.StuckIffMultiple | src/random.cpp:13-19 | the state is 2^31 - 1 after every draw exactly for seeds that are multiples of it, and never for others |

## Left out

- libc hooks, symbol lookups, call-stack capture and the tables of tracking exceptions: foreign calls; they enter as parameters.
- `Sandbox::run`, forking, signals, pipes, stdio redirection, and network counters of a snapshot: operating-system plumbing.
- Socket creation, address parsing, polling and accepting: thin wrappers around system calls.
- JSON output, report texts and formatting of durations and sizes: presentation.
- Performance tests, faulty-network simulation, `frand_expDist`: clocks and floating point.
- Option setters, command-line parsing, test loading, `Lazy` and `Buffer`: easy members.
- `Memory::report`, `lock` and `unlock`: no table or counter changes; `report` treats the lock depth as `clear` does.
- Thread-level races on the tracking flag, the lock depth and the shared send size: every guarded operation is one atomic step.
- Wrap-around of addresses at the end of the address space: addresses are integers.
- MemoryRuns.RunBalanced: is about calls made while the tracker is active; memory allocated while it is not is unknown to it.
- LeakVerdict.LeakVerdictExact: is about runs whose allocations add up to fewer than 2^64 bytes.
- Messages.Message.Read: has the caller know that such a value stands behind the cursor; reading past the end is undefined in the source.
- Nested vectors and lists, and strings with a zero byte inside: the wire format does not support them.
- SocketIO.Sender.Send: assumes that finitely many calls ask to be retried and that one-byte sends are never too large; otherwise the source's loop need not end.
- TestChannel.DriverContext.Wait: assumes user messages come from allocated workers, because the source looks the sender up unchecked; notification counts do not wrap at 2^32.
- The handles' addresses, sockets and process ids are not modelled, and workers are assumed to stay alive and to have the test registered.
- WorkerPool.DriverContext.AllocateWorkers: assumes that only WORKER_STARTED messages arrive between tests, which `SuperChannelSafety.JoinLeavesNothingInFlight` proves of all runs.
- WorkerPool.DriverContext.Join: assumes that no worker reports twice, which `SuperChannelSafety.ExactlyOnce` proves of all runs.
- SuperChannelProgress.TestsEnd: that a test body ends, on the driver or on a worker, is one step; a body that never ends is not modelled.
- Barrier.RoundsEnd: is about rounds that every worker takes part in; a worker that stops sending is not modelled.
- Messages.Message.Write: asks that twice the bytes written, with the default size, stay below 2^64; no C++ object is larger than half of that.
- Messages.Message.Recv: after `Overruns` nothing is modelled, since the code writes outside its allocation when the bytes come; nor is an allocation that fails.
