# Verified models of the operating-systems laboratory

The repository holds the programs of an operating-systems laboratory, most of them twice: a solution
and an independent second version. This project models the seven assignments in which something has to
hold over whole runs, and proves that it does. Where a program changes arrays, lists and counters step by
step, the model is a class whose methods do the same, proved against a specification on values; the
theorems are about that specification. Where threads or processes share memory, the model is a state
machine over their steps, taken in any interleaving.

`dafny verify dfyconfig.toml` checks everything. The parts:

- **Banker's deadlock avoidance (A8).** `Vectors`, `BankerSpec` and `BankerSweep` say when a state is safe,
  what a grant, a release and a quit do, and what one pass over the pending requests grants. `BankerRuns`
  is the master's loop over whole runs of messages, `BankerGrants` says which requests a turn grants and which
  it leaves, in terms of what is free and of the orders in which the threads can finish. `RequestList`,
  `BankerTables` and `BankerMaster` are the master of `A8/LA8_Solution/resource.c` on its arrays and linked list; `RingQueue` and `BankerRing`
  the second master, `A8/resource.c`, on its rings. `BankerScripts` is the generator of inputs, and plays
  its scripts to the end. `Handshake` is the exchange between threads and master: one shared request,
  mutexes, barriers and condition variables. `BankerProgram` puts threads, handshake, tables and the pass
  together, step by step in any interleaving, and `BankerProgramRuns` shows that every run of it ends, with
  avoidance with everybody through. `BankerDeadlock` says which declared maxima can deadlock without avoidance,
  `BankerProgramLocks` that the whole program can then stop there.
- **Demand paging (A9).** `PageEntry` is the packed page-table entry, `SearchTrace` the pages a binary search
  touches, `Ring` the two circular queues, `PagingSpec` and `PagingRuns` memory and simulation on values,
  `PagingHistory` its runs by their history: whose turn it is, who comes back, what is searched for and what
  the reported numbers count. `Paging` is the program on its arrays.
- **Approximate least-recent use (A10).** `History` is the 16-bit history as a record of reference bits,
  `LruSpec`, `LruRuns`, `LruSystem` and `LruTheorems` the replacement of pages and whole runs of it, `Lru`
  the program of `A10/LA10_Solution/LRU.c` on its arrays. `LruRoom` says exactly for which input it never
  lacks a victim. `LruVariant` is `A10/LRU.c` with its free list in place, `LruVariantRuns` its runs, in
  which processes can be dropped, `LruFate` what decides who is. `LruTurns` and `LruVariantTurns` say whose
  the turns are and what they search for, `LruUses`, `LruUseRuns` and `LruVariantUses` what reference bits and
  histories say of the searches, and so which page is replaced.
- **Event-driven CPU scheduling (A3).** `SchedSpec` and `SchedRuns` are round robin on values, with any of the
  due events taken first; `SchedSlices` has how long a process keeps the CPU and who gets it next,
  `SchedOrder` the two tie-breaks, and that they end alike. `HeapOrder`, `EventHeap`, `JobHeap` and `ReadyQueue` are heaps and queues, `EventBook`, `SchedTurns`,
  `EventScheduler` and `JobScheduler` the two simulators in place, `SchedAgree` the two side by side.
- **Token ring (A5).** `TokenRing` is the protocol of leader and followers, one memory access a step;
  `TokenRingSums` says when the leader stops, `TokenRingProgram` is the shared array with each spinning wait
  filled by the one process that can move.
- **Boats and visitors (A7).** `Rendezvous` has both programs as interleaved steps and what holds in every
  state, `RendezvousRuns` how their runs end, `BoatTables` the tables they share.
- **Recursive rebuilding (A1).** `DepGraph` is the dependency file, `RebuildSpec` what a rebuilding has to
  do and the recursion, `RebuildEnds` when that ends, `Rebuild` the programs over the done-file, `DepGen`
  the generator of acyclic files.
- `Options`, `Pigeonhole` and `TurnOrder`, queues in the order of their members' last turns, are used throughout.

What a caller must provide is what the programs rely on: for the banker the messages that `A8/geninput.c`
generates (proved in `BankerScripts`), for paging at least one search each and arrays that fit the page
table, for the schedulers a positive quantum, distinct process numbers and one I/O burst between two CPU
bursts, for the token ring at least one and at most a hundred followers. `rand()` is an arbitrary number
in range, also where the generator of the sources would repeat itself.

## What turned out to be false, and when it holds

- `compare_events` is not an order: `EventHeap.CompareHasCycles`. It is one on every heap that occurs:
  `EventBook.ReachableHeap`.
- The two schedulers break ties differently, which is not visible in any result
  (`SchedOrder.SimulatorsAgree`) as long as no I/O burst is empty; the second program's input format has
  no empty ones.
- The victim search of `A10/LRU.c` starts from the full history and finds nothing exactly when every
  resident data page has been referenced in each of its last sixteen searches since it was loaded
  (`LruTheorems.StrictVictim`, `LruVariantUses.DroppedByUses`); the process is then dropped with its frames. It
  happens in a first search exactly when that touches more pages than there are frames above the floor by
  then: `LruVariantRuns.DroppedAtFirst`. With 1129 processes or more the first access of the first process does it
  (`LruVariantRuns.FirstAccess`), and `LruVariantRuns.DroppedMidSearch` is a run with fewer in which the first
  process is dropped in the middle of its search. `rand()` has no part in it: who is dropped, and in which
  turn, is a function of sizes and searches (`LruFate.RunIsFate`, `LruFate.DrawsDoNotMatter`), which also
  decides every later search (`LruFate.DroppedNext`, `LruFate.WhoIsDropped`).
- The search of the LA10 program finds a page whenever one is resident, but a process without data pages
  that comes to the floor has none. No run ever lacks a victim exactly when every process that touches a
  page finds the pool above the floor at its first search: `LruRoom.VictimAlwaysExistsIff`. For up to 491
  processes that is always so.
- Without `_DLAVOID` the banker's threads can all come to wait, exactly when the declared maxima let some of
  them hold all there is of some resources while each of them still lacks one of its own:
  `BankerDeadlock.DeadlockIff`; `BankerDeadlock.WithoutAvoidanceDeadlocks` is a case of two threads. With
  `_DLAVOID` every run of threads and master ends with everybody through: `BankerProgramRuns.EveryRunEnds`.
  Without it the whole program, threads on scripts and handshake included, can stop before that exactly under
  the same condition, and stops in no other way: `BankerProgramLocks.MayStopIff`,
  `BankerProgramRuns.EveryRunStops`.
- The pool of free frames stays at or above 1000 exactly when 10n + 1000 frames fit in memory:
  `LruTheorems.PoolFloor`.
- Both boating programs can come to a standstill before the last ride, because the boat that passes
  `P(&boat)` need not be the one the visitor claims. They can exactly when there is not one boat:
  `RendezvousRuns.StandstillIff`. So every input that `A7/boating.c:150` admits, five to ten boats and twenty
  to a hundred visitors, can stand still; a single boat, which the LA7 program admits, always serves
  everybody: `RendezvousRuns.OneBoatServesAll`, `RendezvousRuns.RunsEnd`.
- A visitor can come to a barrier that is not yet initialised exactly in the LA7 program with two boats or
  more: `RendezvousRuns.TooEarlyIff`.
- The rebuilding from a root ends exactly when nothing the root needs is on a cycle:
  `RebuildEnds.EndsIff`.
- A token ring with no followers never ends: `TokenRing.NoFollowersNoEnd`.

## Model

| member | source | states |
|---|---|---|
| BankerSpec.GreedyChoice | A8/LA8_Solution/resource.c:253-267 | letting any unfinished thread that fits finish first never changes whether all can complete, so the order in which the check tries threads does not matter |
| BankerSpec.FinishEarly | A8/LA8_Solution/resource.c:255-263 | a thread that fits can be moved to the front of any completion order |
| BankerSpec.StuckMeansDone | A8/LA8_Solution/resource.c:266-275 | when no unfinished thread fits, completing is possible exactly if every thread has finished |
| BankerSpec.ZeroRowIrrelevant | A8/LA8_Solution/resource.c:251-251 | a thread that holds and needs nothing can be counted as exited or not without changing the answer |
| BankerSpec.MoveBack | A8/LA8_Solution/resource.c:289-301 | the tentative grant, taken back, leaves all three tables as they were |
| BankerSpec.MoveNothing | A8/LA8_Solution/resource.c:334-338 | moving nothing changes nothing |
| BankerSpec.UnmoveSafe | A8/LA8_Solution/resource.c:213-217 | taking resources back from a thread keeps a safe state safe |
| BankerSpec.ReleaseKeepsSafe | A8/LA8_Solution/resource.c:207-223 | a release of any size up to the allocation keeps safety |
| BankerSpec.QuitKeepsSafe | A8/LA8_Solution/resource.c:364-373 | returning everything a thread holds keeps safety |
| BankerSpec.GrantToFirst | A8/LA8_Solution/resource.c:330-339 | granting to the first thread of a completion order keeps that very order |
| BankerSpec.FreshCompletes | A8/LA8_Solution/resource.c:167-176 | with nothing allocated and each need within what is available, every order of the threads completes |
| BankerSweep.RefusedStaysRefused | A8/LA8_Solution/resource.c:312-319 | a request that is refused, for want of resources or of safety, stays refused after any other grant |
| BankerSweep.SweepIsMaximal | A8/LA8_Solution/resource.c:321-354 | after one pass no remaining request can be served, with or without avoidance |
| BankerSweep.SweepKeepsArrivalOrder | A8/LA8_Solution/resource.c:329-354 | the pass deals the queue into granted and ungranted, both in arrival order |
| BankerSweep.SecondSweepGrantsNothing | A8/resource.c:358-416 | a second pass right after the first grants nothing and changes nothing |
| BankerSweep.SweepIdle | A8/LA8_Solution/resource.c:350-353 | a pass over a queue of refused requests changes nothing |
| BankerGrants.SafeIff | A8/LA8_Solution/resource.c:243-281 | a state is safe exactly if the threads that have not exited can be played out in some order, each given all it still needs out of what is free by then, and quitting |
| BankerGrants.ServedExactly | A8/LA8_Solution/resource.c:312-319 | a request is granted exactly if it asks no more than is free and, with avoidance, its grant leaves an order in which the threads that have not exited can finish |
| BankerGrants.PassGrants | A8/LA8_Solution/resource.c:321-362 | each request that a pass grants might be had when its turn came, and together they take the tables to where the pass leaves them |
| BankerGrants.PassLeaves | A8/LA8_Solution/resource.c:321-362 | each request that a pass leaves asks more than is free or, with avoidance, would leave no such order |
| BankerGrants.DecidedInTurn | A8/LA8_Solution/resource.c:329-354 | the k-th request is decided on what the grants before it leave, and granted exactly if it may be had there |
| BankerGrants.TurnIsRight | A8/LA8_Solution/resource.c:389-430 | so every turn of the master, of any legal message in any state of a run: the threads it signals are granted what they asked when they might have it, and nobody still pending may |
| BankerRuns.StartInv | A8/LA8_Solution/resource.c:159-190 | the initial tables meet the invariant when every limit is within the totals |
| BankerRuns.StepInv | A8/LA8_Solution/resource.c:389-430 | one message and the pass after it keep books, pending requests and (with avoidance) safety |
| BankerRuns.RunInv | A8/LA8_Solution/resource.c:389-430 | every run of legal messages keeps AVAILABLE + ALLOC constant, ALLOC + NEED at the declared maximum of live threads, all three non-negative, and with avoidance every state safe |
| BankerRuns.MoveKeepsBooks | A8/LA8_Solution/resource.c:207-223 | moving resources between pool and thread, no side going negative, keeps the books |
| BankerRuns.QuitKeepsBooks | A8/LA8_Solution/resource.c:364-373 | a quit keeps the books |
| BankerRuns.SweepKeepsSound | A8/LA8_Solution/resource.c:321-362 | a pass keeps books, queue order and safety |
| BankerRuns.FirstCanBeServed | A8/LA8_Solution/resource.c:312-319 | the thread at the head of a completion order can have its pending request at once |
| BankerRuns.NeverAllWaiting | A8/LA8_Solution/resource.c:389-430 | with avoidance, while some thread is live some live thread is not waiting |
| BankerRuns.CanAlwaysFinish | A8/LA8_Solution/resource.c:389-430 | with avoidance, from every reachable state the threads can all still be brought to their end |
| BankerRuns.AllReturned | A8/LA8_Solution/resource.c:402-417 | when every thread has exited, every resource is back in the pool |
| BankerRuns.NothingAfterTheEnd | A8/LA8_Solution/resource.c:417-417 | after the last exit no message is legal |
| BankerDeadlock.WaitingLacks | A8/LA8_Solution/resource.c:225-241 | a thread that waits needs more of some resource than is free |
| BankerDeadlock.HeldWithinCaps | A8/LA8_Solution/resource.c:330-339 | what waiting threads hold of a resource stays below what they may hold, by the amount free, if one of them lacks it |
| BankerDeadlock.DeadlockLocks | A8/LA8_Solution/resource.c:312-319 | a deadlock shows threads whose maxima let them lock each other |
| BankerDeadlock.AskGranted | A8/LA8_Solution/resource.c:393-401 | a request for what is free, with nothing pending, is granted in the same turn |
| BankerDeadlock.UnitRefused | A8/LA8_Solution/resource.c:393-401 | a request for one of a resource of which nothing is free joins the queue and changes nothing else |
| BankerDeadlock.LocksDeadlock | A8/LA8_Solution/resource.c:312-319 | threads whose maxima allow it can be led, by legal messages, into a state where all that are left wait |
| BankerDeadlock.DeadlockIff | A8/LA8_Solution/resource.c:312-319 | without avoidance a state where every live thread waits is reachable exactly when some threads can hold all there is of some resources while each still lacks one of its own |
| BankerDeadlock.OneResource | A8/LA8_Solution/resource.c:312-319 | with a single resource: exactly when the maxima less one each come to at least the total |
| BankerDeadlock.WithoutAvoidanceDeadlocks | A8/LA8_Solution/resource.c:312-319 | two threads that may each need both of two units can deadlock |
| RequestList.RQ.constructor | A8/LA8_Solution/resource.c:27-37 | an empty list is a dummy node; its next field, which the program never sets, is taken as null |
| RequestList.RQ.Empty | A8/LA8_Solution/resource.c:39-42 | emptiness is the absence of a back node |
| RequestList.RQ.Front | A8/LA8_Solution/resource.c:44-48 | the oldest pending request, or nothing |
| RequestList.RQ.Enqueue | A8/LA8_Solution/resource.c:50-67 | appends a copy of the request at the back |
| RequestList.RQ.Dequeue | A8/LA8_Solution/resource.c:69-80 | drops the oldest node, and the back pointer with the last one |
| RequestList.RQ.Unlink | A8/LA8_Solution/resource.c:340-343 | takes a node out of the middle of the list |
| RequestList.RQ.RepairTail | A8/LA8_Solution/resource.c:355-360 | the back pointer is the last node again, or null |
| RequestList.OnlyLastEnds | A8/LA8_Solution/resource.c:359-359 | only the last node of a well-linked chain has no successor |
| BankerTables.Tables.ResourceAvailable | A8/LA8_Solution/resource.c:225-241 | true exactly when the request is within AVAILABLE |
| BankerTables.Tables.CopyOfAvailable | A8/LA8_Solution/resource.c:247-248 | WORK starts as AVAILABLE |
| BankerTables.Tables.FitsIn | A8/LA8_Solution/resource.c:257-258 | whether a thread's need is within WORK |
| BankerTables.Tables.Reclaim | A8/LA8_Solution/resource.c:259-259 | WORK grows by what the finished thread holds |
| BankerTables.Tables.Shift | A8/LA8_Solution/resource.c:289-301 | moves a signed amount between pool and thread in the arrays |
| BankerTables.Tables.Release | A8/LA8_Solution/resource.c:364-373 | the thread's row is emptied into the pool |
| BankerMaster.Master.RegisterRequest | A8/LA8_Solution/resource.c:207-223 | releases take effect at once and are zeroed; says whether anything positive is left |
| BankerMaster.Master.FirstFitting | A8/LA8_Solution/resource.c:255-265 | the first unfinished thread whose need fits, if any |
| BankerMaster.Master.FinishOne | A8/LA8_Solution/resource.c:253-267 | one round of the check keeps whether all can complete |
| BankerMaster.Master.AllFinished | A8/LA8_Solution/resource.c:269-275 | whether every thread is finished |
| BankerMaster.Master.IsSafe | A8/LA8_Solution/resource.c:243-281 | terminates, and returns true exactly when some completion order of the threads that have not exited exists |
| BankerMaster.Master.SafeToAllocate | A8/LA8_Solution/resource.c:283-310 | true exactly when the state after the grant is safe; the tables are left as they were |
| BankerMaster.Master.CanServeNow | A8/LA8_Solution/resource.c:312-319 | the decision of either build |
| BankerMaster.Master.ServeNode | A8/LA8_Solution/resource.c:330-349 | grants a servable request, unlinks its node and signals its thread, else leaves everything |
| BankerMaster.Master.WalkOne | A8/LA8_Solution/resource.c:329-354 | one step of the walk of the two pointers |
| BankerMaster.Master.Pass | A8/LA8_Solution/resource.c:326-354 | the walk in place computes the abstract pass |
| BankerMaster.Master.ServeRequest | A8/LA8_Solution/resource.c:321-362 | tables, list and signals after serverequest are those of the abstract pass |
| BankerMaster.Master.TakeRequest | A8/LA8_Solution/resource.c:393-401 | a request is registered and, if something is left, queued |
| BankerMaster.Master.TakeQuit | A8/LA8_Solution/resource.c:402-417 | a quit returns everything and says whether it was the last |
| BankerMaster.Master.Serve | A8/LA8_Solution/resource.c:423-429 | the pass at the end of a turn, in the terms of a step, with the threads it signals |
| BankerMaster.Master.TurnAsk | A8/LA8_Solution/resource.c:393-401 | a request registered, and the pass after it |
| BankerMaster.Master.TurnStop | A8/LA8_Solution/resource.c:402-417 | a quit, the pass after it, and whether it was the last |
| BankerMaster.Master.Turn | A8/LA8_Solution/resource.c:389-430 | a turn of the loop is a step of the abstract machine; it signals just the threads granted in it, which might have what they asked, and leaves nobody pending who may |
| BankerMaster.Master.TakeNext | A8/LA8_Solution/resource.c:390-392 | one message of a run |
| BankerMaster.Master.Loop | A8/LA8_Solution/resource.c:389-430 | the loop on a whole run ends in the state of the abstract run |
| RingQueue.RingQueue.Enqueue | A8/resource.c:63-74 | appends, or overflows exactly when a hundred requests are queued |
| RingQueue.RingQueue.Dequeue | A8/resource.c:76-86 | removes the oldest request, or says there is none |
| RingQueue.RingQueue.IsEmpty | A8/resource.c:55-57 | emptiness |
| BankerRing.IgnoreExits | A8/resource.c:111-188 | on states where exited rows are zero, forgetting who has exited does not change whether all can complete |
| BankerRing.SafeWithoutExits | A8/resource.c:111-188 | so safety can be decided without the exit flags |
| BankerRing.PendingBound | A8/resource.c:295-300 | with one outstanding request per thread the ring never overflows for up to a hundred threads |
| BankerRing.Trial.constructor | A8/resource.c:111-126 | the trial state is that after the grant |
| BankerRing.Trial.CanFinish | A8/resource.c:153-167 | whether an unfinished thread fits, the asking thread with its trial row |
| BankerRing.Trial.Finish | A8/resource.c:169-181 | a finished thread's holdings join the work vector |
| BankerRing.Trial.Shortcut | A8/resource.c:128-144 | a thread that would need nothing more is finished first, without changing the answer |
| BankerRing.Trial.SweepThreads | A8/resource.c:151-183 | one sweep keeps the answer and finishes somebody or shows nobody fits |
| BankerRing.Trial.Search | A8/resource.c:148-184 | the search ends with everybody finished exactly when all could complete |
| BankerRing.CountSaysAll | A8/resource.c:187-187 | the count is n exactly when every thread is finished |
| BankerRing.RingMaster.IsSafeState | A8/resource.c:111-188 | returns true exactly when the state after the grant is safe: the same decision as issafe, by a different loop |
| BankerRing.RingMaster.ServeOne | A8/resource.c:302-335 | decides one request and moves the resources if it is served |
| BankerRing.RingMaster.SweepOne | A8/resource.c:298-336 | one round of a sweep through the second ring |
| BankerRing.RingMaster.SweepQueue | A8/resource.c:295-342 | the sweep through a second ring and back is the abstract pass |
| BankerRing.RingMaster.PutBack | A8/resource.c:338-342 | the ungranted requests go back in order |
| BankerRing.RingMaster.Take | A8/resource.c:279-289 | releases in a mixed request take effect, and the rest is queued |
| BankerRing.RingMaster.Leave | A8/resource.c:231-236 | a quit returns everything |
| BankerRing.RingMaster.FinalSweep | A8/resource.c:358-416 | the sweep at the end of a turn |
| BankerRing.RingMaster.TurnAsk | A8/resource.c:241-356 | a release or additional request, with its own sweep, then the final one; between them they signal whom the first master does |
| BankerRing.RingMaster.TurnStop | A8/resource.c:207-240 | a quit, then the final sweep, with the threads it signals |
| BankerRing.RingMaster.Turn | A8/resource.c:199-417 | the second master does what the first does and signals the same threads, those that might have what they asked; nobody still pending may; and the final sweep after an additional request never grants anything |
| BankerRing.SettleTwice | A8/resource.c:298-416 | two passes in a row are one |
| BankerRing.LastLeaves | A8/resource.c:358-358 | after the last quit nothing is pending |
| BankerScripts.GenLine | A8/geninput.c:54-62 | a line releases no more than is held and asks no more than the maximum allows |
| BankerScripts.GenThread | A8/geninput.c:43-65 | a thread's lines never take it below nothing or above its maximum |
| BankerScripts.GenInput | A8/geninput.c:30-67 | the generated limits are within the totals and the scripts legal, so that the theorems on runs apply |
| BankerScripts.ScriptsAreLegal | A8/geninput.c:52-65 | a thread following its script sends only what the master relies on |
| BankerScripts.SweepKeepsOwed | A8/LA8_Solution/resource.c:330-339 | what a thread holds with its pending request counted as granted does not change in a pass |
| BankerScripts.StepOwed | A8/geninput.c:54-62 | after a line a thread is owed what the script says |
| BankerScripts.EveryScheduleFinishes | A8/LA8_Solution/resource.c:389-430 | with avoidance, however the threads are interleaved no schedule is longer than what there is to send, and one that cannot go on has everybody finished |
| Handshake.StartInv | A8/LA8_Solution/resource.c:375-387 | the invariant of the handshake holds at the start |
| Handshake.ThreadStepInv | A8/LA8_Solution/resource.c:113-154 | every step of a thread keeps it |
| Handshake.MasterStepInv | A8/LA8_Solution/resource.c:389-430 | every step of the master keeps it |
| Handshake.InterleavingInv | A8/LA8_Solution/resource.c:113-154 | it holds in every interleaving |
| Handshake.WhoIsInReqB | A8/LA8_Solution/resource.c:120-120 | the party blocked in REQB is the master or the holder of rmtx |
| Handshake.RequestHasOneOwner | A8/LA8_Solution/resource.c:128-143 | reqfrom and reqtype are written only by the rmtx holder before REQB, while the master does not read them, and stay as written until the acknowledgement |
| Handshake.NoSignalIsLost | A8/LA8_Solution/resource.c:347-349 | when the master signals a thread, that thread is waiting on its condition variable |
| Handshake.WaitersAreRemembered | A8/LA8_Solution/resource.c:145-146 | a waiting thread is pending or being granted, never both, and only such threads are |
| Handshake.MasterGetsThrough | A8/LA8_Solution/resource.c:347-347 | the master locks cmtx[i] at once, or thread i can move whatever the others do and lets go within two steps |
| Handshake.MasterBlocked | A8/LA8_Solution/resource.c:389-407 | the master is held up only by a thread that can move, except when it waits for a message |
| Handshake.OnlyWaitingStops | A8/LA8_Solution/resource.c:389-430 | no step is possible only when all have quit, or the master waits for a message and every live thread waits for a grant |
| Handshake.StoppedState | A8/LA8_Solution/resource.c:389-430 | so in every state of the handshake in which no step is possible |
| BankerProgram.ThreadOrderly | A8/LA8_Solution/resource.c:113-154 | every step of a thread keeps handshake, tables, pending requests and scripts in agreement |
| BankerProgram.ReadMessage | A8/LA8_Solution/resource.c:389-408 | the message the master reads is one the thread may send: it is live, not waiting, and within what it holds and needs |
| BankerProgram.RegisteredLines | A8/LA8_Solution/resource.c:389-408 | reading it is a step of the schedule of messages |
| BankerProgram.GrantSettled | A8/LA8_Solution/resource.c:329-343 | a grant inside the pass does not change what the whole pass will come to |
| BankerProgram.RefuseSettled | A8/LA8_Solution/resource.c:350-353 | nor does leaving a request where it is |
| BankerProgram.MasterOrderly | A8/LA8_Solution/resource.c:389-430 | every step of the master, inside its pass too, keeps them in agreement |
| BankerProgram.NextOrderly | A8/LA8_Solution/resource.c:100-433 | so does every step of the program in any interleaving |
| BankerProgramRuns.StopsWhere | A8/LA8_Solution/resource.c:100-433 | no step is possible only where every thread has quit, the master is through and all resources are back, or, without avoidance, where all threads left wait for grants and hold all there is of some resources |
| BankerProgramRuns.NextWorks | A8/LA8_Solution/resource.c:100-433 | every step leaves less to do |
| BankerProgramRuns.RunsAreBounded | A8/LA8_Solution/resource.c:100-433 | no run of threads and master has more steps than their messages need, in any interleaving |
| BankerProgramRuns.EveryRunEnds | A8/LA8_Solution/resource.c:100-433 | in every state of every run somebody can take a step, or every thread has quit, the master is through and all resources are back |
| BankerProgramRuns.EveryRunStops | A8/LA8_Solution/resource.c:100-433 | without avoidance the only other way a run can stop is with all threads left waiting for grants, under maxima that let some of them lock each other |
| BankerProgramLocks.AsksFollow | A8/geninput.c:52-65 | what a legal run of messages has for one thread is a script that thread may follow |
| BankerProgramLocks.WindUp | A8/LA8_Solution/resource.c:100-433 | when nobody sends another message, threads and master come to rest, with the banker where it was to come |
| BankerProgramLocks.OneMessage | A8/LA8_Solution/resource.c:100-433 | any thread that may send next can be the one whose message is read, and its whole turn is one step of the banker |
| BankerProgramLocks.ProgramPlays | A8/LA8_Solution/resource.c:100-433 | every run of the banker on messages is one of the whole program, for threads with suitable scripts |
| BankerProgramLocks.MayStopIff | A8/LA8_Solution/resource.c:100-433 | for some scripts and in some interleaving the whole program stops before it is through, exactly where there are no threads, or in the build without avoidance the maxima let some threads lock each other |
| BankerProgramRuns.MessageArrives | A8/LA8_Solution/resource.c:128-143 | whenever the master reads the request vector it holds the line of its sender's script that comes next, whatever the others do |
| PageEntry.ValidBit | A9/demandpaging.c:275-275 | testing the valid bit of a packed entry is a comparison of numbers |
| PageEntry.SetValid | A9/demandpaging.c:285-285 | setting the bit over a frame number |
| PageEntry.ClearValid | A9/demandpaging.c:313-315 | the frame under the bit, and the entry without it |
| PageEntry.PackFacts | A10/LA10_Solution/LRU.c:161-161 | an entry packs a frame number and two bits and gives all three back |
| PageEntry.SetRef | A10/LA10_Solution/LRU.c:270-270 | setting the reference bit changes nothing else |
| PageEntry.FrameMask | A10/LA10_Solution/LRU.c:207-207 | the mask under both bits gives the frame number |
| PageEntry.RefBit | A10/LA10_Solution/LRU.c:279-281 | testing and clearing the reference bit |
| SearchTrace.PagesInTable | A9/demandpaging.c:302-305 | every page a search touches is a data page of the table |
| SearchTrace.PagesLength | A9/demandpaging.c:268-297 | a search makes at most one access for each halving of the interval |
| SearchTrace.FewPages | A9/demandpaging.c:268-297 | few distinct pages: one for each halving down to 1024 elements and at most two after that |
| SearchTrace.ThirteenPages | A10/LA10_Solution/LRU.c:178-182 | any search in an array that fits the page table touches at most thirteen distinct pages |
| SearchTrace.PagesUnfold | A9/demandpaging.c:270-296 | the first probe, and the pages of the half that is left |
| SearchTrace.SearchFinds | A9/demandpaging.c:270-296 | the elements compared tell the key from every other element, so the search finds it |
| SearchTrace.PagesOfProbes | A9/demandpaging.c:302-305 | the pages touched are those of these elements, 1024 to a page after the ten essential ones |
| Ring.Ring.PushBack | A9/demandpaging.c:106-108 | the ring refines a sequence: a process number at the back |
| Ring.Ring.PopFront | A9/demandpaging.c:66-68 | the one at the front |
| Ring.Ring.PushFront | A9/demandpaging.c:97-99 | a readmitted process goes in front |
| Ring.WrapIsMod | A9/demandpaging.c:67-67 | the modulo of the ring is one subtraction at most |
| PagingSpec.FreshPartition | A9/demandpaging.c:193-204 | at the start every frame is in the pool, once |
| PagingSpec.LoadPartition | A9/demandpaging.c:284-285 | loading a page keeps each frame in one place |
| PagingSpec.GiveBackPartition | A9/demandpaging.c:311-316 | so does giving one back |
| PagingSpec.ExchangePartition | A10/LA10_Solution/LRU.c:260-267 | so does exchanging a resident page's frame for a free one |
| PagingSpec.UnloadTables | A9/demandpaging.c:307-320 | unloading empties the table, and every frame goes to the pool |
| PagingSpec.SwapOutFacts | A9/demandpaging.c:307-320 | swapping out keeps the partition, and the pool grows by exactly the pages the process had |
| PagingSpec.LoadEssentialFacts | A9/demandpaging.c:244-260 | a process with an empty table gets exactly its ten pages off the top of the pool |
| PagingSpec.TouchFacts | A9/demandpaging.c:262-300 | a search keeps the partition, only adds to its own process's pages, and stops only at a missing page with no frame free |
| PagingSpec.TouchNeedsMissing | A9/demandpaging.c:275-287 | a search gets through exactly when there is a frame for each distinct page it misses, and then makes that many faults |
| PagingSpec.TouchStops | A9/demandpaging.c:262-300 | a search that gets through adds just the pages it missed; one that does not stops at the first missing page with no frame left, with one access for each page up to it and a fault for each frame taken and for it |
| PagingSpec.TouchTakesTop | A9/demandpaging.c:284-285 | frames for missing pages come off the top of the pool |
| PagingSpec.EssentialFromTop | A9/demandpaging.c:244-260 | so do those for essential pages, page by page |
| PagingSpec.UnloadInOrder | A9/demandpaging.c:307-320 | frames go back in the order of their pages |
| PagingSpec.FullMemoryHasManyHolders | A9/demandpaging.c:279-282 | with no frame free, the 12288 frames are behind the pages of the active processes, whose tables are not all full |
| PagingSpec.RoomInPool | A9/demandpaging.c:314-314 | the stack of free frames never overflows |
| PagingSpec.EmptyTablesFillThePool | A9/demandpaging.c:193-204 | with every table empty all frames are in the pool |
| PagingRuns.SwapOutNeedsSeven | A9/demandpaging.c:111-131 | a process is swapped out only while at least seven are active |
| PagingRuns.RoomInQueues | A9/demandpaging.c:106-108 | while a process is in neither queue both have room |
| PagingRuns.FinishInv | A9/demandpaging.c:80-103 | a finished process leaves the ten frames the readmitted one needs |
| PagingRuns.ExpelInv | A9/demandpaging.c:111-131 | expelling keeps the invariant |
| PagingRuns.RequeueInv | A9/demandpaging.c:104-109 | requeueing keeps the invariant |
| PagingRuns.StepInv | A9/demandpaging.c:64-131 | a turn always succeeds and keeps the partition of the frames, and each process in exactly one of ready, swapped and finished |
| PagingRuns.StepProgress | A9/demandpaging.c:64-131 | a turn gets a search done or takes a process off the ready queue |
| PagingRuns.InitInv | A9/demandpaging.c:143-242 | the invariant holds after the initialisation |
| PagingRuns.EverythingCompletes | A9/demandpaging.c:64-141 | the main loop terminates with every search of every process done, the swap queue empty, all frames back, and the least degree of multiprogramming reported at a swap-out at least min(n, 6) |
| PagingHistory.QueuesByHistory | A9/demandpaging.c:64-131 | at any turn of a run those swapped out stand in the order in which they were, and the ready ones, behind one just let in, in the order of their last turns |
| PagingHistory.LongestIdleNext | A9/demandpaging.c:64-109 | the next turn is that of the process just let in again or, without one, of the process in memory whose last turn lies furthest back |
| PagingHistory.OutSinceLastTurn | A9/demandpaging.c:111-131 | whoever is swapped out was so in its last turn and has been out since |
| PagingHistory.ReadmittedInOrder | A9/demandpaging.c:86-103 | processes come back in the order in which they were swapped out, and the one that comes back has the next turn |
| PagingHistory.LetInWhenDone | A9/demandpaging.c:80-103 | somebody comes back just when a process has done its last search and anybody is out |
| PagingHistory.SearchNumber | A9/demandpaging.c:76-79 | a process has done as many searches as it has had turns after which it was not swapped out |
| PagingHistory.KeysInOrder | A9/demandpaging.c:262-300 | the k-th search of a process is for its k-th key, for the same one again after it was swapped out, and touches the pages for that key in order, as far as there are frames |
| PagingHistory.NumbersCount | A9/demandpaging.c:111-139 | the swaps reported are the turns that end with one, and the degree of multiprogramming reported is the least number of processes that any of them left in memory |
| PagingHistory.FinalIsRun | A9/demandpaging.c:64-131 | what the main loop ends in is the last state of such a run |
| Paging.Machine.constructor | A9/demandpaging.c:193-204 | all frames in the pool, all tables empty |
| Paging.Machine.LoadPage | A9/demandpaging.c:279-286 | puts the top frame behind a page, or reports that there is none |
| Paging.Machine.LoadProcessEssentialPages | A9/demandpaging.c:244-260 | the ten pages, or a failure exactly when fewer than ten frames are free |
| Paging.Machine.SwapOutProcess | A9/demandpaging.c:307-320 | the whole table goes back, in page order |
| Paging.Machine.UnloadOne | A9/demandpaging.c:311-316 | one entry of that loop |
| Paging.Machine.GiveBackOne | A9/demandpaging.c:313-315 | a valid entry's frame goes on the pool |
| Paging.Machine.Access | A9/demandpaging.c:272-287 | one access, counted, with the page loaded on a fault |
| Paging.Machine.Probe | A9/demandpaging.c:268-297 | one round of the binary search |
| Paging.Machine.SimulateBS | A9/demandpaging.c:262-300 | memory, outcome and counters after a search are those of touching its pages in order |
| Paging.Simulator.Activate | A9/demandpaging.c:230-231 | a process loaded and marked active |
| Paging.Simulator.StartOne | A9/demandpaging.c:228-236 | and put on the ready queue |
| Paging.Simulator.InitializeSimulation | A9/demandpaging.c:228-239 | everybody loaded and ready in order, or a failure exactly when there is no room for all |
| Paging.Simulator.Retire | A9/demandpaging.c:82-84 | the current process leaves memory |
| Paging.Simulator.Readmit | A9/demandpaging.c:86-102 | the oldest swapped process comes back in front of the ready queue |
| Paging.Simulator.FinishProcess | A9/demandpaging.c:80-103 | the end of a process |
| Paging.Simulator.ExpelProcess | A9/demandpaging.c:111-130 | the swap-out of a process, with its counters |
| Paging.Simulator.Search | A9/demandpaging.c:66-76 | the next process makes its search |
| Paging.Simulator.Advance | A9/demandpaging.c:76-110 | what follows a search that got through |
| Paging.Simulator.Turn | A9/demandpaging.c:64-131 | a turn of the loop is a step of the abstract machine, and never fails |
| Paging.Simulator.Run | A9/demandpaging.c:64-141 | the loop ends with everything done |
| Paging.Simulate | A9/demandpaging.c:60-141 | the whole program: it fails only for want of essential frames at the start, and otherwise completes everything |
| History.AgedMasks | A10/LA10_Solution/LRU.c:278-280 | shift and mask of the 16-bit history are a division and a sum |
| History.AgedIsRecorded | A10/LA10_Solution/LRU.c:276-284 | the history is the number written by the reference bits of the last sixteen searches since the load, padded with ones, and ageing records one more |
| History.FullHistory | A10/LA10_Solution/LRU.c:192-192 | a page just loaded has the full history, and so has one referenced in each of its last sixteen searches, and no other |
| History.OrderIsLexicographic | A10/LA10_Solution/LRU.c:202-205 | numeric order of histories is most-recent-first lexicographic order of the records |
| History.ValueInjective | A10/LA10_Solution/LRU.c:202-205 | equal histories mean equal records |
| LruSpec.VictimFacts | A10/LA10_Solution/LRU.c:199-206 | a victim is found exactly when a data page is resident: the lowest-numbered with the smallest history |
| LruSpec.VictimIsLeastUsed | A10/LA10_Solution/LRU.c:199-206 | of the resident data pages the victim has the least recent-use record |
| LruSpec.OneVictim | A10/LA10_Solution/LRU.c:199-206 | there is only one such page |
| LruUses.SearchRemembers | A10/LA10_Solution/LRU.c:178-273 | through a search the reference bit of a data page is set exactly if the search has touched it, and records stay |
| LruUses.AgeRemembers | A10/LA10_Solution/LRU.c:275-284 | the end of a search puts into each record whether that search touched the page, and clears the reference bits |
| LruUses.SearchLoads | A10/LA10_Solution/LRU.c:183-270 | what is resident after a search was so before, with the same record, or was loaded in it and has none |
| LruUses.VictimByUses | A10/LA10_Solution/LRU.c:199-206 | the page taken away is the one used least by the searches of its process before this one |
| LruUseRuns.RecordsAreUses | A10/LA10_Solution/LRU.c:275-284 | between two turns of any run the record of a resident data page goes back to the search in which the page was loaded and says of each search since whether it touched the page; no reference bit is set |
| LruUseRuns.ReferenceBits | A10/LA10_Solution/LRU.c:270-270 | within a search of any run the reference bit of a data page is set exactly if this search has touched it |
| LruUseRuns.VictimIsUsedLeast | A10/LA10_Solution/LRU.c:199-206 | wherever in a run a page is replaced, no other resident data page of the process was used less by its last sixteen searches, as far back as each was loaded; of equals it has the lowest number |
| LruSpec.ChoiceIsBest | A10/LA10_Solution/LRU.c:214-258 | the frame chosen is of the best class present, own page, unowned, own other, foreign, the first of its class, and the attempt number is the class |
| LruRuns.AccessWhole | A10/LA10_Solution/LRU.c:181-270 | an access keeps every frame in exactly one place |
| LruRuns.AccessFloor | A10/LA10_Solution/LRU.c:188-190 | an access takes from the pool only above the floor |
| LruRuns.AccessTables | A10/LA10_Solution/LRU.c:181-270 | an access leaves other processes' pages and its own essential pages where they were |
| LruRuns.FirstAttemptIsRight | A10/LA10_Solution/LRU.c:214-223 | when the first attempt succeeds the frame already holds the page asked for |
| LruRuns.AccessTruthful | A10/LA10_Solution/LRU.c:188-268 | tags stay true: an entry tagged with owner and page still holds that page of that process |
| LruRuns.AccessRecorded | A10/LA10_Solution/LRU.c:270-284 | histories stay the values of their records |
| LruRuns.AccessCounted | A10/LA10_Solution/LRU.c:197-258 | replacements stay the sum of the four attempt counters |
| LruRuns.AgeKeeps | A10/LA10_Solution/LRU.c:276-284 | ageing keeps frames, tags and counters right and histories the values of their records; which bits go into these is `LruUses.AgeRemembers` |
| LruRuns.ReleaseFromKeeps | A10/LA10_Solution/LRU.c:290-298 | so does the release of a finished process |
| LruRuns.ReleaseFromTables | A10/LA10_Solution/LRU.c:290-298 | which empties its table into the pool |
| LruRuns.SearchSound | A10/LA10_Solution/LRU.c:178-273 | a search keeps all of this and moves only data pages of its own process |
| LruRuns.SearchFloor | A10/LA10_Solution/LRU.c:188-190 | a search never takes the pool below the floor |
| LruRuns.SearchDrop | A10/LA10_Solution/LRU.c:178-195 | a search takes at most one frame for each distinct page it misses |
| LruRuns.AccessFailsWhen | A10/LA10_Solution/LRU.c:196-207 | an access fails exactly at a missing page, at the floor, with no resident data page or no free frame |
| LruRuns.SearchGoesThrough | A10/LA10_Solution/LRU.c:178-273 | a search whose first load succeeds goes through |
| LruSystem.TraceFacts | A10/LA10_Solution/LRU.c:178-182 | a search touches data pages only, thirteen distinct ones at most |
| LruSystem.TurnInv | A10/LA10_Solution/LRU.c:286-299 | a turn keeps the invariant of the system |
| LruSystem.TurnSucceeds | A10/LA10_Solution/LRU.c:199-207 | with at most 491 processes no turn is without a victim |
| LruSystem.SettledQueue | A10/LA10_Solution/LRU.c:286-289 | the ready list after a turn |
| LruSystem.SettledKernel | A10/LA10_Solution/LRU.c:275-299 | the kernel after a turn |
| LruTurns.WhoseTurn | A10/LA10_Solution/LRU.c:286-315 | the i-th turn of a run is that of process i mod n, for its search number i div n |
| LruTurns.KeysInOrder | A10/LA10_Solution/LRU.c:308-315 | in it the process searches for its key of that number, touches the pages for it in order, and moves nobody else's |
| LruTurns.SearchCounts | A10/LA10_Solution/LRU.c:178-187 | a search counts an access for each page and a fault for each that is missing when its turn comes |
| LruTurns.AccessesCounted | A10/LA10_Solution/LRU.c:181-181 | in every state of a run the accesses counted for a process are those of all pages of the searches it has done |
| LruTurns.AccessLoads | A10/LA10_Solution/LRU.c:188-192 | above the floor a missing page gets the frame on top of the free list |
| LruTurns.AccessExchanges | A10/LA10_Solution/LRU.c:196-268 | at the floor a missing page gets the first frame of the best class there is, the attempt of that class is counted, and the frame given up is tagged with process and page |
| LruTurns.ReleaseInOrder | A10/LA10_Solution/LRU.c:290-298 | at its end a process gives its frames back in page order, owned by nobody |
| LruTheorems.InitInv | A10/LA10_Solution/LRU.c:123-171 | the state after the initialisation meets the invariant |
| LruTheorems.RunInv | A10/LA10_Solution/LRU.c:370-370 | every state of every run does |
| LruTheorems.EveryStateIsSound | A10/LA10_Solution/LRU.c:173-302 | in every state each frame is in one place, each tag true, each history its record, and replacements are the attempts |
| LruTheorems.EssentialPagesStay | A10/LA10_Solution/LRU.c:159-163 | pages 0 to 9 keep their frames until the process is released |
| LruTheorems.PoolFloor | A10/LA10_Solution/LRU.c:188-195 | the pool never falls below 1000 frames exactly when 10n + 1000 frames fit in memory |
| LruTheorems.VictimAlwaysExists | A10/LA10_Solution/LRU.c:199-207 | for at most 491 processes every search finds its victims, whatever rand() gives |
| LruRoom.SearchTakes | A10/LA10_Solution/LRU.c:188-195 | a search takes a frame for each distinct page it misses, until the pool is at the floor |
| LruRoom.TurnGoesThrough | A10/LA10_Solution/LRU.c:183-207 | in the first round a search goes through exactly if it touches no page or finds the pool above the floor |
| LruRoom.RunAtTurn | A10/LA10_Solution/LRU.c:370-370 | after i turns of any run the first i processes have searched once, and the pool is what their first searches leave |
| LruRoom.VictimAlwaysExistsIff | A10/LA10_Solution/LRU.c:199-207 | no search of any run is without a victim exactly when every process that touches a page finds room for it at its first search, which sizes and first searches decide |
| LruRoom.FewAreRoomy | A10/LA10_Solution/LRU.c:188-195 | which is so for up to 491 processes, whatever they search for |
| LruTheorems.EachTurnCounts | A10/LA10_Solution/LRU.c:286-287 | after i turns i of the n m searches are done |
| LruTheorems.NothingLeft | A10/LA10_Solution/LRU.c:290-298 | when the ready list is empty all searches are done and all frames free |
| LruTheorems.RunsEnd | A10/LA10_Solution/LRU.c:370-370 | a run has at most n m turns |
| LruTheorems.StrictVictim | A10/LRU.c:296-310 | the other program's search finds a page exactly when some data page was not referenced in one of its last sixteen searches since its load, and then the same page |
| LruTheorems.FreshPagesAreNoStrictVictims | A10/LRU.c:297-310 | so it fails when all data pages were loaded in the current search, where the first program does not |
| Lru.Machine.constructor | A10/LA10_Solution/LRU.c:132-141 | the free-frame list at the start, unowned |
| Lru.Machine.LoadEssential | A10/LA10_Solution/LRU.c:159-163 | ten essential pages, referenced and fully used |
| Lru.Machine.FindVictim | A10/LA10_Solution/LRU.c:199-206 | the loop finds the victim, or -1 |
| Lru.Machine.Find | A10/LA10_Solution/LRU.c:215-248 | the first entry of an owner, and of a page if given |
| Lru.Machine.ChooseFrame | A10/LA10_Solution/LRU.c:212-258 | the four attempts in order |
| Lru.Machine.TakeFree | A10/LA10_Solution/LRU.c:188-192 | a fault with frames to spare |
| Lru.Machine.Exchange | A10/LA10_Solution/LRU.c:260-267 | a fault at the floor |
| Lru.Machine.MarkReferenced | A10/LA10_Solution/LRU.c:270-270 | the reference bit is set |
| Lru.Machine.CountAccess | A10/LA10_Solution/LRU.c:181-187 | accesses and faults are counted |
| Lru.Machine.AccessPage | A10/LA10_Solution/LRU.c:181-270 | one access in place is the abstract access |
| Lru.Machine.Probe | A10/LA10_Solution/LRU.c:179-272 | one round of the binary search |
| Lru.Machine.SearchLoop | A10/LA10_Solution/LRU.c:178-273 | the search in place is the abstract search |
| Lru.Machine.AgePages | A10/LA10_Solution/LRU.c:275-284 | the ageing loop |
| Lru.Machine.ReleaseFrames | A10/LA10_Solution/LRU.c:290-298 | the release loop |
| Lru.Machine.ReleaseEntry | A10/LA10_Solution/LRU.c:292-297 | one entry of it |
| Lru.Simulator.InitKernelData | A10/LA10_Solution/LRU.c:123-171 | the initial kernel and ready list |
| Lru.Simulator.Settle | A10/LA10_Solution/LRU.c:275-299 | ageing, counting and requeueing or releasing |
| Lru.Simulator.NextSearch | A10/LA10_Solution/LRU.c:304-318 | the process at the front makes its next search |
| Lru.Simulator.Run | A10/LA10_Solution/LRU.c:370-370 | the main loop goes on to the end exactly when everybody finds room at the first search |
| Lru.Simulate | A10/LA10_Solution/LRU.c:358-375 | the whole program goes through exactly when everybody finds room at the first search, and then every search is done, all frames are free and the counters add up |
| LruVariant.MovedIsSwapped | A10/LRU.c:329-330 | taking an entry out by moving the last into its place, then pushing the victim's, gives the same frames as exchanging in place, with two entries changed round |
| LruVariant.Pool.constructor | A10/LRU.c:213-217 | all frames free and unowned |
| LruVariant.Pool.Find | A10/LRU.c:324-340 | the first entry of an owner, and of a page if given |
| LruVariant.Pool.FindOther | A10/LRU.c:364-380 | the extra test on the page makes no difference after the first attempt has failed |
| LruVariant.Pool.Locate | A10/LRU.c:323-399 | the four attempts choose what the first program chooses on the same list |
| LruVariant.Pool.ReplaceFrame | A10/LRU.c:316-404 | frame, attempt and free list after a replacement |
| LruVariant.SameButForOrder | A10/LRU.c:264-420 | an access that goes through does what it does in the first program, up to one exchange in the free list |
| LruVariant.DroppedWhen | A10/LRU.c:296-310 | a process is dropped exactly when it misses a page at the floor and each of its data pages was referenced in each of its last sixteen searches since loading |
| LruVariant.VAccessIntact | A10/LRU.c:264-420 | frames, tags and histories stay right, dropped or not |
| LruVariant.VAccessFloor | A10/LRU.c:278-288 | frames are taken only above the floor |
| LruVariant.VAccessTallied | A10/LRU.c:293-398 | replacements are the sum of the attempts, one more for a dropped process |
| LruVariant.VSearchKeeps | A10/LRU.c:259-421 | so after a whole search |
| LruVariant.VAgeIntact | A10/LRU.c:427-436 | ageing, here of all pages, keeps frames, tags and histories |
| LruVariant.ReleaseIntact | A10/LRU.c:438-453 | so does the release |
| LruVariant.VSettlePlaces | A10/LRU.c:85-111 | each process stays in exactly one of ready, dropped and done |
| LruVariant.VTurnInv | A10/LRU.c:85-111 | every turn keeps frames, tags, histories, counters, the floor and everybody's place |
| LruVariant.VTurnProgress | A10/LRU.c:85-111 | each turn ends a search or drops a process, so the simulation ends |
| LruVariant.UnreferencedIntact | A10/LRU.c:229-256 | essential pages without their reference bit, as this program loads them, leave frames, tags and histories right |
| LruVariant.StartBegun | A10/LRU.c:204-256 | at the start frames, tags and histories are right, the frames beyond the essential pages are free, no search is done, all are ready in order and nobody is dropped |
| LruVariant.VStartInv | A10/LRU.c:229-256 | the invariant holds of that start, if a frame is left |
| LruVariantRuns.RunSteady | A10/LRU.c:85-111 | every state of every run keeps frames, tags, histories and counters right and has everybody ready, dropped or done |
| LruVariantRuns.AlwaysNext | A10/LRU.c:85-111 | while somebody is ready there is a next turn, whatever rand() gives |
| LruVariantRuns.RunsEnd | A10/LRU.c:85-111 | a run has at most n m turns, and when nobody is ready everybody is either done or dropped |
| LruVariantRuns.FreshSearch | A10/LRU.c:278-310 | a search with fresh pages only goes through exactly if there is a frame above the floor for each distinct page it misses |
| LruVariantRuns.DroppedAtFirst | A10/LRU.c:296-310 | a process is dropped in its first search exactly when that search touches more distinct pages than there are frames above the floor by then, which sizes and first searches decide |
| LruVariantRuns.DroppedForWant | A10/LRU.c:278-310 | with two searches or more for everybody: exactly when it touches a page and the first searches up to its own want more frames than there are above the floor |
| LruVariantRuns.FirstAccess | A10/LRU.c:278-310 | the very first access of a run drops its process exactly for 1129 processes or more |
| LruVariantRuns.DroppedMidSearch | A10/LRU.c:296-310 | a run in which the first process finds the pool above the floor and is dropped in the middle of its search |
| LruVariantUses.RecordsAreUses | A10/LRU.c:427-436 | in this program too, for processes not dropped, records say which searches since the load touched the page, and no reference bit is set between turns |
| LruVariantUses.VictimIsUsedLeast | A10/LRU.c:296-310 | and the page replaced is the one they used least |
| LruVariantUses.DroppedByUses | A10/LRU.c:296-310 | wherever in a run: an access drops its process exactly if it misses its page at the floor and every resident data page was touched in each of the last sixteen searches, as far back as it was loaded |
| LruVariantTurns.LongestIdleNext | A10/LRU.c:85-111 | the next turn is that of the ready process whose last turn lies furthest back |
| LruVariantTurns.SearchNumber | A10/LRU.c:85-111 | a process that is not dropped has done a search in each of its turns |
| LruVariantTurns.KeysInOrder | A10/LRU.c:259-262 | in its j-th turn a process searches for its j-th key |
| LruFate.AccessBare | A10/LRU.c:264-310 | an access comes, whatever is drawn, to what pages, bits, histories and the size of the pool say |
| LruFate.SearchBare | A10/LRU.c:259-421 | so does a whole search, dropped or not |
| LruFate.NextFate | A10/LRU.c:85-111 | and a turn, with ageing, requeueing or release |
| LruFate.StartFate | A10/LRU.c:200-256 | the start is that of the configuration |
| LruFate.RunIsFate | A10/LRU.c:85-111 | after any number of turns of any run, resident pages, histories, size of the pool, searches done, ready list and dropped processes are a function of the configuration |
| LruFate.DrawsDoNotMatter | A10/LRU.c:85-111 | two runs on the same input drop the same processes in the same turns, whatever rand() gives |
| LruFate.DroppedNext | A10/LRU.c:296-310 | any search, a first or a later one, drops its process exactly if going through its pages from what the configuration has come to finds one missing at the floor with every history full |
| LruFate.WhoIsDropped | A10/LRU.c:296-310 | who is dropped by the end of a run is told by the configuration beforehand |
| SchedSpec.StartInv | A3/schedule.c:238-250 | the invariant holds before the first event |
| SchedSpec.StepInv | A3/schedule.c:256-372 | whichever of the due events is taken, books, places and clock stay right, and the CPU is never idle with somebody ready |
| SchedSpec.HandleClock | A3/schedule.c:260-332 | so after the event alone |
| SchedSpec.DispatchClock | A3/schedule.c:335-369 | and after giving the CPU away |
| SchedRuns.StepProgress | A3/schedule.c:256-372 | every step lowers the work left |
| SchedRuns.OverMeansDone | A3/schedule.c:342-342 | when no event is left everybody has finished, the wait added up turn by turn is turnaround less all bursts, and idle time is the final time less all CPU bursts |
| SchedRuns.RunsEnd | A3/schedule.c:256-372 | for a positive quantum every run ends, whatever the tie-breaks, and one that cannot go on is done |
| SchedRuns.TimeMovesOn | A3/schedule.c:258-258 | event times never decrease |
| SchedRuns.QueueLeavesRoom | A3/schedule.c:64-72 | ready queue, running process and the one joining are different processes, so no queue overflows |
| SchedRuns.NobodyWaitsLong | A3/schedule.c:335-351 | nobody stays in the ready queue for more than (n-1) q, in any run from a state in time |
| SchedRuns.NobodyEverWaitsLong | A3/solution/schedule.c:264-282 | in particular in any run from the start |
| SchedSlices.QuantumIsKept | A3/schedule.c:335-363 | in any run: a process that is timed out has had the CPU, all the time since it was served, for exactly a quantum, with some of its burst left; one whose burst ends for at most a quantum, to the end of the burst |
| SchedSlices.QueueByJoining | A3/schedule.c:266-332 | the ready queue stands in the order in which its processes joined it |
| SchedSlices.FirstComeFirstServed | A3/schedule.c:335-338 | whoever gets the CPU joined the queue before everybody left in it |
| SchedSlices.ReachedByRun | A3/schedule.c:256-372 | every state the scheduler comes to is the last of such a run |
| SchedOrder.FirstExists | A3/solution/schedule.c:103-117 | while an event is left exactly one comes first |
| SchedOrder.FirstIsUnique | A3/solution/schedule.c:103-117 | and only one |
| SchedOrder.FirstIsDue | A3/solution/schedule.c:103-106 | which is one of those due |
| SchedOrder.ResultStep | A3/schedule.c:256-257 | the run of a tie-break goes on from its first event |
| SchedOrder.ResultIsARun | A3/schedule.c:256-372 | that run is a run of the scheduler and ends with everybody done |
| SchedOrder.JoinAndEndCommute | A3/schedule.c:107-118 | an arrival and a burst end due together can be taken in either order |
| SchedOrder.EndCanComeFirst | A3/solution/schedule.c:103-117 | a due burst end can be taken before the arrivals due with it |
| SchedOrder.TieBreakDoesNotMatter | A3/solution/schedule.c:103-117 | the two tie-breaks lead to the same final state from any reachable state |
| SchedOrder.SimulatorsAgree | A3/solution/schedule.c:193-292 | for all jobs without empty I/O bursts both simulators end with the same times, waits and idle time |
| SchedTurns.HandleFacts | A3/schedule.c:266-332 | what the event of a process does, case by case |
| SchedTurns.DispatchFacts | A3/schedule.c:335-363 | what serving the head of the queue does to the records, with its books right; how long it runs is `SchedSlices.QuantumIsKept` |
| HeapOrder.RiseStep | A3/schedule.c:126-134 | a heap but for a rising element stays one when the element is exchanged with its parent |
| HeapOrder.RiseDone | A3/schedule.c:131-133 | and is a heap when it stops |
| HeapOrder.SinkStep | A3/schedule.c:145-165 | the same for a sinking element |
| HeapOrder.SinkDone | A3/schedule.c:160-161 | and when it stops |
| HeapOrder.RootIsLeast | A3/schedule.c:138-138 | the root of a heap is least |
| HeapOrder.RootReplaced | A3/schedule.c:139-142 | the last element in place of the root leaves a heap but for the root |
| HeapOrder.Appended | A3/schedule.c:122-124 | an appended element leaves a heap but for it |
| HeapOrder.LastReplacesFirst | A3/schedule.c:138-142 | exactly the root is removed |
| EventHeap.CompareHasCycles | A3/schedule.c:104-119 | the comparison of events has cycles |
| EventHeap.CompareIsOrder | A3/schedule.c:104-119 | away from a time-out against a burst end it is the order of time, class and number |
| EventHeap.CompareIsTotal | A3/schedule.c:104-119 | so among events without that clash, one for each process, it is a strict total order |
| EventHeap.EventQueue.constructor | A3/schedule.c:96-96 | the empty heap |
| EventHeap.EventQueue.SwapEvents | A3/schedule.c:98-102 | two events exchanged |
| EventHeap.EventQueue.Push | A3/schedule.c:121-135 | the event is added and the heap stays one |
| EventHeap.EventQueue.Rise | A3/schedule.c:126-134 | the rising loop |
| EventHeap.EventQueue.Smallest | A3/schedule.c:146-158 | the least of an element and its children |
| EventHeap.EventQueue.Sink | A3/schedule.c:143-165 | the sinking loop |
| EventHeap.EventQueue.DropRoot | A3/schedule.c:138-142 | the root replaced by the last element |
| EventHeap.EventQueue.Pop | A3/schedule.c:137-169 | removes one event, before which none of the others compares, and the heap stays one |
| EventBook.ReachableHeap | A3/schedule.c:104-119 | in every reachable state the heap has at most one event for each process and one CPU event in all, and there the comparison is a strict total order |
| EventBook.PoppedIsFirst | A3/schedule.c:257-258 | the event popped is that of the process that comes first |
| EventBook.TiedSize | A3/schedule.c:121-124 | there are never more events than processes, so the heap never overflows |
| ReadyQueue.Queue.constructor | A3/schedule.c:57-60 | the empty queue has front and rear at -1 |
| ReadyQueue.Queue.Enqueue | A3/schedule.c:64-72 | appends |
| ReadyQueue.Queue.Dequeue | A3/schedule.c:74-88 | removes the oldest, or gives -1 |
| ReadyQueue.ReadyQ.constructor | A3/solution/schedule.c:58-66 | a queue of n places with one cell unused |
| ReadyQueue.ReadyQ.IsEmpty | A3/solution/schedule.c:68-68 | emptiness by the indices |
| ReadyQueue.ReadyQ.IsFull | A3/solution/schedule.c:70-70 | fullness by the indices |
| ReadyQueue.ReadyQ.Front | A3/solution/schedule.c:72-78 | the head, or an error when empty |
| ReadyQueue.ReadyQ.Enqueue | A3/solution/schedule.c:80-90 | appends, or an error when full |
| ReadyQueue.ReadyQ.Dequeue | A3/solution/schedule.c:92-101 | drops the head, or an error when empty |
| EventScheduler.Simulation.Init | A3/schedule.c:227-236 | nothing queued, the CPU free, the clock at 0 |
| EventScheduler.Simulation.Reset | A3/schedule.c:238-244 | all records as before arrival |
| EventScheduler.Simulation.PushArrivals | A3/schedule.c:246-250 | one arrival event for each process |
| EventScheduler.Simulation.TakeEvent | A3/schedule.c:257-258 | the event that comes first, out of the heap |
| EventScheduler.Simulation.AccountIdle | A3/schedule.c:260-262 | idle time is counted when the CPU was free |
| EventScheduler.Simulation.BackToReady | A3/schedule.c:310-325 | a process rejoins the ready queue |
| EventScheduler.Simulation.JoinOnArrival | A3/schedule.c:267-279 | a process joins on arrival |
| EventScheduler.Simulation.BurstEnd | A3/schedule.c:281-308 | a burst ends: the process finishes or starts its I/O |
| EventScheduler.Simulation.HandleEvent | A3/schedule.c:266-332 | the event's effect is that of the abstract step |
| EventScheduler.Simulation.DispatchNext | A3/schedule.c:335-369 | the head of the queue gets a free CPU |
| EventScheduler.Simulation.Serve | A3/schedule.c:336-363 | wait time, remaining time and next event of the process served |
| EventScheduler.Simulation.Turn | A3/schedule.c:256-372 | a turn of the loop is a step of the abstract scheduler by this tie-break |
| EventScheduler.Simulation.Run | A3/schedule.c:256-372 | the loop ends in the result of that tie-break |
| EventScheduler.Schedule | A3/schedule.c:227-385 | completion, turnaround and wait of every process and the totals reported are those of the abstract run |
| EventScheduler.ResetProcesses | A3/schedule.c:387-397 | all counters of all processes back to zero |
| EventScheduler.SimulateAll | A3/schedule.c:399-414 | three simulations on the same records, each as from fresh ones |
| JobHeap.EventCmpIsOrder | A3/solution/schedule.c:103-117 | this comparison is an order of time, state and number on all records |
| JobHeap.EventQ.constructor | A3/solution/schedule.c:119-128 | all processes in the array |
| JobHeap.EventQ.Compare | A3/solution/schedule.c:103-117 | the comparison on the records as they are |
| JobHeap.EventQ.LesserChild | A3/solution/schedule.c:134-138 | the lesser of one or two children |
| JobHeap.EventQ.Heapify | A3/solution/schedule.c:130-146 | a subtree that is a heap but for its root becomes one |
| JobHeap.EventQ.MakeHeap | A3/solution/schedule.c:148-153 | bottom-up heap construction, keeping the elements |
| JobHeap.EventQ.Insert | A3/solution/schedule.c:155-172 | an element is added and the heap stays one |
| JobHeap.EventQ.Rise | A3/solution/schedule.c:161-170 | the rising loop |
| JobHeap.EventQ.First | A3/solution/schedule.c:174-180 | an element before which none compares, or an error when empty |
| JobHeap.EventQ.DelMin | A3/solution/schedule.c:182-191 | removes the root, or an error when empty |
| JobScheduler.PoppedIsFirst | A3/solution/schedule.c:214-216 | the process at the root is the one that comes first |
| JobScheduler.RoomInHeap | A3/solution/schedule.c:158-160 | there is always room in the heap for the process taken out |
| JobScheduler.KeysUnchanged | A3/solution/schedule.c:273-276 | changing the record of a process outside the heap keeps the heap |
| JobScheduler.Simulation.constructor | A3/solution/schedule.c:204-209 | all in the heap, none ready, the CPU free |
| JobScheduler.Simulation.TakeEvent | A3/solution/schedule.c:214-216 | the process that comes first, out of the heap |
| JobScheduler.Simulation.Join | A3/solution/schedule.c:218-219 | a process joins the ready queue, which is never full |
| JobScheduler.Simulation.ExitNow | A3/solution/schedule.c:232-243 | the wait reported at exit, turnaround less bursts, is the time really spent waiting |
| JobScheduler.Simulation.StartIo | A3/solution/schedule.c:244-250 | I/O begins |
| JobScheduler.Simulation.CpuEvent | A3/solution/schedule.c:229-259 | burst end or time-out, told apart by what remains |
| JobScheduler.Simulation.HandleEvent | A3/solution/schedule.c:217-263 | the event's effect is that of the abstract step, and no error exit is taken |
| JobScheduler.Simulation.DispatchNext | A3/solution/schedule.c:264-283 | the head of the queue gets a free CPU |
| JobScheduler.Simulation.Serve | A3/solution/schedule.c:272-277 | remaining time and next event of the process served |
| JobScheduler.Simulation.Turn | A3/solution/schedule.c:213-284 | a turn of the loop is a step of the abstract scheduler by this tie-break |
| JobScheduler.Simulation.Run | A3/solution/schedule.c:213-284 | the loop ends in the result of that tie-break |
| JobScheduler.AddUp | A3/solution/schedule.c:234-238 | the bursts added up |
| JobScheduler.UsedCpu | A3/solution/schedule.c:286-289 | all CPU bursts added up |
| JobScheduler.ResetJobs | A3/solution/schedule.c:198-203 | every job back at its arrival |
| JobScheduler.Schedule | A3/solution/schedule.c:193-292 | one line for each process with its real exit, turnaround and wait; total wait, final time and idle time by the closed forms are the real ones |
| JobScheduler.SimulateAll | A3/solution/schedule.c:295-315 | three simulations on the same records |
| SchedAgree.SameReports | A3/solution/schedule.c:193-292 | what the two programs report is the same, line by line |
| SchedAgree.NobodyIsPreempted | A3/schedule.c:402-403 | with a quantum no burst exceeds nobody is ever preempted |
| TokenRing.StartInv | A5/LA5_Solution/leader.c:12-19 | the invariant holds before anybody joins |
| TokenRing.JoinInv | A5/LA5_Solution/follower.c:12-20 | joining keeps it |
| TokenRing.LeaderInv | A5/LA5_Solution/leader.c:21-48 | every step of the leader keeps it |
| TokenRing.FollowerInv | A5/LA5_Solution/follower.c:22-35 | every step of a follower keeps it |
| TokenRing.SumIsInside | A5/LA5_Solution/leader.c:33-39 | the sum looked up is that of one value written this round by each, and lies in n+1 to 9n+99, inside the table |
| TokenRing.ExactlyOneCanStep | A5/LA5_Solution/follower.c:24-34 | from set-up to the end exactly one process can take a step |
| TokenRing.WhoCan | A5/LA5_Solution/follower.c:25-25 | only the follower with the token can |
| TokenRing.CountBound | A5/LA5_Solution/leader.c:38-39 | the pigeonhole over the sums possible |
| TokenRing.RoundsBounded | A5/LA5_Solution/leader.c:28-40 | at most 8n + 100 rounds |
| TokenRing.NoFollowersNoEnd | A5/LA5_Solution/leader.c:28-31 | with no followers the leader waits for ever |
| TokenRing.LeaderDescends | A5/LA5_Solution/leader.c:28-48 | each step of the leader brings the end nearer |
| TokenRing.FollowerDescends | A5/LA5_Solution/follower.c:24-34 | so does each step of a follower |
| TokenRing.RunsEnd | A5/LA5_Solution/leader.c:56-78 | every run, however interleaved, is bounded, and one that cannot go on has all followers gone in order 1 to n before the leader, after at most 8n + 100 rounds |
| TokenRingSums.MarksAreSums | A5/LA5_Solution/leader.c:38-39 | the sums marked are just those looked up so far in the run |
| TokenRingSums.EndsAtRepeatedSum | A5/LA5_Solution/leader.c:28-40 | the leader stops at the first sum that an earlier round had, and goes on after any other |
| TokenRingProgram.TurnSteps | A5/LA5_Solution/follower.c:25-28 | a turn with the token, taken at once, is a run of the protocol |
| TokenRingProgram.LeaveSteps | A5/LA5_Solution/follower.c:25-32 | so is a turn with the end |
| TokenRingProgram.SharedRing.JoinAsFollower | A5/LA5_Solution/follower.c:12-20 | a number, or a refusal when all have joined |
| TokenRingProgram.SharedRing.WaitForFollowers | A5/LA5_Solution/leader.c:12-19 | all n have joined |
| TokenRingProgram.SharedRing.FollowerTurn | A5/LA5_Solution/follower.c:26-28 | a value from 1 to 9 is written and the token passed on |
| TokenRingProgram.SharedRing.FollowerLeaves | A5/LA5_Solution/follower.c:29-32 | the end is passed on |
| TokenRingProgram.SharedRing.SendRound | A5/LA5_Solution/leader.c:29-31 | the token comes back after everybody's turn |
| TokenRingProgram.SharedRing.AddUp | A5/LA5_Solution/leader.c:33-36 | the sum of all values |
| TokenRingProgram.SharedRing.Seen | A5/LA5_Solution/leader.c:38-39 | whether the sum, which is inside the table, was seen before |
| TokenRingProgram.SharedRing.LoopWithFollowers | A5/LA5_Solution/leader.c:21-42 | the loop ends |
| TokenRingProgram.SharedRing.EndLoop | A5/LA5_Solution/leader.c:44-48 | all have left |
| TokenRingProgram.RunRing | A5/LA5_Solution/leader.c:50-78 | all followers leave in order, after at most 8n + 100 rounds |
| Rendezvous.InitialInv | A7/LA7_Solution/boating.c:149-155 | the invariant holds before any thread runs |
| Rendezvous.NextInv | A7/LA7_Solution/boating.c:55-133 | every step of a boat, a visitor or a barrier keeps it |
| Rendezvous.RunInv | A7/boating.c:48-139 | in every interleaving of either program |
| Rendezvous.BoatStepCounted | A7/LA7_Solution/boating.c:66-92 | the count of free boats against visitors, announcements and semaphore value stays exact in boats' steps |
| Rendezvous.VisitorStepCounted | A7/LA7_Solution/boating.c:109-124 | and in visitors' steps |
| Rendezvous.MeetCounted | A7/LA7_Solution/boating.c:70-70 | and when a barrier opens |
| Rendezvous.ScanFinds | A7/LA7_Solution/boating.c:112-124 | the first scan of a visitor finds a boat |
| Rendezvous.EnoughBoats | A7/LA7_Solution/boating.c:109-124 | there are never fewer free boats than visitors past P(rider) that have not claimed one |
| Rendezvous.PsWithinVs | A7/LA7_Solution/boating.c:26-40 | completed P's never exceed V's, and a thread waits only when there is no V to spare |
| Rendezvous.PairsMeet | A7/LA7_Solution/boating.c:126-126 | at a boat's barrier there is at most one visitor, the one who claimed it |
| Rendezvous.RightRider | A7/LA7_Solution/boating.c:72-78 | a boat rides with the visitor it met, for that visitor's time, and no other boat does |
| Rendezvous.OneClaimEach | A7/LA7_Solution/boating.c:116-120 | no boat is claimed again before its own thread has ended the ride |
| Rendezvous.RidesToCome | A7/LA7_Solution/boating.c:84-85 | a ride counted off was still to come |
| Rendezvous.EosAfterAllRides | A7/LA7_Solution/boating.c:84-88 | the end of the session comes only after every visitor has ridden, each exactly once |
| RendezvousRuns.NextSound | A7/LA7_Solution/boating.c:66-126 | visitors' V's, boats' P's and visitors gone stay in balance with the rides |
| RendezvousRuns.NextWorks | A7/LA7_Solution/boating.c:66-132 | every step leaves less to do |
| RendezvousRuns.RunsEnd | A7/LA7_Solution/boating.c:66-132 | no run has more than eleven steps for each boat and fourteen for each visitor |
| RendezvousRuns.StandstillShape | A7/LA7_Solution/boating.c:67-70 | a run that can go no further has rides left exactly if a boat stands at its barrier |
| RendezvousRuns.OneBoatServesAll | A7/LA7_Solution/boating.c:66-92 | with one boat every run that can go no further has served every visitor, each once |
| RendezvousRuns.DoomedStandstill | A7/LA7_Solution/boating.c:109-126 | once every visitor has claimed a boat while an unclaimed boat is at its barrier, every way leads to a standstill |
| RendezvousRuns.MayGetStuck | A7/boating.c:63-66 | with two boats or more, however many visitors, a standstill before the last ride is reachable in either program: the boat woken is not the boat claimed |
| RendezvousRuns.StandstillIff | A7/boating.c:48-139 | either program can come to a standstill with rides to come exactly when it does not have one boat |
| RendezvousRuns.BarrierIsReady | A7/boating.c:52-61 | with boats made available at the loop head a claimed boat's barrier is always initialised |
| RendezvousRuns.OneBarrierIsReady | A7/LA7_Solution/boating.c:61-67 | with a single boat too |
| RendezvousRuns.BarrierMayNotBeReady | A7/LA7_Solution/boating.c:61-62 | in the LA7 program with two boats or more a visitor can come to a barrier not yet initialised |
| RendezvousRuns.TooEarlyIff | A7/LA7_Solution/boating.c:61-67 | so that can happen exactly in the LA7 program with two boats or more |
| BoatTables.Tables.constructor | A7/boating.c:159-166 | at first no boat is available in either program |
| BoatTables.Tables.Claim | A7/LA7_Solution/boating.c:114-123 | the scan claims the first boat that is available |
| BoatTables.Tables.SetOff | A7/LA7_Solution/boating.c:72-75 | the boat reads its rider and is not available |
| BoatTables.Tables.ComeBack | A7/LA7_Solution/boating.c:82-85 | the boat is available again, and one ride fewer is to come |
| BoatTables.ClaimIsScan | A7/LA7_Solution/boating.c:114-123 | the claim is the protocol's scanning step and never fails |
| DepGraph.ReachesBy | A1/rebuild.c:85-87 | whatever is reached is reached by way of a dependency |
| DepGraph.NoCycle | A1/rebuild.c:85-104 | with a ranking nothing is reached from its own dependencies |
| DepGraph.RankGrows | A1/gendep.c:48-51 | along a path the rank grows |
| DepGraph.ClosedReaches | A1/rebuild.c:89-90 | if what is done has its dependencies done, all that it reaches is done |
| Rebuild.ReadDeps | A1/rebuild.c:67-81 | the dependencies on the first line for the foodule, none if there is no such line |
| Rebuild.ReadDep | A1/solution/code.c:8-37 | those on the u-th line, or an error when it is for another foodule |
| RebuildSpec.NeedsIsDeps | A1/rebuild.c:85-109 | what a foodule needs is itself and what its dependencies need |
| RebuildSpec.DoneNeeds | A1/rebuild.c:87-90 | what a foodule marked done needs is done |
| RebuildSpec.RebuiltMore | A1/rebuild.c:85-104 | the reports of two parts of the work, one after the other |
| RebuildSpec.RebuiltLast | A1/rebuild.c:106-110 | the foodule itself comes after all it depends on |
| RebuildSpec.RankedIsAcyclic | A1/gendep.c:48-51 | a ranked file has no cycle anywhere |
| RebuildSpec.DepNeedsLess | A1/rebuild.c:85-104 | off every cycle a dependency needs less than what depends on it |
| RebuildEnds.AcyclicEnds | A1/rebuild.c:85-104 | with no cycle in its way the recursion ends, no deeper than there are foodules needed |
| RebuildEnds.EndsRight | A1/rebuild.c:85-110 | a recursion that ends has rebuilt what was needed and not done, each once and after its dependencies, whatever the file |
| RebuildEnds.EndsIff | A1/rebuild.c:85-104 | the recursion from a root ends exactly when nothing the root needs is on a cycle |
| Rebuild.Workspace.InitializeDone | A1/rebuild.c:13-24 | nothing is marked done |
| Rebuild.Workspace.OneDep | A1/solution/code.c:58-73 | a dependency that is done is left alone, another is rebuilt as the recursion has it |
| Rebuild.Workspace.BuildDeps | A1/solution/code.c:51-76 | the loop does what the recursion does with the dependencies in order |
| Rebuild.Workspace.Finish | A1/solution/code.c:78-105 | the foodule is marked done and reported last |
| Rebuild.Workspace.Recur | A1/rebuild.c:51-121 | done-file and log after a call are those of the recursion |
| Rebuild.Workspace.Rebuild | A1/rebuild.c:51-121 | if nothing the foodule needs is on a cycle the program ends, and has rebuilt exactly what was needed and not done, each once and after all its dependencies |
| Rebuild.GenerateAndRebuild | A1/gendep.c:23-79 | on a generated file both programs end, for any root |
| DepGen.OrderedStep | A1/gendep.c:14-18 | one comparison of the bubble sort |
| DepGen.Pass | A1/gendep.c:12-20 | a pass brings the greatest element to its place |
| DepGen.BSort | A1/gendep.c:7-21 | sorted, the same elements, the rest of the array untouched |
| DepGen.Shuffle | A1/gendep.c:32-39 | a permutation of 1 to n, whatever rand() gives |
| DepGen.Invert | A1/gendep.c:40-41 | R inverts P |
| DepGen.EveryNumber | A1/gendep.c:40-41 | on both sides |
| DepGen.RandomEdges | A1/gendep.c:43-52 | edges go upwards only |
| DepGen.CollectedDistinct | A1/gendep.c:59-62 | no dependency is listed twice |
| DepGen.CollectedAll | A1/gendep.c:59-62 | every position with an edge from this one has its foodule listed |
| DepGen.RowHasEdges | A1/gendep.c:58-63 | sorted or not, a row lists just the foodules to which there is an edge |
| DepGen.Collect | A1/gendep.c:59-62 | the dependencies of a position |
| DepGen.Row | A1/gendep.c:58-63 | sorted |
| DepGen.MakeLine | A1/gendep.c:57-67 | a line names the foodule and lists, sorted and once each, exactly the foodules to which there is an edge; all are of higher rank |
| DepGen.GenDep | A1/gendep.c:23-79 | the file has a line for each foodule, which lists v exactly if an edge was drawn from the place of the foodule to that of v in the permutation; sorted lists without repeats, and no cycles |

## Left out

- Files, parsing, printing, `VERBOSE` branches, sleeping, `fork`, `exec` and shared-memory calls: arguments, results, steps or calls in the models.
- Percentages and averages in floating point.
- Integer widths. Page-table entries and histories, 16 bits wide in the programs, are natural numbers in the tables of the models, tested and changed by arithmetic; `PageEntry` and `History` prove on 16-bit words that the masks and shifts of the programs are that arithmetic.
- The initial `F->next` of the request list of `A8/LA8_Solution/resource.c:27-37`, which the program leaves unset, is null in the model.
- A request is copied into its list node as a value; freeing memory is not modelled.
- Condition variables wake only when signalled: the spurious wake-ups that POSIX.1-2017 permits for `pthread_cond_wait` would break the threads of A8 and A7.
- Handshake.InterleavingInv: which pending request is granted, and when, is left open there; with the decisions of the master it is `BankerProgram.NextOrderly`.
- Handshake.RequestHasOneOwner: speaks of reqfrom and reqtype; that the request vector REQ arrives as written is `BankerProgramRuns.MessageArrives`.
- BankerProgramRuns.EveryRunEnds: for at least one thread, since with none the master waits at REQB for ever (`BankerProgramLocks.MayStopIff`), and for the build with `_DLAVOID`; how runs of the other stop is `BankerProgramRuns.EveryRunStops`.
- BankerProgramLocks.MayStopIff: over scripts of any length, where `A8/geninput.c` writes five to ten lines for each thread.
- The wake-up of user threads in `A8/resource.c:476-482`, which enqueue before taking their mutex: signals can be lost there, and nothing is claimed of it.
- The list of threads left that `A8/resource.c:216-230` prints.
- `A9/LA9_Solution/demandpaging.c`, which gives back the page number in place of the frame at line 151; the model is `A9/demandpaging.c`. Its per-process frame count, which nothing reads, is not modelled.
- The records of processes in A9 and A10 are kept as one array for each field; the ready list of the LA10 program is a sequence; its counters are one record for each process.
- The LA10 program leaves the page table of a finished process as it is and does not look at it again; so does the model.
- LruTheorems.VictimAlwaysExists: for at most 491 processes; the exact condition is that of `LruRoom.VictimAlwaysExistsIff`.
- LruVariant.VTurnInv: the page tables of `A10/LRU.c` are on values here, in place only its free list.
- The arrays of bursts in A3 are of any length; reading them, with its limits of 100 and 10 bursts, is not modelled.
- SchedOrder.SimulatorsAgree: for jobs with no empty I/O burst, since the second program takes an empty one for the end of the process.
- The order in which the A5 followers' messages appear on the screen, which can differ from the order in which they pass the end on; followers that start before the leader has written its first three words, or join at the same moment.
- The freshness of values in A5 is tracked by a stamp beside each value that the program does not have.
- RendezvousRuns.TooEarlyIff: what a visitor does at a barrier that is not initialised POSIX leaves undefined; the runs of the LA7 program here go on as if that barrier worked (`A7/LA7_Solution/boating.c:61-62`, `A7/LA7_Solution/boating.c:126`), so `RendezvousRuns.StandstillIff` and `RendezvousRuns.RunsEnd` assume it.
- The threads' cancellation in A7 after the end of the session; destroying and re-initialising barriers, apart from the first initialisation.
- Rebuild.Workspace.Rebuild: where nothing the foodule needs is on a cycle; else the programs start processes without end, which `RebuildEnds.EndsIff` says of the recursion. One method stands for both programs, which differ only in how they read the file; a parameter tells them apart.
- Rebuild.ReadDeps: lines are of any length here. `A1/rebuild.c:62-70` reads them through 256 bytes and `A1/solution/code.c:10` through 1024, so that a longer line is cut, its last dependencies are lost, and what follows is taken for a line of its own.
- Rebuild.GenerateAndRebuild: for every n, so for files whose lines fit those buffers.
- A2 (signals), A4 (puzzle blocks), A6 (cooks and waiters: each waiter has a single slot, which two cooks can overwrite), A11 (directory walk), the second version of A5, and the sample programs: input and output demonstrations, finite boards or weaker duplicates.
