# The dispatch engine of the market data proxy

The proxy receives datagrams on some sockets and relays each one to a list of senders. This project models, in Dafny,
how a configuration becomes a routing graph of sockets, how edge-triggered readiness turns into work, how the
dispatcher and its worker threads share that work, how a worker drains a receiver and fans its data out, and how bytes
are counted. It proves what every schedule of the threads, every run of the pool and every configuration keeps; and
where the code does not keep what it is for, it proves exactly when it does.

## How the model is laid out

**Threads, one atomic step at a time.** `WorkerThreads` has a program counter for the dispatcher (in `ProcessData` and
the `Resume` it calls) and one for each worker (in `Run`, `Pause` and `OnWorkComplete`). A step is one read or write of
shared memory, one critical section of the dispatcher's lock or of the queue's, or one operation on a worker's mutex
and condition variable; waiting releases the mutex and blocks in one step, as IEEE Std 1003.1 asks of
`pthread_cond_wait`. Spurious wakeups are steps like any other. `RunThread` is the code of a worker
(MddProxyGit/Worker.cxx:39-63, MddProxyGit/Worker.cxx:87-108, MddProxyGit/WorkDispatcher.hxx:64-77), `HandOff` and
`AssignStep` that of the dispatcher (MddProxyGit/Worker.cxx:65-78, MddProxyGit/WorkDispatcher.cxx:70-131). A run is any
sequence of enabled steps, so that a statement about reachable states is a statement about all interleavings.
The front of an empty queue is undefined in C++: a step that takes it sets `undefined`, and ends the run.

- `Handshake`: the invariant, and what follows from it: one owner, no lost wakeup, work conserved, progress.
- `CompletionRaces`, `RaceWitnesses`: `OnWorkComplete` tests `Count` and then pops or parks without one lock over
  both. Exactly when that can pop an empty queue, exactly when it can leave work with all workers free, and runs from a
  new dispatcher that do each.
- `Shutdown`: exactly when `WakeUpAllThreads` makes every thread exit under every schedule, wherever the dispatcher
  stands, without and with spurious wakeups, and with events that go on coming.
- `DoubleStart`, `DoubleListing`, `GrowthLimit`: a grown worker's thread is created twice. `WorkerThreads` has the one
  thread that is intended; `DoubleStart` is the program as written, with the second threads; `DoubleListing` follows
  them to a worker that is listed free twice and an event that is lost; `GrowthLimit` says exactly when such harm can
  come: while there are fewer than MAX_WORKER_THREADS workers. With that many before the first growth, the program runs
  as `WorkerThreads` does.

**The pool, one event at a time.** `Pool` treats the dispatch of one event and one completion as single steps.
`SerialRuns` proves that each of its runs is a schedule of the threads in which nobody races. `Refinement` proves the
converse, with the exact condition: a step of the threads does what a step of the pool does, or nothing to the pool, if
and only if it does not act on a test that no longer holds; so that every interleaving of such steps is a run of the
pool, and has its order of service. `WorkDispatcher` has the program's classes, whose methods change the pool as `Pool`
says.

**Data.** `Sockets` has the receiver and sender sockets and the loop of `ReceiveData`; `FanOut` says what it achieves;
`SharedBuffer` has several workers draining one receiver, whose buffer they share; `StatsCollector` has the counters.
`Engine` puts kernel queues, ready marks, batches, the pool and the drains together.

**Configuration.** `FeedConfig` reads a parsed document; `MddProxy` opens and registers its sockets and runs the loop.

Assumptions, all visible in the model: workers are added only while nothing is pending (the program runs its command
loop to the end before it dispatches, MddProxyGit/MddProxyMain.cxx:117-119); a read that fails means that nothing is
queued; open descriptors differ from each other; epoll returns registered descriptors, each once in a batch. Memory is
sequentially consistent: `Run` reads a worker's state and socket, `OnWorkComplete` and `FinishAndDie` write them, and
`Count` reads the size of the queue, without a lock (MddProxyGit/Worker.cxx:82-106,
MddProxyGit/WorkDispatcher.hxx:69-74, MddProxyGit/PendingWorkQueue.hxx:96-100), which C++ leaves undefined.

## Model

| member | source | states |
|---|---|---|
| Handshake.OneOwner | MddProxyGit/WorkDispatcher.cxx:103-131 | in every reachable state a worker is in exactly one of: the free list, the dispatcher's hands, service, parking; the free list has no duplicates; and OnWorkComplete's write of SLEEP_WAIT never undoes a Resume |
| Handshake.NoLostWakeup | MddProxyGit/Worker.cxx:39-78 | in every interleaving, spurious wakeups included, a worker that sleeps with state RESUME has its signal still to come |
| Handshake.ServesWhatItIsGiven | MddProxyGit/Worker.cxx:87-97 | a worker calls ReceiveData on the sockets it was given, in that order, once each, the last at most outstanding; it never reads a stale slot |
| Handshake.NoWorkLost | MddProxyGit/WorkDispatcher.cxx:70-101 | every dispatched socket is with one worker, in the queue or in the dispatcher's hand, in every interleaving, and the queue is first in, first out |
| Handshake.OnlyEmptyPopIsUndefined | MddProxyGit/PendingWorkQueue.hxx:88-94 | the one undefined step of the protocol is a pop of the empty queue; an uninitialised socket is never used |
| Handshake.ResumedWorkerNotStuck | MddProxyGit/Worker.cxx:65-78 | while a resumed worker has not yet called ReceiveData, its thread or the Resume running on it can take a step |
| Handshake.ResumedWorkerServes | MddProxyGit/Worker.cxx:39-97 | under every schedule, a resumed worker has called ReceiveData once eight steps were taken by it or by that Resume |
| CompletionRaces.PopsSafeExactlyWhen | MddProxyGit/WorkDispatcher.hxx:64-77 | completions in any order never pop the empty queue, if and only if nobody is past a successful Count while the queue is empty, and at most one worker can still look at a queue that is not |
| CompletionRaces.StrandingExactlyWhen | MddProxyGit/WorkDispatcher.hxx:67-76 | completions can end with work queued and every worker free, if and only if work is queued and every worker in service is already past the test that found nothing |
| RaceWitnesses.EmptyPopIsReachable | MddProxyGit/WorkDispatcher.hxx:67-70 | a run from a new dispatcher in which two completions race and one pops the empty queue |
| RaceWitnesses.StrandedWorkIsReachable | MddProxyGit/WorkDispatcher.hxx:72-76 | a run from a new dispatcher that ends with a socket queued and every worker free, because a push slipped in before the workers parked |
| Shutdown.ParkedPoolExits | MddProxyGit/WorkDispatcher.cxx:60-68 | from a parked pool, with a dispatcher that takes no worker, no schedule takes more than ten steps a worker and three of the dispatcher, and one that cannot go on has brought every thread to its exit; parked is asleep or about to be listed free, and with spurious wakeups about to be listed free |
| Shutdown.ShutdownWorksExactlyWhen | MddProxyGit/Worker.cxx:80-108 | wherever the dispatcher stands, WakeUpAllThreads leaves nobody asleep under any schedule, if and only if no event takes a worker, the one at hand or a later one, and every worker is asleep on its condition variable, or about to be listed free, when it starts; or, with spurious wakeups allowed, every worker is about to be listed free |
| Shutdown.CanFailFrom | MddProxyGit/Worker.cxx:80-85 | for any other worker there is a schedule that overwrites TERMINATE or misses the signal, as neither is sent under the mutex |
| Shutdown.WakeupCanFail | MddProxyGit/Worker.cxx:44-48 | a sleeping worker that wakes by itself before it is told can miss the word as well |
| Shutdown.HeldCanFail | MddProxyGit/Worker.cxx:65-78 | a worker taken for the event at hand, whose RESUME is still to be written, can be left asleep, whatever the state of the pool |
| Shutdown.PresentEventCanFail | MddProxyGit/WorkDispatcher.cxx:79-95 | so can one that the event at hand will take or create |
| Shutdown.EventCanFail | MddProxyGit/WorkDispatcher.cxx:78-95 | an event dispatched after the shutdown overwrites TERMINATE with RESUME, from every parked pool, and leaves a worker asleep |
| Shutdown.LeftAsleepForEver | MddProxyGit/WorkDispatcher.cxx:133-140 | a worker left asleep stays so, and the join of its thread does not return, unless it wakes by itself or is dispatched to |
| RaceWitnesses.EarlyShutdownCanFail | MddProxyGit/WorkDispatcher.cxx:60-68 | a new pool that is shut down at once has a schedule that leaves a worker asleep |
| RaceWitnesses.ParkedPoolIsReachable | MddProxyGit/Worker.cxx:39-63 | a run from a new dispatcher that ends with every worker asleep, from where a shutdown works |
| DoubleStart.ServesTwiceExactlyWhen | MddProxyGit/Worker.cxx:87-97 | before the next event, the two threads of a worker have a schedule that serves its last socket twice, if and only if the second finds the worker in service |
| DoubleStart.GrowthServesTwice | MddProxyGit/WorkDispatcher.cxx:85-95 | with events to come, a growth that ends before any second thread has moved has a continuation in which its worker serves a socket twice, whether or not it is still in service when the growth ends |
| DoubleStart.OneThreadServesOnce | MddProxyGit/Worker.hxx:50-58 | in every run of the program as written, as long as no worker has a second thread nothing is served twice |
| DoubleStart.FirstGrowthServesTwice | MddProxyGit/WorkDispatcher.cxx:47-58 | from the end of its first growth on, the program can serve a socket twice |
| DoubleStart.DoubleServiceIsReachable | MddProxyGit/WorkDispatcher.cxx:47-58 | a run from a new dispatcher that serves a socket twice, its sixth event having grown the pool |
| GrowthLimit.ServedTwiceExactlyWhen | MddProxyGit/WorkDispatcher.cxx:85-95 | between events, as long as no worker has a second thread, the program as written has a continuation that serves a socket twice, if and only if there are fewer than MAX_WORKER_THREADS workers |
| GrowthLimit.ListedTwiceExactlyWhen | MddProxyGit/WorkDispatcher.cxx:125-131 | it has one that lists a worker free twice, under the same condition |
| GrowthLimit.EventLostExactlyWhen | MddProxyGit/WorkDispatcher.cxx:79-83 | it has one that loses an event, written over in its slot before anybody has called ReceiveData on it, under the same condition |
| GrowthLimit.AtLimitIsSingle | MddProxyGit/WorkDispatcher.cxx:85-85 | with as many workers or more, every run from there is one of WorkerThreads, so that all that holds of reachable states there holds of the program as written |
| GrowthLimit.WorkersAddedFirst | MddProxyGit/WorkDispatcher.cxx:36-45 | workers added before the first event bring the program there, five of them being enough |
| GrowthLimit.HarmIsReachable | MddProxyGit/WorkDispatcher.cxx:18-27 | a new dispatcher, with five workers, has runs that list one twice and that lose an event |
| DoubleListing.LostStaysLost | MddProxyGit/Worker.cxx:95 | ReceiveData is never called on a socket lost so, in any run, until another event for it |
| SerialRuns.SerialDispatch | MddProxyGit/WorkDispatcher.cxx:70-101 | the dispatcher's steps on one event, nobody else moving, are the pool's dispatch |
| SerialRuns.SerialComplete | MddProxyGit/WorkDispatcher.hxx:64-77 | the steps of OnWorkComplete, nobody else moving, are the pool's completion |
| SerialRuns.PoolRunsAreThreadRuns | MddProxyGit/WorkDispatcher.cxx:70-131 | every run of the pool is a run of the threads that ends in a state standing for the same pool |
| Refinement.PoolRunsAreReached | MddProxyGit/WorkDispatcher.cxx:70-131 | and it stands for that pool in the sense of the refinement too |
| Refinement.ActsAsPoolExactlyWhen | MddProxyGit/WorkDispatcher.hxx:64-77 | a run of the threads goes through operations of the pool, each step being one or nothing to the pool, if and only if nobody in it acts on a test of the free list or of the queue that no longer holds |
| Refinement.TimelyRunsArePoolRuns | MddProxyGit/WorkDispatcher.cxx:70-131 | every interleaving in which nobody acts on such a test is, step by step, a run of the pool, and pops no empty queue |
| Refinement.TimelyRunsKeepOrder | MddProxyGit/WorkDispatcher.cxx:78-99 | in all these interleavings the events are handed to workers in order of arrival, but for those that wait; and while one waits no worker is free, and at least MAX_WORKER_THREADS are at work |
| Pool.PoolRefinesQueue | MddProxyGit/WorkDispatcher.cxx:78-99 | over every run the three-way assignment and its two lists are one queue with room for MAX_WORKER_THREADS in service, or for all workers if there are more: what starts when depends on counts alone, not on who is free or completes |
| Pool.FirstInFirstOut | MddProxyGit/WorkDispatcher.cxx:70-101 | in every run the sockets started, followed by those pending, are the events that arrived, in order |
| Pool.NobodyIdles | MddProxyGit/WorkDispatcher.cxx:79-99 | whenever work is pending nobody is free, and at least MAX_WORKER_THREADS workers are all in service |
| Pool.PoolBookkeeping | MddProxyGit/WorkDispatcher.cxx:36-58 | every worker is free or in service, not both; those in service are on the busy list; the count exceeds MAX_WORKER_THREADS only by workers added |
| Pool.DrainsInExactly | MddProxyGit/WorkDispatcher.hxx:64-77 | completions in any order empty the pool in exactly as many steps as there are items pending and in service |
| Pool.AddSafeExactlyWhen | MddProxyGit/WorkDispatcher.cxx:36-45 | adding workers keeps order and conservation if and only if nothing is pending |
| Pool.OvertakesExactlyWhen | MddProxyGit/WorkDispatcher.cxx:103-116 | a dispatch keeps the order of arrival if and only if no worker is free, or all that waits is the dispatched item |
| WorkDispatcher.PendingWorkQueue.Push | MddProxyGit/PendingWorkQueue.hxx:55-66 | an item goes to the back, and the new size is returned |
| WorkDispatcher.PendingWorkQueue.PushFront | MddProxyGit/PendingWorkQueue.hxx:68-79 | an item goes to the front, and the new size is returned |
| WorkDispatcher.PendingWorkQueue.Pop | MddProxyGit/PendingWorkQueue.hxx:81-94 | the front is taken off and returned; it must exist |
| WorkDispatcher.WorkDispatcher.AddWorkers | MddProxyGit/WorkDispatcher.cxx:36-45 | so many workers, in state SLEEP_WAIT and never signalled, in the next slots, go to the back of the free list |
| WorkDispatcher.WorkDispatcher.GetFreeWorker | MddProxyGit/WorkDispatcher.cxx:103-116 | the front of the free list moves to the back of the busy list, or nothing changes and null is returned |
| WorkDispatcher.WorkDispatcher.DispatchEvent | MddProxyGit/WorkDispatcher.cxx:78-99 | one event changes the pool by Pool.DispatchOne; the worker at the front of the free list gets the socket, RESUME and one signal, a worker that is created RESUME and its first signal, and every other worker is untouched, all of them when the item is queued |
| WorkDispatcher.WorkDispatcher.ProcessData | MddProxyGit/WorkDispatcher.cxx:70-101 | a batch is dispatched in order, whole if and only if all its descriptors are in the table, and otherwise up to the first that is not; as many workers from the front of the free list as there are events for them are signalled, once each, and of the others only those created for the batch |
| WorkDispatcher.WorkDispatcher.OnWorkComplete | MddProxyGit/WorkDispatcher.hxx:64-77 | a completion changes the pool by Pool.CompleteOne; the worker goes to SLEEP_WAIT if nothing is pending, and otherwise stays in RESUME with the front item; it is not signalled |
| WorkDispatcher.WorkDispatcher.WakeUpAllThreads | MddProxyGit/WorkDispatcher.cxx:60-68 | every worker's state becomes TERMINATE, and its condition variable is signalled once |
| WorkDispatcher.WorkDispatcher.JoinThreads | MddProxyGit/WorkDispatcher.cxx:133-140 | each worker is joined once, in slot order |
| Sockets.SenderSocket.SendData | MddProxyGit/SenderSocket.cxx:32-38 | the bytes are appended to the log and their number is reported, or an exception leaves log and counter alone |
| Sockets.ReceiverSocket.FanOut | MddProxyGit/ReceiverSocket.cxx:66-70 | a datagram goes to every sender in list order, up to the first that throws |
| Sockets.ReceiverSocket.ReceiveData | MddProxyGit/ReceiverSocket.cxx:51-74 | it returns if and only if every sendto it needs succeeds, and then queue, logs and counters are those of a finished drain; otherwise those of one cut short at a known datagram and sender |
| FanOut.RelaysInOrder | MddProxyGit/ReceiverSocket.cxx:56-73 | a drain relays the datagrams in front of the first one of length zero, in order, of each one the first bytes, as many as it has but at most MAX_PACKET_SIZE, and leaves those behind it |
| FanOut.ReadsInOrder | MddProxyGit/ReceiverSocket.cxx:58-73 | the results of its reads: the length of each datagram relayed, then 0 for one of length zero, or -1 as a size_t |
| FanOut.DrainEmptiesExactlyWhen | MddProxyGit/ReceiverSocket.cxx:66-73 | a drain empties the queue, as edge-triggered readiness needs, if and only if no datagram but the last has length zero |
| FanOut.RelaysVerbatimExactlyWhen | MddProxyGit/ReceiverSocket.cxx:58-69 | everything is relayed unchanged if and only if every datagram has between 1 and MAX_PACKET_SIZE bytes |
| FanOut.DrainInTurn | MddProxyGit/ReceiverSocket.cxx:66-70 | over consecutive calls of ReceiveData, data arriving between them, all senders have the same log, what was relayed, in order; and if a send fails, no two are more than one datagram apart |
| FanOut.SendersDifferByOne | MddProxyGit/ReceiverSocket.cxx:67-70 | in the middle of a fan-out two logs differ by one datagram at most, and senders earlier in the list are ahead |
| FanOut.CutShortDiffersByOne | MddProxyGit/SenderSocket.cxx:34-35 | the same after a drain that a failing send has cut short, with each log given exactly |
| FanOut.ReceiverBalancesSenders | MddProxyGit/ReceiverSocket.cxx:55-73 | over any reads, sends and collections, in the middle of a drain too, a receiver's lifetime count plus its failed reads is each sender's lifetime count, plus what it has still to send, modulo 2^32 |
| FanOut.DrainPosts | MddProxyGit/StatsCollector.cxx:38-41 | the reports of a drain, one by one, are what ReceiveData does to the counters |
| FanOut.FinishedPosts | MddProxyGit/ReceiverSocket.cxx:51-74 | after a call of ReceiveData that returns, the counters of the receiver and of each sender are what these reports make of those before it |
| FanOut.ReceiveDataBalances | MddProxyGit/ReceiverSocket.cxx:51-74 | so whatever was read, sent and collected before, the receiver's lifetime count plus its failed reads is each sender's lifetime count modulo 2^32 after the call |
| SharedBuffer.NothingGarbledExactlyWhen | MddProxyGit/ReceiverSocket.cxx:58-69 | in every interleaving of drains that share a buffer, and of arrivals, it holds what each worker is sending, if and only if no datagram is read that differs, within the shorter length, from one that another worker is still sending |
| SharedBuffer.OverlappingDrainsConserve | MddProxyGit/ReceiverSocket.cxx:66-70 | in all these interleavings every sender sends each datagram read once, but for those that workers still owe it |
| SharedBuffer.SoleDrainRelaysInOrder | MddProxyGit/ReceiverSocket.cxx:66-73 | one worker alone, when its drain has ended, has relayed to every sender, and left queued, what a call of ReceiveData does, an empty datagram ending it |
| SharedBuffer.DatagramLost | MddProxyGit/ReceiverSocket.cxx:26-26 | otherwise a datagram can be lost and another sent in its place |
| StatsCollector.StatsCollector.ReportBytes | MddProxyGit/StatsCollector.cxx:38-41 | the bytes are added to the interval modulo 2^32, and to nothing else |
| StatsCollector.StatsCollector.GetStatsInPrevPeriod | MddProxyGit/StatsCollector.cxx:43-57 | the interval is moved into the total; its bytes are returned, and their rate, which times the seconds is at most the bytes and short of them by less than the seconds, when the clock has gone forward; it fails if and only if no whole second has passed |
| StatsCollector.CountersConserveBytes | MddProxyGit/StatsCollector.cxx:38-57 | after any calls, total and interval add up to all reported bytes modulo 2^32 |
| StatsCollector.CountersExactWhen | MddProxyGit/StatsCollector.hxx:41-43 | they add up exactly if and only if no interval reaches 2^32 and no total 2^64; otherwise to less |
| StatsCollector.FailedReadIsNeverExact | MddProxyGit/ReceiverSocket.cxx:58-65 | a receiver's counters are not exact from its first failed read on, whose -1 is reported as 2^64 - 1 |
| Engine.NoDataStranded | MddProxyGit/Epoller.cxx:28-52 | in every run without empty datagrams, a receiver with data queued is marked ready, in the rest of the batch, pending, or with a worker that has not seen an empty read; and what was read, followed by what is queued, is what arrived |
| Engine.ReadStrandsExactlyWhen | MddProxyGit/ReceiverSocket.cxx:56-73 | a read strands data if and only if it takes an empty datagram off a queue that holds more, with nobody else to look at it |
| Engine.NeverStrandedExactlyWhen | MddProxyGit/ReceiverSocket.cxx:56-73 | over every run, empty datagrams or not, data is stranded at no time if and only if the run has no such read: no other step strands any |
| Engine.StrandingIsReachable | MddProxyGit/ReceiverSocket.cxx:71-73 | a run of a new proxy that strands data |
| Engine.EventuallyQuiescent | MddProxyGit/ReceiverSocket.cxx:51-74 | after any run, empty datagrams or not, once arrivals stop every schedule ends, within a bound known at its start; it has ended exactly when nothing is marked, delivered, pending or in service and every worker is free; then all data has been read if and only if none was stranded, as none is without empty datagrams |
| Engine.InternalStepWorks | MddProxyGit/WorkDispatcher.cxx:70-101 | every delivery, dispatch, read and completion lowers that bound |
| Engine.DrainIsReads | MddProxyGit/ReceiverSocket.cxx:56-73 | the reads of one worker, one for each relayed datagram and one more, leave the queue as ReceiveData does |
| Engine.DispatchOverlapsExactlyWhen | MddProxyGit/WorkDispatcher.cxx:78-95 | a dispatch puts a second worker on a receiver, whose buffer they share, if and only if one is on it and another is to be had |
| Engine.CompletionOverlapsExactlyWhen | MddProxyGit/WorkDispatcher.hxx:67-71 | a completion does so if and only if another worker serves the receiver at the front of the queue |
| Engine.OverlapIsReachable | MddProxyGit/WorkDispatcher.cxx:78-84 | a run of a new proxy that puts two workers on one receiver |
| FeedConfig.FirstDeclarationCounts | MddProxyGit/MarketDataFeedConfigReader.cxx:81-86 | of the nodes that declare an id, receivers or senders, the first is the one that counts |
| FeedConfig.UndeclaredIsNone | MddProxyGit/MarketDataFeedConfigReader.cxx:152-158 | an id stands for nothing if and only if no node declares it |
| FeedConfig.FeedOfMap | MddProxyGit/MarketDataFeedConfigReader.cxx:135-142 | there are as many feeds as Map nodes, and each Map's feed, with its interfaces, stands behind those of the Maps before it |
| FeedConfig.RouteOfReceiver | MddProxyGit/MarketDataFeedConfigReader.cxx:145-158 | a feed has as many routes as MappedReceiver nodes, each in its place and with what its id stands for |
| FeedConfig.OutputOfSender | MddProxyGit/MarketDataFeedConfigReader.cxx:161-173 | a route has as many outputs as MappedSender nodes that name a declared sender, each in its place; the others leave no gap |
| FeedConfig.RoutedReceiver | MddProxyGit/MarketDataFeedConfigReader.cxx:145-158 | from the document to the routing graph: at the place of a MappedReceiver stands the first Receiver with its id, attribute by attribute |
| FeedConfig.RoutedSender | MddProxyGit/MarketDataFeedConfigReader.cxx:161-173 | and at the place of a MappedSender, among those that name a declared sender, the first Sender with its id, attribute by attribute |
| FeedConfig.MddFeedConfig.LoadReceivers | MddProxyGit/MarketDataFeedConfigReader.cxx:55-94 | the ids of the table are those that some Receiver declares; under each stands the first that does, with address from ip, feedName from name, its port, Unicast if and only if its type says so, and UDP if and only if its protocol does; it throws if and only if a Receiver is malformed |
| FeedConfig.MddFeedConfig.LoadSenders | MddProxyGit/MarketDataFeedConfigReader.cxx:95-132 | the same for senders, with isLoopBack if and only if that attribute is there and true |
| FeedConfig.MddFeedConfig.LoadMappedSenders | MddProxyGit/MarketDataFeedConfigReader.cxx:161-173 | the outputs that OutputOfSender describes; it throws if and only if a MappedSender is malformed |
| FeedConfig.MddFeedConfig.LoadMappedFeeds | MddProxyGit/MarketDataFeedConfigReader.cxx:133-181 | the feeds that FeedOfMap and RouteOfReceiver describe; it throws if and only if the mapping is malformed |
| FeedConfig.MddFeedConfig.Load | MddProxyGit/MarketDataFeedConfigReader.cxx:33-52 | the feeds are the routing graph that the document declares; it throws if and only if the format is not XML or the document is malformed |
| MddProxy.Epoller.RegisterSocket | MddProxyGit/Epoller.cxx:28-41 | the descriptor is registered and counted, or refused if it is already, or epoll is closed |
| MddProxy.Epoller.WaitForData | MddProxyGit/Epoller.cxx:43-52 | a batch of registered descriptors is dispatched whole and in order, with the signals that ProcessData sends, and the receiver-not-found exception cannot occur |
| MddProxy.MddProxy.OpenSenders | MddProxyGit/MddProxy.cxx:136-150 | one socket for each output, in order, each with its own counter |
| MddProxy.MddProxy.AddRoute | MddProxyGit/MddProxy.cxx:152-172 | the receiver of a route is opened with the route's senders, entered under its descriptor and registered, sharing nothing with the others |
| MddProxy.MddProxy.AddReceiversFromConfig | MddProxyGit/MddProxy.cxx:129-175 | it succeeds if and only if every route can be opened; then as many descriptors are registered as there are MappedReceivers, and the receiver at the place of each has the input interface of its Map (any for 0.0.0.0) and the declared address, port and protocol, and its senders, in document order, the output interface and the address, port and protocol of the outputs |
| MddProxy.AllOpenExactlyWhen | MddProxyGit/MddProxy.cxx:136-166 | every route can be opened if and only if each MappedReceiver has a declared receiver, an input interface that is an address, and, if it has outputs, an output interface that is one, and the system opens one socket for each MappedReceiver and each of its outputs |
| MddProxy.RouteAt | MddProxyGit/MddProxy.cxx:131-134 | the routes are those of the feeds one after the other: the place of each MappedReceiver, with its own Map's two interfaces |
| MddProxy.MddProxy.Start | MddProxyGit/MddProxy.cxx:23-35 | construction succeeds if and only if the document is in XML and well formed and its routes open, and yields its routing and a new pool |
| MddProxy.MddProxy.WaitForExit | MddProxyGit/MddProxy.hxx:61-69 | it waits until the proxy is stopped, or once in vain if it was stopped before; whatever completes meanwhile, every event of every wait is dispatched, in order, without an exception, and all sockets dispatched are started in order, but for those pending at the end; then each worker is joined once |

## Left out

- The worker's Run, Pause and Resume as methods on heap objects: threads interleave, so they are steps on values; the classes of `WorkDispatcher` have the same operations without interleaving.
- SLEEP_TIME and timed waits: no code sets that state, and the invariant shows that it never occurs.
- Locks inside single steps: GetFreeWorker, ReturnFreeWorker, RecordNewBusyWorker, Push and Pop are atomic because each is one critical section; AddWorkers writes the free list without the lock, before dispatching starts.
- The two counters as shared variables: ReportBytes and GetStatsInPrevPeriod run on different threads without a lock, and are atomic here.
- FanOut.DrainInTurn: the drains follow one another; when drains of a receiver overlap, which `Engine` says exactly, nothing is claimed of the order in which senders send; `SharedBuffer` says what they send.
- SharedBuffer.OverlappingDrainsConserve: a read fills the buffer, and a send takes from it, in one step each.
- WorkDispatcher.WorkDispatcher.JoinThreads: waiting for a thread's exit is in `Shutdown`; deleting the worker is not modelled.
- DoubleStart.GrowthServesTwice: the second Create also overwrites the handle of the first thread, which is never joined; handles are not part of the model.
- Shutdown.ShutdownWorksExactlyWhen: a critical section is one step, so that a signal handler that interrupts the dispatcher inside GetFreeWorker or RecordNewBusyWorker, and then waits for ever for the lock its own thread holds, is not shown.
- A send that fails: the exception ends the program, so that `Engine` has runs in which sends succeed.
- StatsCollector Start and Stop, the StatsWriter thread and the clock: the time is an argument of GetStatsInPrevPeriod; nobody calls Start and Stop.
- Opening sockets: interface lookup, options, bind and multicast membership are an answer of the environment, a descriptor or a failure; the addresses of descriptors stay text.
- The document's text: XML parsing is replaced by a tree whose attributes have been read or have not; dereferencing the address of an undeclared receiver is undefined and is a failure here.
- The event buffer of epoll: it is allocated with size 0 and never grown; here a wait returns a sequence of descriptors.
- MddProxy.MddProxy.WaitForExit: closing the epoll handle may end a wait early; here Stop takes effect after the wait in progress, and completions come between waits.
- The command line interface, buffer sizes, logging, destructors and signals.
