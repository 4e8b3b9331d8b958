# A verified model of the concurrent programs

This project models five parts of a systems course repository in Dafny and proves what
they promise, for all inputs, all schedules and all runs.

* **The Michael and Scott queue** (`MsQueue*.dfy`).  Any number of threads run enqueue and
  dequeue, one atomic load or compare-and-swap per step, on tagged pointers, with helping.
  The weak compare-and-swap at the link may fail for no reason (section 7.17.7.4 of ISO/IEC
  9899:2011).  Proved: linearizability, what the tags mean, a bound on retries, and that a
  thread left alone finishes.
* **RCU and its table** (`Rcu.dfy`, `RcuObject.dfy`).  Readers with odd and even counters in
  slots that are registered, given back and registered again; updaters that publish, scan,
  wait and free.  Proved: the grace period, the table over whole runs, and that readers that
  re-enter cannot stall an updater.
* **The store-buffer machines and their model checker** (`Handshake.dfy`, `Explorer.dfy`,
  `WeakRcu.dfy`).  The load, store and commit rules for the sequential, x86-TSO and arm64
  models.  Proved: exactly which memory orderings are safe, that the recursive explorer is
  sound and complete, and that the whole protocol with N readers and any number of updates
  on those machines simulates onto the sequential one.
* **The audit** (`Sweep.dfy`, `Summary.dfy`).  The event sweep equals the definition over all
  instants; medians and the summary mean what they say.
* **The thread pool** (`TaskQueue.dfy`, `Pool*.dfy`, `Pacing.dfy`).  A ring buffer under a
  monitor with condition variables and spurious wakeups, a gate, workers and a dispatcher.
  Proved: no lost wakeup, no deadlock, termination, every task handled exactly once, and that
  a finished run gives the audit what it needs.

## How it is built

Each concurrent part is a step machine: a state, an `Enabled` predicate and a `Step`
function, where one step is one atomic access or one critical section of the program.  The
theorems are about all runs of the machine.  Beside each machine stands the program's own
form: a class whose fields and arrays are overwritten in place by methods that follow the
program's branches and loops, each proved to do exactly the step of the machine.

| file | the program's functions |
|---|---|
| `MsQueue.dfy` | `EnqueueStep`, `DequeueStep`, `Create` follow msq_enqueue, msq_dequeue, msq_create and node_new, access by access |
| `Handshake.dfy` | `ReadVar`, `LoadEnabled`, `StoreEnabled`, `DoStore`, `FlushEnabled` and the cases of explore as `ReaderMove`, `WriterMove`, `CommitMove` |
| `Explorer.dfy` | step_store and explore with the counters n_exec, n_uaf and n_stuck, and the loop of main over the models |
| `Rcu.dfy` | rcu_register, rcu_unregister, rcu_read_lock, rcu_read_unlock, rcu_dereference, rcu_assign_pointer, synchronize_rcu, rt_init, rt_lookup and rt_update as steps |
| `WeakRcu.dfy` | the same protocol with every store and load going through the rules of `Handshake.dfy` |
| `Sweep.dfy`, `Summary.dfy` | invariant_scan; median_of, spread_of, classify_latency, episode_window_us, summarize_run |
| `TaskQueue.dfy` | tq_init, tq_push, tq_pop, tq_close |
| `Pool.dfy` | select_pathology, wl_pool_workers, dispatch_one, worker_main, and wl_run around them; `PoolLife.dfy` tells what happened to one task in a run of it |
| `Pacing.dfy` | the dispatch loop of wl_run, dispatch_gap_us and pace_workers |

Three findings deserve a reader's attention.

* A producer can sleep after tq_close: tq_push does not look at `closed`, so a producer
  woken by close goes back to sleep if the ring is still full (`ProducerSleepsAfterClose`).
  It happens exactly when somebody pushes to a full closed queue (`SleepsAfterClose`);
  wl_run never does, since its only producer is the one that closes
  (`NobodySleepsOnClosed`).
* Recycling a reader slot can make synchronize_rcu wait for a section that its scan never saw
  (`RecyclingCanLengthenTheWait`).  It waits for the section it saw exactly as long as nobody
  has registered in that slot since the scan (`WaitsForTheScannedSection`), and in no case is
  it let through early (`GracePeriod`).
* The comment at workload.c:213-215 puts the gaps at 136 to 270 us.  That is right exactly for
  the shared-queue pathologies, and for the uneven partition when the largest size makes up
  at least 136/250 of the sum (`CommentedRange`); equal sizes give 62.5 us, the configured
  ones stay inside (`CommentFailsForEqualSizes`).

## Model

| member | source | states |
|---|---|---|
| Linearizability.QueueIsLinearizable | week3/examples/03-lockfree-queue/src/msqueue.c:90-181 | For every schedule of any number of threads: the operations, each placed at its own effect (link CAS, head CAS, or the read of a null next that is later confirmed), replay legally on a sequential FIFO from empty and end in the current contents; per thread they are exactly the completed calls with their arguments and results, plus at most the one in flight; and at every cut of the history the order respects real time |
| Linearizability.LinearizationIsLegal | week3/examples/03-lockfree-queue/src/msqueue.c:90-181 | The chosen order of effects, replayed on a plain sequence, never takes from an empty queue and never returns a value other than the oldest |
| Linearizability.LinearizationAgreesFrom | week3/examples/03-lockfree-queue/src/msqueue.c:90-181 | Per thread, what is placed in the order equals what was called and returned, up to the operation in flight |
| Linearizability.LinearizationKeepsRealTime | week3/examples/03-lockfree-queue/src/msqueue.c:90-181 | Every effect lies between its own call and its own return |
| Linearizability.NothingLostOrReordered | week3/examples/03-lockfree-queue/src/msqueue.c:115-176 | The values linked so far are the values returned so far followed by what the queue holds, in that order |
| MsQueueFifo.StepRefines | week3/examples/03-lockfree-queue/src/msqueue.c:96-181 | Each atomic step of any thread is one step of the sequential FIFO or changes nothing in it |
| MsQueueFifo.RunRefinesFifo | week3/examples/03-lockfree-queue/src/msqueue.c:90-181 | Every run, step by step, is a run of the sequential FIFO specification with an atomic effect per operation |
| MsQueueInvariant.TagsArePositions | week3/examples/03-lockfree-queue/src/msqueue.c:115-176 | In every reachable state head.count and tail.count are the positions of the nodes they name among all nodes ever linked, head <= tail, the tail lags the last by at most one, no thread has followed null, and the nodes retired are exactly those before head, each once |
| MsQueueInvariant.NullNextMeansHeadIsTail | week3/examples/03-lockfree-queue/src/msqueue.c:146-170 | A dequeue that read a null next had equal head and tail, so the value it reads never lies behind null |
| MsQueueInvariant.TailLagsOnlyMidEnqueue | week3/examples/03-lockfree-queue/src/msqueue.c:115-120 | In every reachable state in which the tail lags, the thread that linked the last node is about to swing it; with nobody in the middle of an operation the tail is the last node |
| MsQueueInvariant.StepKeeps | week3/examples/03-lockfree-queue/src/msqueue.c:43-181 | Any step of any thread keeps the invariant that ties the shared cells, the link order and every local copy together |
| MsQueueProgress.RetriesAreBounded | week3/examples/03-lockfree-queue/src/msqueue.c:96-180 | In any finite run of T threads, retries <= T * (links + tail swings + head moves) + spurious link failures, and head moves <= tail swings <= links |
| MsQueueProgress.RetriesPaidFor | week3/examples/03-lockfree-queue/src/msqueue.c:96-180 | The same as a running account: retries made, plus threads that hold a stale view, are covered by the changes made so far |
| MsQueueProgress.TagsCountSwings | week3/examples/03-lockfree-queue/src/msqueue.c:115-176 | The tags count the swings: tail.count tail swings, head.count head moves, and at most one link not yet followed by its swing |
| MsQueueProgress.RetryIsAnotherRound | week3/examples/03-lockfree-queue/src/msqueue.c:96-180 | What is counted as a retry is exactly a return to the top of the loop, and as a spurious one exactly a failed link whose comparison would have succeeded |
| MsQueueProgress.LoneThreadFinishes | week3/examples/03-lockfree-queue/src/msqueue.c:96-180 | From every reachable state a thread that runs alone, with no spurious failure, returns within 14 steps, helping included |
| MsQueueObject.LockFreeQueue.constructor | week3/examples/03-lockfree-queue/src/msqueue.c:58-73 | msq_create: one dummy node named by head and tail, both tags 0 |
| MsQueueObject.LockFreeQueue.EnqueueTurn | week3/examples/03-lockfree-queue/src/msqueue.c:96-140 | One atomic step of enqueue done in place on the cells: load, load, recheck, weak CAS (which may fail for no reason), swing, help |
| MsQueueObject.LockFreeQueue.DequeueTurn | week3/examples/03-lockfree-queue/src/msqueue.c:145-180 | One atomic step of dequeue done in place on the cells: three loads, recheck, empty answer, help, value read, head CAS and retirement |
| MsQueueObject.LockFreeQueue.Turn | week3/examples/03-lockfree-queue/src/msqueue.c:90-181 | Any step of any thread, in place: keeps the invariant, is the step of the machine and refines a step of the FIFO |
| MsQueueObject.LockFreeQueue.Enqueue | week3/examples/03-lockfree-queue/src/msqueue.c:90-141 | With other threads taking any turns between its steps, and any spurious failures, as a finite script says: the retry loop ends; the turns played are a run of the machine; what took effect meanwhile replays as a sequential history from the contents before to those after; and in it this thread did exactly one enqueue of its value.  With an empty script the value is appended and nothing else changes |
| MsQueueObject.LockFreeQueue.Dequeue | week3/examples/03-lockfree-queue/src/msqueue.c:143-181 | The same for dequeue: in the sequential history of all that took effect meanwhile this thread took the oldest value once and returns it, or found the queue empty once and answers so |
| MsQueueObject.LockFreeQueue.Proceed | week3/examples/03-lockfree-queue/src/msqueue.c:96-180 | One round of either loop among other threads: theirs, then one own step, which keeps the operation under way or ends it with its return |
| MsQueueObject.Drive | week3/examples/03-lockfree-queue/src/msqueue.c:58-181 | Any schedule, executed on the cells, produces the state and trace of the machine, and its effects replay to what the cells then hold |
| Handshake.ExactOrderings | week4/examples/04-rcu-table/model/handshake.c:113-275 | For every model and every vector of orderings: some run uses the freed version if and only if the vector is not safe, where safe means nothing on the sequential machine, ANNOUNCE and PUBLISH seq_cst on TSO, and on arm64 DEREF and SCAN seq_cst with ANNOUNCE and PUBLISH not relaxed |
| Handshake.SafeEverywhere | week4/examples/04-rcu-table/model/handshake.c:332-352 | All three models are safe exactly when ANNOUNCE, DEREF, PUBLISH and SCAN are all seq_cst, whatever EXIT is |
| Handshake.SafeRun | week4/examples/04-rcu-table/model/handshake.c:123-162 | With safe orderings no run, from any state the invariant allows, uses the freed version |
| Handshake.ReaderOvertakes | week4/examples/04-rcu-table/model/handshake.c:123-149 | Whenever the announcement can be passed by the load of the pointer, there is a run that uses the freed version |
| Handshake.WriterOvertakes | week4/examples/04-rcu-table/model/handshake.c:123-149 | Whenever the publication can be passed by the scan, there is a run that uses the freed version |
| Handshake.OvertakesExactly | week4/examples/04-rcu-table/model/handshake.c:151-163 | Which buffered stores may commit: the oldest always, and any other exactly when the model is not TSO, it is a plain store and no store before it is to the same variable |
| Handshake.OwnerSeesNoCommit | week4/examples/04-rcu-table/model/handshake.c:113-121 | A commit never changes what its own thread reads: after any permitted commit each load gives what it gave before |
| Handshake.ArraysNeverOverflow | week4/examples/04-rcu-table/model/handshake.c:64-81 | On every run the store buffers and the trace stay strictly below MAXBUF and MAXTRACE |
| Handshake.NothingMovesOnlyAtEnd | week4/examples/04-rcu-table/model/handshake.c:267-274 | A state in which nothing is enabled has both threads at their end and both buffers empty |
| Explorer.ExplorerIsExact | week4/examples/04-rcu-table/model/handshake.c:179-275 | From the initial state: n_stuck ends 0, at least one execution is counted, and n_uaf > 0 if and only if some reachable state used the freed version, that is, if and only if the orderings are not safe |
| Explorer.EveryCallCounts | week4/examples/04-rcu-table/model/handshake.c:181-182 | Every call of explore adds at least one ended execution, and its children add one exactly when something is enabled, so the "moved" test is right |
| Explorer.NeverStuck | week4/examples/04-rcu-table/model/handshake.c:263-274 | From every state of the invariant the exploration counts no stuck execution, and once a use-after-free has happened it is counted in all executions that follow |
| Explorer.RunIsCounted | week4/examples/04-rcu-table/model/handshake.c:179-275 | Completeness: a run that uses the freed version shows in n_uaf |
| Explorer.CountIsARun | week4/examples/04-rcu-table/model/handshake.c:267-272 | Soundness: a positive n_uaf comes with a run that uses the freed version |
| Explorer.Checker.Explore | week4/examples/04-rcu-table/model/handshake.c:179-275 | From a state of the invariant, n_exec gains the number of executions, n_uaf the number of those in which the freed version is used, n_stuck nothing; it terminates because 2*(4-pcR) + 2*(4-pcW) + buffer lengths falls |
| Explorer.ExecutionsCounted | week4/examples/04-rcu-table/model/handshake.c:263-274 | For every such state there is a list of exactly the complete runs from it, none twice; the tally has its length, and the number of its members that use the freed version |
| Explorer.Checker.TryCommits | week4/examples/04-rcu-table/model/handshake.c:249-261 | The commit loop of one buffer adds exactly the tallies of its enabled commits |
| Explorer.Checker.Try | week4/examples/04-rcu-table/model/handshake.c:166-177 | One guarded move adds the tally of its target, or nothing |
| Explorer.Check | week4/examples/04-rcu-table/model/handshake.c:332-352 | The loop over the models reports for each the number of its executions and of those with a use of the freed version, as unsafe exactly the models with such a run, never a deadlock, and nothing exactly for the four seq_cst sites |
| RcuTheorems.GracePeriod | week4/examples/04-rcu-table/src/rcu.c:101-154 | For any number of readers that register, unregister and reuse slots at will: no section open when synchronize_rcu was called is still open when it returns |
| RcuTheorems.HeldUpOnlyBySections | week4/examples/04-rcu-table/src/rcu.c:144-153 | A look at an entry leaves the updater where it is exactly while the counter there equals the sampled one, and then some reader is inside a section in that slot; otherwise it goes on to the next entry |
| RcuTheorems.PassesWhenNobodyInside | week4/examples/04-rcu-table/src/rcu.c:144-153 | With nobody inside a section in a slot that is waited for, the call returns after one look per entry, whoever has registered there since |
| RcuTheorems.OneExitPasses | week4/examples/04-rcu-table/src/rcu.c:74-89 | One exit of the sampled section makes the counter differ from the snapshot |
| RcuTheorems.PassedForGood | week4/examples/04-rcu-table/src/rcu.c:144-153 | Within that registration the counter never equals the snapshot again |
| RcuTheorems.UpdaterNotStalled | week4/examples/04-rcu-table/src/rcu.c:144-153 | Once every reader still waited for has exited once, each wait step of the updater succeeds until all are passed, whatever the readers re-enter and whoever registers in any slot not waited for |
| RcuTheorems.RecyclingCanLengthenTheWait | week4/examples/04-rcu-table/src/rcu.c:30-53 | A concrete run: a slot given back and registered again since the scan, so of a later epoch than the snapshot, reaches the sampled counter a second time, and the updater is held up by a section that began after its call |
| RcuTheorems.WaitsForTheScannedSection | week4/examples/04-rcu-table/src/rcu.c:129-153 | For every run from a scan of a slot with an odd counter to a wait held up at that entry in the same call: a section is open in the slot, and it is the section the scan saw if and only if nobody has registered in the slot since |
| RcuTheorems.CounterTellsSections | week4/examples/04-rcu-table/src/rcu.c:55-89 | From any open section along any run: within one registration the counter is unchanged exactly while the section is the same one; after a new registration it is never the same one |
| RcuTheorems.EpochCountsRegistrations | week4/examples/04-rcu-table/src/rcu.c:30-46 | What stands for "registered anew" counts exactly the registrations of the slot |
| RcuTheorems.TableIsRight | week4/examples/04-rcu-table/src/table.c:43-96 | On every run no freed version is used; every checked lookup is consistent and has the value gen*64+key of the version held; versions are freed in order, each once; between updates freed equals completed updates and exactly the current version is live |
| RcuTheorems.HeldWasCurrent | week4/examples/04-rcu-table/src/table.c:43-52 | The version a reader holds was the current one at some instant inside the very section that holds it |
| RcuTheorems.GenerationsNeverDecrease | week4/examples/04-rcu-table/src/table.c:43-52 | Within a registration the generations a reader sees, and its counter, never decrease |
| RcuTheorems.WaitingArrayFits | week4/examples/04-rcu-table/src/rcu.c:125-140 | With RCU_MAX_READERS slots, the array of readers to wait for never overflows |
| RcuInvariant.StepKeeps | week4/examples/04-rcu-table/src/rcu.c:30-154 | Every step of readers and updater keeps counter parity, counter = 2 * finished + inside (with the two-step unlock), snapshots and versions consistent |
| RcuInvariant.StillToWaitKept | week4/examples/04-rcu-table/src/rcu.c:129-153 | Any step, of a reader or the updater, that starts with an open section to be waited for leaves the updater still to wait for that counter |
| RcuObject.Fill | week4/examples/04-rcu-table/src/table.c:17-22 | fill writes a version all of whose values are gen*64+key |
| RcuObject.RcuTable.constructor | week4/examples/04-rcu-table/src/table.c:31-41 | rt_init: one version of generation 0, current and latest, and an empty registry |
| RcuObject.RcuTable.RegisterReader | week4/examples/04-rcu-table/src/rcu.c:30-46 | The registration loop takes the first slot not in use and resets it, or reports failure exactly when all are taken |
| RcuObject.RcuTable.ReaderDoes | week4/examples/04-rcu-table/src/rcu.c:48-94 | A reader step in place on its slot is the step of the machine and keeps the invariant |
| RcuObject.RcuTable.UpdaterDoes | week4/examples/04-rcu-table/src/table.c:58-96 | An updater step in place on the table is the step of the machine and keeps the invariant |
| RcuObject.RcuTable.ScanAll | week4/examples/04-rcu-table/src/rcu.c:129-142 | The scan loop, with readers acting between any two loads, ends in the waiting phase of the same call after a run of the machine |
| RcuObject.RcuTable.WaitAll | week4/examples/04-rcu-table/src/rcu.c:144-153 | The wait loop, with readers acting between any two loads, returns only when the machine lets it, and has not returned at the end of their script only if it is held up by a reader inside a section |
| RcuObject.RcuTable.Synchronize | week4/examples/04-rcu-table/src/rcu.c:101-154 | If synchronize_rcu returns, then whatever the readers did between its loads, no section open at the call is still open; if it has not returned, a reader is inside a section in a slot that is waited for |
| WeakRcuSimulation.StepSimulates | week4/examples/04-rcu-table/model/handshake.c:113-162 | With safe orderings, every step of the N-reader store-buffer machine is a step (or none, or two) of the sequential RCU machine, a buffered store taking effect at its commit |
| WeakRcuSimulation.WeakRunSimulates | week4/examples/04-rcu-table/model/handshake.c:113-162 | Every run of the store-buffer machine, of any length, maps to a run of the sequential machine that ends in a related state |
| WeakRcuSimulation.WeakRcuIsSafe | week4/examples/04-rcu-table/model/handshake.c:113-162 | For N readers and unboundedly many sections and updates, with safe orderings no run uses a freed version, and every checked lookup is right |
| WeakRcuSimulation.ChosenOrdersAreSafe | week4/examples/04-rcu-table/src/orders.h:26-31 | The orderings chosen in orders.h are safe on all three models |
| WeakRcuSimulation.ExactForTheProtocol | week4/examples/04-rcu-table/model/handshake.c:123-162 | The general protocol is safe for every number of readers and every run exactly under the condition that holds for the one-reader model |
| Sweep.InvariantScan | week5/examples/05-invariant-audit/src/analyze.c:99-170 | For every record array, worker count and window: episodes and 1000 * violation_us are the number and total length in nanoseconds of the episodes that last strictly more than 1000 * window nanoseconds; span_us is latest end minus earliest ready; all zero when nothing started; for records with ready <= start <= end the episodes are the maximal intervals of the definition |
| Sweep.EpisodesMatchDefinition | week5/examples/05-invariant-audit/src/analyze.h:44-60 | For records with ready <= start <= end, the episodes swept are exactly the maximal intervals of instants with waiting(t) > 0 and busy(t) < workers, each once, in order |
| Sweep.EpisodesUnique | week5/examples/05-invariant-audit/src/analyze.h:44-60 | There is only one such list, so the definition determines the result |
| Sweep.EventsGiveCounts | week5/examples/05-invariant-audit/src/analyze.c:128-137 | The running sums of the events up to an instant are waiting(t) and busy(t) |
| Sweep.NothingLeftOpen | week5/examples/05-invariant-audit/src/analyze.c:144-166 | Every open episode has closed by the last event, for any records |
| Sweep.InstantsExact | week5/examples/05-invariant-audit/src/analyze.c:144-166 | Going instant by instant, the closed episodes are exactly the maximal violated intervals that ended, in order and not touching |
| Sweep.GroupStep | week5/examples/05-invariant-audit/src/analyze.c:145-165 | Handling all events of one time as one group has the effect of visiting every instant since the previous group |
| Sweep.SweepEvents | week5/examples/05-invariant-audit/src/analyze.c:140-166 | The loop over sorted events computes what the instant-by-instant automaton computes |
| Sweep.TakeGroup | week5/examples/05-invariant-audit/src/analyze.c:144-154 | The inner loop takes exactly the events of one time and adds their deltas |
| Sweep.Gather | week5/examples/05-invariant-audit/src/analyze.c:103-137 | The two loops over the records: earliest ready and latest end of the started ones, and their three events each |
| Sweep.OrderIrrelevant | week5/examples/05-invariant-audit/src/analyze.c:103-168 | Episodes, span and whether anything started do not depend on the order of the records, nor on how ties are broken |
| Sweep.WiderWindow | week5/examples/05-invariant-audit/tools/windows.c:58-67 | Raising the window never raises episodes or violation_us |
| Sweep.MoreWorkers | week5/examples/05-invariant-audit/src/analyze.c:155 | Adding workers never shrinks the set of violated instants: every episode lies inside one of the larger pool |
| Sweep.ViolationWithinSpan | week5/examples/05-invariant-audit/src/analyze.c:225-233 | 0 <= violation_us <= span_us for records with ready <= start <= end |
| Sorting.QSort | week5/examples/05-invariant-audit/src/analyze.c:138 | What qsort is relied on for: a permutation in key order, nothing about ties |
| Medians.MedianOf | week5/examples/05-invariant-audit/src/analyze.c:35-59 | The result is the median of the values, one that at most half of them lie below and at most half above; the input is not changed |
| Medians.MedianUnique | week5/examples/05-invariant-audit/src/analyze.c:35-59 | The median is determined by the values alone, whatever sort is used |
| Medians.MedianIsMiddle | week5/examples/05-invariant-audit/src/analyze.c:50-56 | The median is the middle value when the count is odd and the mean of the two middle ones when it is even, where the k-th value is one with at most k below it and the rest not above |
| Medians.NthUnique | week5/examples/05-invariant-audit/src/analyze.c:50-56 | There is only one value of each rank |
| Medians.BugsAreAboveTenfold | week5/examples/05-invariant-audit/src/analyze.c:76-81 | The bug-length latencies are exactly those strictly above ten times the median |
| Medians.MedianSplits | week5/examples/05-invariant-audit/src/analyze.c:35-59 | At most half of the values lie below the median and at most half above |
| Medians.MedianBetweenParts | week5/examples/05-invariant-audit/src/analyze.c:209-212 | When values are split in two nonempty parts, the median of the whole lies between the medians of the parts |
| Medians.SpreadOf | week5/examples/05-invariant-audit/src/analyze.c:61-74 | The result is the largest value minus the smallest |
| Medians.AtMostHalfBugs | week5/examples/05-invariant-audit/src/analyze.c:76-81 | Of non-negative latencies at most half are bug-length against their own median |
| Medians.EpisodeWindowUs | week5/examples/05-invariant-audit/src/analyze.c:172-174 | The window is positive, as its contract asks |
| Summary.ShardsPartition | week5/examples/05-invariant-audit/src/analyze.c:189-201 | The latencies of the two shards together are the latencies of all started tasks, each once |
| Summary.CollectLatencies | week5/examples/05-invariant-audit/src/analyze.c:188-201 | The loop fills the three latency arrays with the started tasks of each shard, in record order |
| Summary.LatenciesAre | week5/examples/05-invariant-audit/src/analyze.c:188-201 | The latencies listed for a shard are, one for one and in order, those of its records with a start stamp: a thousandth of start minus ready |
| Summary.SummarizeRun | week5/examples/05-invariant-audit/src/analyze.c:178-235 | For any records: the latencies are those of the started records in order, in microseconds; median, spread and maximum are theirs; bug_count is how many exceed ten times the median; the window is 100 times a positive median, else 1; episodes and violation_us are the longer ones at that window; the fractions are the ratios; with nothing started every field is 0 and the fraction -1; and for records with timestamps in order the bounds of the next row hold |
| Summary.WellFormedIsPlausible | week5/examples/05-invariant-audit/src/analyze.c:178-235 | At most half the started tasks are bug-length, violation_us <= span_us, violation_fraction is -1 or in [0, 1], and with both shards nonempty the overall median lies between theirs |
| MonitorTheorems.NoLostWakeup | week5/examples/05-invariant-audit/src/workload.c:112-148 | From creation on, for any number of producers and consumers, any choice of whom a signal wakes and any spurious wakeups: while a consumer sleeps there are at least as many woken consumers on their way as items; while a producer sleeps, at least as many woken producers as free slots; after close no consumer sleeps; the ring never overflows |
| MonitorTheorems.StepKeeps | week5/examples/05-invariant-audit/src/workload.c:112-148 | The counting form is kept by every step: sleeping consumers imply at least as many woken consumers as items while open; sleeping producers imply at least as many woken producers as free slots |
| MonitorTheorems.FirstInFirstOut | week5/examples/05-invariant-audit/src/workload.c:112-140 | What has been pushed is what has been popped followed by what is in the ring |
| MonitorTheorems.DrainedMeansAllHandedOut | week5/examples/05-invariant-audit/src/workload.c:124-140 | A pop answers -1 exactly when the queue is closed and everything pushed has been popped |
| MonitorTheorems.SleepsAfterClose | week5/examples/05-invariant-audit/src/workload.c:112-148 | In a closed queue where nobody sleeps, a step puts a thread to sleep exactly when it is a push to a full ring |
| MonitorTheorems.CloseWakesEverybody | week5/examples/05-invariant-audit/src/workload.c:142-148 | Closing leaves nobody asleep: all who slept, consumers and producers, are on their way back |
| MonitorTheorems.QuietAfterClose | week5/examples/05-invariant-audit/src/workload.c:112-148 | For every run from a close that leaves nobody asleep: nobody ever sleeps again if and only if no push meets a full ring |
| MonitorTheorems.ProducerSleepsAfterClose | week5/examples/05-invariant-audit/src/workload.c:112-117 | A concrete run: a producer woken by close finds the ring still full and goes back to sleep, since push does not look at closed |
| TaskQueueObject.TaskQueue.constructor | week5/examples/05-invariant-audit/src/workload.c:86-103 | tq_init: an empty open ring of the given capacity |
| TaskQueueObject.TaskQueue.Push | week5/examples/05-invariant-audit/src/workload.c:112-122 | A pass through tq_push on the ring: sleep when full, else append, advance the tail around the ring and signal |
| TaskQueueObject.TaskQueue.Pop | week5/examples/05-invariant-audit/src/workload.c:125-140 | A pass through tq_pop on the ring: sleep when empty and open, -1 when empty and closed, else take the oldest item, advance the head and signal |
| TaskQueueObject.TaskQueue.Close | week5/examples/05-invariant-audit/src/workload.c:142-148 | tq_close: closed, and everybody woken |
| Pool.PoolWorkers | week5/examples/05-invariant-audit/src/workload.c:226-233 | Never below the minimum, exactly the minimum for a smaller configured count, else never above the configured count, and less than that only as one less than the processors or as the minimum |
| Pool.SetupOf | week5/examples/05-invariant-audit/src/workload.c:315-335 | Whatever the seed, configuration and processor count: WL_TASKS tasks, at least three workers, and every queue that receives a task has a worker |
| PoolTheorems.RoutesAreServed | week5/examples/05-invariant-audit/src/workload.c:327-367 | Under each pathology every task goes through a queue that some worker pops from |
| PoolTheorems.NeverStuck | week5/examples/05-invariant-audit/src/workload.c:259-408 | In every reachable state before the last, some thread can take a step that is not a spurious wakeup |
| PoolTheorems.EveryRunEnds | week5/examples/05-invariant-audit/src/workload.c:259-408 | Every run has at most (pool+2)(11 tasks + 2 pool + 6) + pool + 1 steps, plus two per spurious wakeup |
| PoolTheorems.PotentialFalls | week5/examples/05-invariant-audit/src/workload.c:259-408 | Each step lowers a potential of tasks and awake threads; a spurious wakeup raises it by one |
| PoolTheorems.EveryTaskOnce | week5/examples/05-invariant-audit/src/workload.c:402-413 | When the joins are done every task has been pushed once, popped once and completed once, completed equals queued, and both queues are closed and empty |
| PoolTheorems.NeverTwice | week5/examples/05-invariant-audit/src/workload.c:259-298 | At every moment no task has been pushed, popped or completed twice, each only after the other, and the counter counts the completed ones |
| PoolTheorems.FirstComeFirstServed | week5/examples/05-invariant-audit/src/workload.c:282-298 | Of two tasks of one queue the one dispatched first is popped first |
| PoolTheorems.GateExcludes | week5/examples/05-invariant-audit/src/workload.c:264-273 | At most one worker holds the gate |
| PoolTheorems.NobodySleepsOnClosed | week5/examples/05-invariant-audit/src/workload.c:402-403 | In every reachable state nobody sleeps on a closed queue |
| PoolTheorems.SleepsOnlyWhenFull | week5/examples/05-invariant-audit/src/workload.c:112-117 | The dispatcher is held up by a queue only while it holds 64 tasks |
| PoolLife.TaskLife | week5/examples/05-invariant-audit/src/workload.c:259-298 | In every finished run each task arrives, is pushed to its queue, popped by one worker of that queue, passes the gate, is started, holds the gate if it is a holder task and is served if not, is ended and counted: once each, in this order, with nothing else; its shard, queue, holder flag and three stamps are those of that history |
| PoolLife.StampsAreReadings | week5/examples/05-invariant-audit/src/workload.c:268-294 | The ready, start and end of each task are what the clock showed at three steps of the run, in order: before its dispatch, before its start and before its end by the same worker |
| PoolLife.SeedDecides | week5/examples/05-invariant-audit/src/workload.c:204-206 | From the seed modulo 3: which tasks hold the gate, which queue each task goes through and which workers serve it |
| PoolTheorems.OnlyHoldersHold | week5/examples/05-invariant-audit/src/workload.c:264-275 | A worker that holds the gate for its task has a holder task of the blocked-holder pathology, and such a task is never merely served |
| PoolInvariant.StepKeeps | week5/examples/05-invariant-audit/src/workload.c:259-408 | Every step of dispatcher and workers keeps the accounting of tasks, queues, gate, timestamps and disjoint service intervals |
| PoolAudit.FinishedRunIsWellFormed | week5/examples/05-invariant-audit/src/workload.c:268-292 | With a clock that never runs backwards, every finished run has 0 < start and ready <= start <= end for every task, the shard of its class, and no two overlapping tasks of one worker |
| PoolAudit.BusyFits | week5/examples/05-invariant-audit/src/analyze.h:47-51 | Tasks of one worker being disjoint, busy(t) never exceeds the pool, and is below it exactly while some worker runs nothing |
| PoolAudit.ViolationIsIdleWorker | week5/examples/05-invariant-audit/src/analyze.h:44-51 | For a finished run, an instant is violated exactly when a task waits while some worker of the pool runs no task |
| PoolAudit.AuditRun | week5/examples/05-invariant-audit/src/analyze.c:178-235 | The summary of any finished run counts every task as started, and all its bounds hold |
| PoolObject.ThreadPool.constructor | week5/examples/05-invariant-audit/src/workload.c:337-367 | The pool as created: two empty queues, a free gate, workers about to pop |
| PoolObject.ThreadPool.Arrive | week5/examples/05-invariant-audit/src/workload.c:284-294 | dispatch_one up to the push, in place: class, shard, holder flag, zero start and end, and the time |
| PoolObject.ThreadPool.Offer | week5/examples/05-invariant-audit/src/workload.c:295-297 | The push to the queue of the task, in place |
| PoolObject.ThreadPool.Take | week5/examples/05-invariant-audit/src/workload.c:262-263 | A pass of a worker through tq_pop, in place |
| PoolObject.ThreadPool.Handle | week5/examples/05-invariant-audit/src/workload.c:264-277 | What a worker does with a task, in place: gate in and out, start stamp, hold or serve, end stamp, count |
| PoolObject.ThreadPool.Turn | week5/examples/05-invariant-audit/src/workload.c:259-408 | One step of one thread, in place, is the step of the machine and keeps the invariant |
| PoolObject.ThreadPool.RunToEnd | week5/examples/05-invariant-audit/src/workload.c:369-413 | Whatever the scheduler prefers, however long things take, whoever a signal wakes, and with any finite number of spurious wakeups at any time: the run ends, and every task has been handled once |
| PoolObject.ThreadPool.Stray | week5/examples/05-invariant-audit/src/workload.c:114-129 | A spurious return from pthread_cond_wait, in place: the sleeper is awake and nothing else changes |
| PoolObject.ThreadPool.CountShards | week5/examples/05-invariant-audit/src/workload.h:60-63 | shard0_count is a quarter of the tasks, rounded down, and the other shard has the rest |
| PoolObject.RunAndAudit | week5/examples/05-invariant-audit/src/workload.c:315-424 | From creation to the audit, for every scheduling with finitely many spurious wakeups: it ends, completed equals queued, and violation_fraction is -1 or in [0, 1] |
| Pacing.DispatchLoop | week5/examples/05-invariant-audit/src/workload.c:369-400 | Every index is dispatched once, in order; exactly the tasks outside bursts are paced; each deadline is a gap after the one carried over, and for the first task and the first after a burst a gap after the clock reading just before; each release is the first reading if that is late, else the one after a sleep of exactly what was missing; the lateness array holds release minus deadline; releases k apart in the list are at least k - 2 gaps apart in time; and so any interval of length L holds at most L/gap + 3 of them |
| Pacing.ReleasePaced | week5/examples/05-invariant-audit/src/workload.c:385-397 | The paced branch notes lateness and deadline rightly and keeps all of the above |
| Pacing.WindowBound | week5/examples/05-invariant-audit/src/workload.c:391-397 | Any interval of length L holds at most L/gap + 3 paced releases, whatever stalls occur |
| Pacing.OneMore | week5/examples/05-invariant-audit/src/workload.c:385-397 | The rule for starting a fresh schedule keeps the spacing |
| Pacing.AwaitDeadline | week5/examples/05-invariant-audit/src/workload.c:386-390 | Returns the first reading if it is not before the deadline, else sleeps exactly what is missing and returns the next reading |
| Pacing.GapBounds | week5/examples/05-invariant-audit/src/workload.c:243-250 | With sizes in ascending order the gap is between 62.5 and 250 us for the uneven partition and between 136 and 182 us otherwise, so gap_ns is positive |
| Pacing.GapExactly | week5/examples/05-invariant-audit/src/workload.c:239-250 | The gap is 300 us over 0.55 times three or four workers, four for every larger pool, and for the uneven partition the service time of the largest class over 4.8 |
| Pacing.ServiceMean | week5/examples/05-invariant-audit/src/workload.c:319-325 | The service times are proportional to the sizes and average 300 us |
| Pacing.CommentedRange | week5/examples/05-invariant-audit/src/workload.c:208-250 | For all sizes and pools of at least three: the gap lies in the 136 to 270 us of the comment if and only if the pathology is not the uneven partition or 250 times the largest size is at least 136 times the sum of the sizes |
| Pacing.CommentFailsForEqualSizes | week5/examples/05-invariant-audit/src/workload.c:208-250 | Equal sizes give the uneven partition a gap of 62.5 us, outside the comment; the sizes of config/params.h lie inside it under every pathology |

## Left out

Queue:

- Address reuse: `free` is retirement here, a retired node stays readable and its address is not handed out again.  The program depends on this: node_new restarts the count of next at 0 (msqueue.c:53-54) and the rechecks compare pointers only (msqueue.c:101 and msqueue.c:150).
- Weak memory for the queue: its acquire and release accesses are interleaved as single steps.
- msq_destroy, msq_retries and failed allocation in msq_create.
- Others that never stop: the script of `Enqueue` and `Dequeue` is finite.  Against others who act for ever a single operation need not end; lock-freedom bounds its retries by what they get done (`RetriesAreBounded`).

RCU and its table:

- Register and unregister are one step each, as they hold the registry lock throughout; local_seq is not kept apart from the counter, which only its own thread writes.
- The statistics counters reads and sync_waits, except that `finished` stands for the completed sections; mutex hand-over between updaters; failed allocation in rt_update; rt_destroy.
- RcuObject.RcuTable.Synchronize: returning at all depends on the readers leaving; that the updater is then not held up is `UpdaterNotStalled`.
- RcuObject.RcuTable.WaitAll: as for `Synchronize`.

Store-buffer machines:

- The text of the trace and the record of the first unsafe execution; only the number of trace lines is kept.  Parsing of the command line.
- WeakRcuSimulation.WeakRcuIsSafe: readers are registered from the start, there is one updater, and the contents of a version are written before it is published and do not pass through the buffers.

Audit:

- Floating point: times are naturals, figures are reals.  Timestamps do not wrap around.
- Sweep.InvariantScan: for records whose timestamps are out of order it states what the event sums give, which is then not the definition.
- Sorting.QSort: qsort is a library function; an insertion sort stands in for it, and callers see only its contract.
- Output: CSV, printing, the drivers and the tools; the queued, completed and shard counts that summarize_run copies.

Pool:

- The mutex of a queue: a critical section is one step, from getting the mutex to releasing it or waiting on a condition variable.
- Real time: how long a task is served or the gate is held, and the accuracy of sleeping.  A clock that never runs backwards and starts above zero, and a sleep that lasts at least as long as asked, stand for the platform.
- The median lateness pace_late_us, and the failure of thread and lock creation.
- Pacing.DispatchLoop: the push of a task is time passing; what it does to the queue is in `Pool.dfy`.  The machine in `Pool.dfy` in turn lets the dispatcher release a task at any time, which covers every schedule of the loop.
- Infinitely many spurious wakeups: a run with them need not end (`EveryRunEnds` says how many steps each can add).

Elsewhere in the repository:

- The queue behind one mutex and the table behind one rwlock, which are sequential code in a single critical section; the ABA demonstration, one fixed interleaving; the kernel modules, which call into the kernel; and the small sequential programs of the first two weeks.
