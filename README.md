# schedsim in Dafny

schedsim is a discrete-event simulator for request scheduling. Generators
create requests and write them to queues. Processors read the requests,
serve them under a scheduling policy and hand them to a drain, which keeps
a latency histogram. A kernel drives everything from one event clock. In
Go every actor is a goroutine and the kernel talks to it over channels. In
this model the kernel is a serialized machine instead. Each actor's step is
a method, and the time, the event that woke the actor and any random draw
are its parameters.

The modules follow the repository's files:

- `Requests` (`requests.dfy`): the request record of `blocks/request.go`. It is a value, and serving a request replaces it with a copy whose remaining time is smaller.
- `Histograms` (`histograms.dfy`): the latency histogram and `BookKeeper` of `blocks/request.go`.
  - `Histogram` is a class over a 100000-bucket `array<int>` with the running count, sum and sum of squares.
  - `getPercentiles` is modelled twice: exactly as written, and corrected (see Findings).
  - Both functions specify the result by `Expected`: a percentile p goes to the first bucket from `minBucket` on whose cumulative count exceeds p·count.
  - Two of the source's offsets are kept as written. A percentile in the minimum bucket gets 10/n·t, with no offset for the bucket's position. A percentile found by the scan in bucket i is interpolated from 10·(i−1), one bucket low.
- `Heaps` (`heaps.dfy`): `container/heap` over the slice types of the source: `pQueue`, `ReqHeap` and the kernel's `priorityQueue`. It is one class, keyed by a function.
- `Queues` (`queues.dfy`): the FIFO `Queue` with its global id counter, and `PQueue` ordered by `GetCmpVal` (`blocks/queue.go`).
- `Engine` (`engine.dfy`): the kernel of `engine/model.go`.
  - An actor suspends either by `Wait(d)`, which schedules an event at now + d, or by blocking on an empty in-queue.
  - Each round retries every blocked reader once, in order, on a fresh list, then pops the earliest event and sets the clock to its time.
  - The suspensions the actors answer with are parameters.
- `Prototype` (`prototype.dfy`): the integer-time prototype `model.go`, with its concrete generator and processor, its int FIFO and the threshold 10.
- `Processors` (`processors.dfy`): the run-to-completion, time-sharing and bounded processors of `blocks/processor.go`, as one step per request read. For the run-to-completion processor, `RTCDrainTimes` follows a whole queue served back to back.
- `PS` (`ps.dfy`): the processor-sharing processor, whose step is one return of `WaitInterruptible`.
- `SRPT` (`srpt.dfy`): the SRPT processor, with `workerCount` slots and a heap of waiting requests ordered by remaining time.
- `Generators` (`generators.dfy`): the playback generator's draw, the cown (concurrent owner) and the Verona generator of `blocks/adv_generators.go`.
- `Verona` (`verona.dfy`): the two Verona processors, with the steal scan, the steal budget `nextSteal` and the cown batch. A batch is a sequence of turns, one per `Wait` of the Go loop, so requests that arrive for the cown between two turns are served in the same batch.
- `CownProtocol` (`cown_protocol.dfy`): the generator and `VeronaProcessor2` together, wired as in `topologies/veronacown.go`. Run queue p is the generator's out queue p and processor p's local in-queue. The model proves that every cown is in at most one place, and only while it is scheduled. Generator rounds may come between any two turns of a batch.

The calls into engine code the repository does not include are inputs and
outputs of each step:

- `WaitInterruptible` is the `intr`/`newReq` pair.
- `GetInQueueLen` and `GetInQueueCount` are the `lens` sequence.
- `GetOutQueueLen` is `outLen`.
- `ReadInQueueI` and `ReadInQueuesRandLocalPr` are the returned `Source`.
- `WriteInQueue`, `WriteOutQueue` and `TerminateReq` are the returned `Action`.

Random draws (`rand.Intn`) are a raw natural number reduced modulo n. The
steal `base`, the cown index and the out-queue index are parameters.
Time is `real` and the prototype's time is `int`.

Where Go faults, the model returns a value that says so:

- `Intn(0)` and an empty trace are `None`.
- A pop of an empty event queue is `Halt.EmptyEventQueue`.
- A negative histogram index makes `AddSample` return `false` and changes nothing.
- The fault in `getPercentiles` makes `GetPercentilesAsWritten` return `None`.

## Model

| member | source | states |
|---|---|---|
| Requests.NewRequest | blocks/request.go:25-31 | a new request starts at the current time, and its remaining and immutable service times are both the argument |
| Requests.SubServiceTime | blocks/processor.go:74 | (called at blocks/processor.go:74, 126, 262 and 383; the fields it changes and keeps are those of blocks/request.go:15-23) serving a request for d lowers its remaining time by exactly d; its initial service time, its comparison value and its delay are unchanged |
| Requests.ServiceAccounting | blocks/request.go:25-41 | after any sequence of service slices, the remaining time is the initial time minus their sum; GetInitialServiceTime still returns the argument, GetCmpVal the creation time, and the delay at t is t − creation time |
| Histograms.Trunc | blocks/request.go:67 | Go's float-to-int conversion truncates toward zero, for both signs |
| Histograms.BucketIndex | blocks/request.go:66-73 | the index is below 100000; it is non-negative exactly when s > −10; a sample in [0, 10^6) lies in its bucket's 10-wide range; larger samples are clamped to bucket 99999; samples in (−10, 0) land in bucket 0 |
| Histograms.AddSampleConsistent | blocks/request.go:74-83 | incrementing the sample's bucket and widening minBucket/maxBucket keeps each bucket equal to its sample count, the total equal to the count, and [minBucket, maxBucket] the tightest range holding samples |
| Histograms.TracksAppend | blocks/request.go:81-83 | when count, sum and sum of squares describe the samples, adding 1, s and s² makes them describe the samples with s appended |
| Histograms.Histogram.constructor | blocks/request.go:57-64 | granularity 10, 100000 zero buckets, minBucket 99999, maxBucket 0 and no samples |
| Histograms.Histogram.AddSample | blocks/request.go:66-84 | it fails exactly when the index is negative, and then nothing changes; otherwise exactly one bucket goes up by one, count by 1, sum by s and the sum of squares by s², and minBucket/maxBucket take the new index if it is more extreme |
| Histograms.Histogram.Avg | blocks/request.go:86-88 | the average is defined exactly when there are samples (its value for identical samples is in IdenticalSamplesMoments) |
| Histograms.Histogram.Variance | blocks/request.go:90-95 | the value under math.Sqrt is defined exactly when there are samples |
| Histograms.VarianceIsSpread | blocks/request.go:90-95 | with samples recorded, count × the value under math.Sqrt is the sum of the squared deviations of the samples from their average, so it is never negative and the root is defined |
| Histograms.DeviationsClosed | blocks/request.go:90-95 | the squared deviations of samples from any m add up to Σx² − 2m·Σx + n·m², the identity behind computing stddev from the running sum and sum of squares |
| Histograms.IdenticalSamplesMoments | blocks/request.go:86-95 | k > 0 equal samples v have average v and variance 0 |
| Histograms.FirstAbove | blocks/request.go:116-118 | the scan's bucket for target t is the first whose cumulative count exceeds t; every earlier bucket stays at or below t, and None means none exceeds it |
| Histograms.PercentileValueAt | blocks/request.go:104-122 | the first bucket whose cumulative count exceeds p·count is non-empty and gives the percentile its interpolated value |
| Histograms.TargetsIncrease | blocks/request.go:101 | the targets 0.5·count ≤ 0.9·count ≤ 0.95·count ≤ 0.99·count are non-negative and below count, and all are 0 when count is 0 |
| Histograms.ExpectedStep | blocks/request.go:107-123 | placing percentile k in its bucket extends the result of the first k percentiles by exactly that entry |
| Histograms.MinBucketPhase | blocks/request.go:104-111 | the minimum-bucket loop sets exactly the percentiles whose target lies below the minimum bucket's count, each to its expected value |
| Histograms.PlaceInBucket | blocks/request.go:118-127 | the inner loop at bucket i sets exactly the next percentiles whose target lies below the cumulative count through i |
| Histograms.ScanPhase | blocks/request.go:116-129 | the scan over minBucket+1 .. maxBucket completes the expected map |
| Histograms.ScanExhausted | blocks/request.go:116-129 | a scan that passes maxBucket with percentiles left to place only happens without samples, and then those percentiles get no value |
| Histograms.Histogram.GetPercentilesAsWritten | blocks/request.go:98-130 | the run faults exactly when the minimum bucket holds more than 0.99·count samples; otherwise it returns the expected map |
| Histograms.Histogram.GetPercentiles | blocks/request.go:98-130 | it always returns the expected map: each percentile at the first bucket that exceeds its target, interpolated |
| Histograms.ExpectedKeys | blocks/request.go:101-129 | with samples present, the first n percentiles all receive a value, so the map's keys are exactly 0.5, 0.9, 0.95 and 0.99 |
| Histograms.ExpectedEmpty | blocks/request.go:112-129 | without samples no percentile gets a value, so the map is empty |
| Histograms.PercentileFound | blocks/request.go:116-128 | with samples present, every percentile finds a bucket within minBucket..maxBucket |
| Histograms.InterpolateRange | blocks/request.go:109-122 | a value from the minimum bucket lies in [0, 10); a value from scan bucket i lies in [10·(i−1), 10·i) |
| Histograms.ConsistentDrainable | blocks/request.go:57-84 | the histogram's consistency gives what getPercentiles relies on: non-negative buckets that are zero outside [minBucket, maxBucket], totalling count |
| Histograms.SingleBucketPercentiles | blocks/request.go:104-111 | when every sample is in one bucket, the corrected result is {0.5: 5, 0.9: 9, 0.95: 9.5, 0.99: 9.9} |
| Histograms.SingleBucketValue | blocks/request.go:104-111 | when every sample is in one bucket, percentile p is estimated as 10·p, whichever bucket it is |
| Histograms.SingleBucketFaults | blocks/request.go:107-111 | when every sample is in one bucket, all four targets fall in the minimum bucket, so the run as written reaches percentiles[4] |
| Histograms.OneSampleExample | blocks/request.go:98-113 | one sample of 5: the run as written faults; the corrected one gives the four interpolated values |
| Histograms.BookKeeper.constructor | blocks/request.go:148-152 | a fresh, empty histogram and no name |
| Histograms.BookKeeper.SetName | blocks/request.go:154-156 | the name is set |
| Histograms.BookKeeper.TerminateReq | blocks/request.go:158-161 | the request's delay at the current time is added as a sample, and fails exactly when that delay is at most −10 |
| Heaps.Swap | blocks/queue.go:56-58 | the two slots trade elements, the rest is unchanged, and the multiset is kept |
| Heaps.RootIsMinimal | blocks/queue.go:52-54 | in a heap under Less, the root's key is at most every element's key |
| Heaps.Heap.constructor | blocks/queue.go:77-83 | an empty heap with the given key |
| Heaps.Heap.Len | blocks/queue.go:50 | Len is the number of elements stored |
| Heaps.Heap.Push | blocks/queue.go:60-63 | append plus sift-up: the heap order holds, the multiset gains x, and the size grows by 1 |
| Heaps.Heap.Pop | blocks/queue.go:65-71 | the old root is returned and has a minimal key; the heap order holds, the multiset loses exactly it, and the size shrinks by 1 |
| Queues.QueueCounter.constructor | blocks/queue.go:11 | the global counter starts at 0 |
| Queues.Queue.constructor | blocks/queue.go:19-25 | an empty queue whose id is the counter's value; the counter goes up by one and records the id |
| Queues.IdsDistinct | blocks/queue.go:11-25 | ids issued by the counter are pairwise distinct (strictly increasing) |
| Queues.TwoQueues | blocks/queue.go:19-25 | the first two queues get ids 0 and 1 |
| Queues.Queue.Enqueue | blocks/queue.go:27-30 | x goes to the back |
| Queues.Queue.Dequeue | blocks/queue.go:32-36 | requires a non-empty queue; returns the front and removes exactly it |
| Queues.Queue.Len | blocks/queue.go:38-40 | Len is the number of elements |
| Queues.FifoOrder | blocks/queue.go:27-36 | n enqueues followed by n dequeues give back the elements in insertion order |
| Queues.PQueue.constructor | blocks/queue.go:77-83 | an empty heap ordered by GetCmpVal |
| Queues.PQueue.Enqueue | blocks/queue.go:85-90 | the multiset gains r and Len grows by 1 |
| Queues.PQueue.Dequeue | blocks/queue.go:92-94 | returns a stored element of minimal GetCmpVal; the multiset loses exactly it and Len shrinks by 1 |
| Queues.PQueue.Len | blocks/queue.go:96-98 | Len is the number stored |
| Queues.EnqueueAll | blocks/queue.go:85-90 | enqueuing a sequence adds exactly its multiset |
| Queues.DequeueAll | blocks/queue.go:92-94 | dequeuing until empty gives a permutation of the contents sorted by GetCmpVal |
| Queues.DrainInOrder | blocks/queue.go:85-94 | pushing a sequence through a PQueue gives back a permutation of it sorted by GetCmpVal |
| Engine.WaitEvent | engine/model.go:146-152 | Wait(d) schedules an event due at now + d, owned by the caller, never before now when d ≥ 0 |
| Engine.RetryConserves | engine/model.go:101-111 | every signalled reader either blocks again or schedules exactly one event |
| Engine.WokenNotEarly | engine/model.go:101-111 | with non-negative waits, no event scheduled by a retried reader is due before the clock |
| Engine.ReblockedSubsequence | engine/model.go:101-111 | the new blocked list holds only signalled readers, and all of them, in order, if every reader blocks again |
| Engine.CollectStep | engine/model.go:105-110 | collecting one more suspension extends the blocked list or the new events by exactly that actor's |
| Engine.CollectInvariant | engine/model.go:105-110 | after one more waitActor, the blocked list and the event queue are still the starting ones extended by the suspensions collected so far |
| Engine.Kernel.constructor | engine/model.go:52-61 | the clock at 0, and no events, blocked readers or actors |
| Engine.Kernel.RegisterActor | engine/model.go:68-75 | actorCount goes up by one and nothing else changes |
| Engine.Kernel.WaitActor | engine/model.go:81-88 | a timed wait adds exactly its event to the queue; a blocked read appends the actor to the blocked list |
| Engine.Kernel.Collect | engine/model.go:92-110 | the suspensions of the given actors, in order, extend the blocked list and the event queue |
| Engine.Kernel.Startup | engine/model.go:90-94 | exactly actorCount suspensions are collected before the loop |
| Engine.Kernel.RetryBlocked | engine/model.go:100-112 | every blocked reader is signalled exactly once, in FIFO order; those that block again form the new list; the others' events join the queue |
| Engine.Kernel.Dispatch | engine/model.go:114-116 | pops an event of minimal time and sets the clock to it; None exactly when the queue is empty |
| Engine.Kernel.Round | engine/model.go:98-120 | one iteration: the retry, then the pop, and the owner's reply. The pending events are the old queue plus those the signalled readers schedule. It faults exactly when none is pending; otherwise it dispatches one of least time among them, and the queue becomes the pending events minus it plus the owner's new event. The blocked list becomes the re-blocked readers, then the owner if it blocks. With non-negative waits no event is early, dispatch order is by time, and the clock does not decrease |
| Engine.Kernel.Advance | engine/model.go:114-120 | the pop and the owner's reply: it faults exactly on an empty queue; otherwise it dispatches an earliest event, sets the clock to its time, removes exactly it, and adds the owner's event or appends the owner to the blocked list; with a non-negative wait the ordering invariants are kept |
| Engine.Kernel.Run | engine/model.go:90-122 | the loop stops with Reached exactly when the clock is at or past the threshold; the clock moves only to a dispatched event's time and, with non-negative waits, never backwards |
| Engine.TryReadInQueue | engine/model.go:154-162 | a read returns the front of a non-empty in-queue and removes it; on an empty queue it returns nothing and changes nothing, so the actor blocks |
| Engine.Simulate | engine/model.go:90-122 | register, start up and run: Reached exactly when the threshold is reached, and a non-negative clock when every wait is non-negative |
| Prototype.IntQueue.constructor | model.go:119-123 | an empty queue |
| Prototype.IntQueue.Enqueue | model.go:125-127 | appends at the back |
| Prototype.IntQueue.Dequeue | model.go:129-133 | returns the oldest element and removes it |
| Prototype.IntQueue.Len | model.go:135-137 | Len is the number of elements |
| Prototype.DequeueOldest | model.go:125-137 | two dequeues after two enqueues return the oldest values first |
| Prototype.ProtoModel.constructor | model.go:51-60 | the clock at 0, and an empty event queue, blocked list and int queue |
| Prototype.ProtoModel.RegisterActor | model.go:62-67 | actorCount goes up by one |
| Prototype.ProtoModel.Wait | model.go:155-161 | schedules an event at integer time d + now |
| Prototype.ProtoModel.ReadInQueue | model.go:163-171 | returns and removes the front of a non-empty queue; on an empty one it returns nothing |
| Prototype.ProtoModel.ResumeGenerator | model.go:174-180 | the generator enqueues two 1s and waits 5 |
| Prototype.ProtoModel.ResumeProcessor | model.go:182-186 | the processor reads a value and waits that long, or blocks on an empty queue |
| Prototype.ProtoModel.Resume | model.go:173-188 | one resumption keeps the demo invariant (only 1s are queued, no event is early, only the processor blocks) and has exactly the effect of the generator's or the processor's step on the queue, the events and the blocked list |
| Prototype.ProtoModel.RetryBlocked | model.go:93-104 | every blocked reader is signalled once, in order, after the list is reset; the new queue, blocked list and event queue are what Retried gives for the old blocked list and queue, and the demo invariant holds |
| Prototype.RetriedSplits | model.go:163-171 | with n the smaller of the readers and the queued values, n values are taken and n events scheduled, the queue keeps the values after the first n, and the readers after the first n block again in the same order |
| Prototype.RetriedEvents | model.go:155-171 | the events are exactly, for each of the first n readers k, one due at now plus the k-th queued value and owned by reader k |
| Prototype.RetriedNotEarly | model.go:155-171 | when every queued value is positive, every event the retry adds is due after the current clock |
| Prototype.ProtoModel.Startup | model.go:84-86 | the two actors' first suspensions establish the demo invariant |
| Prototype.ProtoModel.Run | model.go:82-113 | stops with Reached exactly when the clock is at 10 or more; the clock never decreases, and the generator always has an event pending |
| Prototype.Simulate | model.go:190-203 | in main's run the clock stays non-negative, Reached means the clock reached 10, and the queue holds only 1s |
| Processors.RTCStep | blocks/processor.go:42-51 | waits the service time plus the context-switch cost, then drains the request (its use over a queue is in RTCBusy and RTCSojourn) |
| Processors.RTCDrainTimes | blocks/processor.go:42-51 | an RTC processor serving a queue back to back drains one request per step |
| Processors.RTCBusy | blocks/processor.go:42-51 | the k-th request is drained after the service times of the first k + 1 requests plus k + 1 context switches |
| Processors.RTCInOrder | blocks/processor.go:42-51 | each request leaves exactly one service time and one context switch after the previous one |
| Processors.RTCLeavesAfter | blocks/processor.go:42-51 | with non-negative times, no request leaves before its own service time and a context switch have passed since the processor started |
| Processors.RTCSojourn | blocks/processor.go:42-51 | requests queued by the start each stay at least their service time plus a context switch, and leave in queue order |
| Processors.TSStep | blocks/processor.go:65-78 | drains exactly when the remaining time is at most the quantum, after waiting remaining + ctxCost; otherwise waits quantum + ctxCost and re-queues the request with exactly the quantum taken off |
| Processors.LoneTurnsPending | blocks/processor.go:65-78 | after j slices with remaining time still above j quanta, the request is still queued with j quanta taken off, after waiting j·(quantum + ctxCost); `Times(j, x)` is j copies of x added up, and TimesIsMul shows it equals j·x |
| Processors.LoneTurnsDrain | blocks/processor.go:65-78 | a request alone on a TS processor is drained after exactly ⌈s/quantum⌉ turns, having waited s plus one ctxCost per turn |
| Processors.BoundedFactor | blocks/processor.go:171-177 | factor 2 exactly for colour 1, otherwise 1 |
| Processors.Bounded2Factor | blocks/processor.go:198-204 | factor 2 exactly for colour 0, otherwise 1 |
| Processors.BoundedProcessor.constructor | blocks/processor.go:161-167 | the given buffer size, and the factor at Go's zero value |
| Processors.BoundedProcessor.Serve | blocks/processor.go:166-186 | a coloured request sets the factor, an uncoloured one keeps the previous one; waits factor × service time, then forwards exactly when out queue 0 is shorter than bufSize, otherwise drains |
| Processors.BoundedProcessor2.Serve | blocks/processor.go:193-208 | the same factor rule with colour 0 doubling, then always drains |
| Processors.PlainFirstIsFree | blocks/processor.go:166-186 | an uncoloured first request waits 0, since the factor starts at 0 |
| Processors.ColorSticks | blocks/processor.go:166-186 | a colour carries over to the following uncoloured requests |
| PS.GetFactor | blocks/processor.go:113-118 | the share is in (0, 1]; it is exactly 1 when workers ≥ requests, and otherwise factor × count = workerCount |
| PS.Served | blocks/processor.go:120-128 | every request is served for the same amount, in place and in order |
| PS.RemoveAt | blocks/processor.go:141 | removes exactly the element at the index and keeps the others in order |
| PS.FirstMinUnique | blocks/processor.go:100-111 | the first element of least remaining time is unique |
| PS.ServedKeepsFirstMin | blocks/processor.go:120-128 | serving everyone equally keeps the same request first-minimal |
| PS.TimerFiresAtCompletion | blocks/processor.go:147-149 | when the timer of d = min/factor fires, curr has exactly nothing left and no other request has gone negative |
| PS.PSProcessor.constructor | blocks/processor.go:90-93 | one worker, an empty list, and no timer |
| PS.PSProcessor.SetWorkerCount | blocks/processor.go:95-98 | the worker count is set and nothing else changes |
| PS.PSProcessor.GetMinService | blocks/processor.go:100-111 | returns the first element of least remaining time |
| PS.PSProcessor.UpdateServiceTimes | blocks/processor.go:120-128 | every request is served for (now − prevTime) × the share at the current count, and prevTime becomes now |
| PS.PSProcessor.Complete | blocks/processor.go:138-142 | drains curr and removes exactly it; count goes down by one; curr, d, workerCount and prevTime are unchanged |
| PS.PSProcessor.Admit | blocks/processor.go:143-146 | newReq goes to the back and count goes up by one; curr, d, workerCount and prevTime are unchanged |
| PS.PSProcessor.Retarget | blocks/processor.go:147-152 | curr is the first element of least remaining time and d is its time divided by the share, or d = −1 when the list is empty |
| PS.PSProcessor.Step | blocks/processor.go:131-154 | one event: every request advances with the share from before the event; then curr is drained and removed, or newReq is appended; count tracks the list; curr and d are retargeted |
| PS.ShareOneWorker | blocks/processor.go:131-154 | requests of 2 and 4 sharing one worker from time 0 finish at 4 and 6 |
| SRPT.Occupied | blocks/processor.go:362 | the number of non-nil slots is at most the slot count |
| SRPT.OccupiedUpdate | blocks/processor.go:398-422 | writing a slot changes the busy count by exactly the nil/non-nil change |
| SRPT.NilSlots | blocks/processor.go:371 | workerCount nil slots |
| SRPT.Advanced | blocks/processor.go:381-385 | every non-nil slot is served for diff; nil slots stay nil |
| SRPT.AdvancedOccupied | blocks/processor.go:377-386 | advancing the times keeps the busy count |
| SRPT.AdmissionUnique | blocks/processor.go:404-419 | the admission rule determines one outcome |
| SRPT.ChooseSlot | blocks/processor.go:404-419 | the scan picks the first nil slot; with none, the first of the slots with the most time left strictly above the new request's; with none, the heap |
| SRPT.NextTargetUnique | blocks/processor.go:427-438 | the next-target rule determines one slot or none |
| SRPT.NextTarget | blocks/processor.go:427-438 | the first busy slot of least remaining time below 100000, or none |
| SRPT.SRPTProcessor.constructor | blocks/processor.go:368-375 | workerCount nil slots and an empty heap |
| SRPT.SRPTProcessor.UpdateTimes | blocks/processor.go:377-386 | every busy slot is served for now − prevTime; the heap is untouched and the load is kept |
| SRPT.SRPTProcessor.Complete | blocks/processor.go:396-402 | drains the target slot and refills it from the heap minimum, or sets it nil when the heap is empty; the load drops by one; currIdx, targeted, d and prevTime are unchanged |
| SRPT.SRPTProcessor.Admit | blocks/processor.go:404-425 | the admission rule is applied: fill, evict the chosen request to the heap, or push the new one; the load rises by one; a non-empty heap still means no nil slot; currIdx, targeted, d and prevTime are unchanged |
| SRPT.SRPTProcessor.Retarget | blocks/processor.go:427-445 | targets the next-target slot with d its remaining time, or d = −1 when there is none |
| SRPT.SRPTProcessor.Step | blocks/processor.go:388-447 | one event with the whole new state: slots advanced, then completion or admission, the load ±1, workerCount slots, a non-empty heap only when the slots are full, and the next target with its d |
| SRPT.ArriveFirst | blocks/processor.go:388-447 | on one free slot, the first request of 5 arriving at time 0 takes the slot and leaves the heap empty |
| SRPT.ArriveLongThenShort | blocks/processor.go:388-447 | on one slot, a request of 5 and then one of 2 arriving at time 0: the 2 takes the slot and the 5 waits in the heap |
| SRPT.PreemptShorter | blocks/processor.go:388-447 | the preempting request of 2 finishes at 2 and the evicted one of 5 at 7 |
| Generators.Intn | blocks/adv_generators.go:50-51 | rand.Intn(n) is in [0, n), and undefined exactly when n ≤ 0 |
| Generators.CSelRand | blocks/adv_generators.go:81-83 | the cown index is an integer in [0, cownCount) |
| Generators.PBPick | blocks/adv_generators.go:50-54 | server i in [0, cpuCount) and sample j in [0, len(sTimes[i])), and the request carries that sample's service time for out queue i; none exactly where Intn faults |
| Generators.Cown.constructor | blocks/adv_generators.go:60-63 | unscheduled, with an empty queue |
| Generators.VeronaGenerator.constructor | blocks/adv_generators.go:124-145 | cownCount distinct fresh cowns, each unscheduled with an empty queue |
| Generators.VeronaGenerator.Step | blocks/adv_generators.go:108-122 | the request joins the tail of the chosen cown's queue; the cown is written to out queue Intn(n) exactly when it was unscheduled, and is scheduled afterwards |
| Generators.ScheduledOnce | blocks/adv_generators.go:108-122 | two requests for one cown: only the first writes it out, and both wait in arrival order |
| Verona.Probe | blocks/processor.go:233 | the probed queue index is in range |
| Verona.ProbeCovers | blocks/processor.go:232-233 | the probe order (base + i) mod n visits every queue |
| Verona.StealScanAsWritten | blocks/processor.go:229-243 | the scan as written tests and takes queue i, skipping the i whose probe index is 0: the first such non-empty queue, or none |
| Verona.StealScan | blocks/processor.go:229-243 | the intended scan takes a peer queue (index 0 < k < n) with work, the first in probe order; it finds none exactly when every peer queue is empty |
| Verona.StealScanCounterexample | blocks/processor.go:232-243 | queues [0, 0, 5] with base 1: the scan as written finds nothing while queue 2 has work; with [1, 1] and base 1 it takes queue 0, the processor's own |
| Verona.ChooseSource | blocks/processor.go:229-253 | with budget 0 it steals whenever a peer has work, from the first non-empty peer queue in probe order, and resets the budget to max(1, len(queue 0)); otherwise it reads locally, or from any queue when the local one is empty, and keeps the budget |
| Verona.VeronaProcessor.constructor | blocks/processor.go:220-222 | the quantum, and nextSteal 0 |
| Verona.VeronaProcessor.Pick | blocks/processor.go:229-253 | the corrected source choice of ChooseSource (a steal takes the first non-empty peer queue in probe order; a failed steal falls back to the local queue or, if it is empty, to any queue), with nextSteal ≥ 1 afterwards |
| Verona.VeronaProcessor.Serve | blocks/processor.go:255-265 | a TS step without context-switch cost, then nextSteal goes down by one, staying ≥ 0 |
| Verona.CownTurn | blocks/processor.go:313-327 | one turn of the batch loop: under bCount it pops the cown's head for service, or unschedules the cown when its queue is empty and ends the batch; at bCount it ends the batch and writes the cown back exactly when it is scheduled |
| Verona.VeronaProcessor2.constructor | blocks/processor.go:276-278 | bCount, fair, and nextSteal 0 |
| Verona.VeronaProcessor2.Pick | blocks/processor.go:285-309 | the same corrected source choice as VeronaProcessor |
| Verona.VeronaProcessor2.Turn | blocks/processor.go:313-332 | a CownTurn counted in the batch; the turn that ends the batch resets the count, and nextSteal goes down by one when fair and is pinned to 100 otherwise |
| Verona.VeronaProcessor2.QuietBatch | blocks/processor.go:313-332 | a batch with no arrival in between serves min(bCount, queue length) requests from the front in order, unschedules the cown exactly when the queue ran out first, and writes it back exactly when it is still scheduled |
| Verona.UnfairStealsOnce | blocks/processor.go:328-332 | an unfair processor steals on its first dispatch and never on the next |
| CownProtocol.InQueuesUpdate | blocks/adv_generators.go:117 | replacing one run queue changes a cown's count by exactly that queue's change |
| CownProtocol.HeldUpdate | blocks/processor.go:313 | changing one processor's cown changes the held count by exactly that change |
| CownProtocol.NothingAnywhere | blocks/adv_generators.go:128-133 | at the start no cown is queued or held |
| CownProtocol.Scheduler.constructor | blocks/adv_generators.go:124-145 | the generator's cowns, an empty run queue per core and idle processors satisfy the exclusivity invariant |
| CownProtocol.Scheduler.Arrive | blocks/adv_generators.go:108-122 | a generator round keeps the invariant: a cown joins a run queue exactly when it was unscheduled |
| CownProtocol.Scheduler.Take | blocks/processor.go:302-313 | a processor reading a cown from a run queue keeps the invariant |
| CownProtocol.Scheduler.Continue | blocks/processor.go:313-327 | one turn of a processor on the cown it holds, with arrivals possible between turns: it serves the head, or releases the emptied cown unscheduled, or after bCount requests writes it back to the processor's own run queue; the whole new state is given and the invariant kept |
| CownProtocol.HeldScheduled | blocks/adv_generators.go:115-118 | a cown a processor holds is scheduled, so the generator does not queue it again meanwhile |
| CownProtocol.ArrivalDuringBatch | blocks/adv_generators.go:108-119 | with bCount 2, a request arriving while the processor serves the first one is served in the same batch, the generator does not write the cown out again, and the cown goes back on the run queue |
| CownProtocol.AtMostOneRunQueue | blocks/adv_generators.go:115-119 | a cown is never twice on a run queue, never on two of them, never queued while a processor holds it, and nowhere while unscheduled |

## Left out

- Goroutines, channels and `select`: the kernel is one serialized machine, and an actor's step runs between two suspensions.
- The engine calls that the repository does not define (`WaitInterruptible`, `ReadInQueueI`, `GetInQueueLen`, `GetInQueueCount`, `ReadInQueuesRandLocalPr`, `WriteInQueue`, `GetOutQueueLen`) are inputs and outputs of each step, as described above. The older single-queue engine in engine/model.go does not define them.
- Requests.SubServiceTime: the repository defines `Request.SubServiceTime` only for `Cown`, where it panics. Its meaning for a request is assumed: the remaining service time goes down by d, and the creation time, the immutable service time and the propagation delay are kept. The TS, PS, SRPT and Verona processors rely on that meaning.
- Some faults that Go's callers never trigger are preconditions rather than error results:
  - Generators.VeronaGenerator.Step requires a cown index in range, and an out queue to draw from when the cown is unscheduled: `Intn(0)` panics.
  - PS.PSProcessor.Step and SRPT.SRPTProcessor.Step require that a timer was set when it fires, which is true of WaitInterruptible at every call site.
- `MonitorReq` (its `finalLength` update), `AllKeeper` and `SimpleReqCreator` are not part of this model. `ColoredReq` is a request with an optional colour.
- Randomness: `rand.Intn`, `rand.Seed`, the Zipf selector and every distribution in blocks/distributions.go. The draws are parameters.
- Trace-file loading in `NewPBGenerator`, because it is file I/O.
- Printing: `PrintStats`, `printPercentiles` and PQueue's print inside `Enqueue`. The `math.Sqrt` of `stddev` is also left out; `Variance` is the value under the root, which VarianceIsSpread shows to be non-negative.
- IEEE floating-point rounding: time and service times are mathematical reals.
- Go's `int` and `int64` width: counts are unbounded.
- blocks/basic_generators.go, blocks/generator.go, main.go, schedsim.go, the topology files and the scripts. The Verona topology's in-queue order (own queue first, then the peers) is a convention the Verona steps assume.
- The generator's `Wait` after each request: generator steps are separate calls.
- Engine.Kernel.Run: it consumes a finite sequence of replies and may stop with `OutOfReplies`, which the endless Go loop does not have.
- Prototype.ProtoModel.Run: it is bounded by a fuel count and may stop with `FuelExhausted` before the clock reaches 10.
- PS.PSProcessor.SetWorkerCount: it requires at least one worker. With 0 workers Go's `getFactor` returns 0 (or 0/0 with no request in flight), and the delay `d` divides by it.
- PS.PSProcessor.Step: the `curr` list element is an index into `reqList`.
- SRPT.SRPTProcessor.Step: the `curr` pointer is the slot index `currIdx`, and the drained request is that slot's content after `updateTimes`. A timer can fire only while one was set (`targeted`).
- Cowns and requests are different types here. Go's type assertion `r.(*Cown)` and the cown methods that always panic therefore cannot be reached, and are not modelled.
- Verona.StealScan, Verona.ChooseSource, Verona.VeronaProcessor.Pick and Verona.VeronaProcessor2.Pick model the corrected scan, the one that probes queue `idx`. The scan as written is `StealScanAsWritten`.
- Histograms.Histogram.GetPercentilesAsWritten returns `None` where the source indexes past the percentile list. The partial map built before the fault is not returned.

## Findings

| source | as written | input that shows it | evidently intended | confidence | as-written member | corrected member |
|---|---|---|---|---|---|---|
| blocks/request.go:107-111 | the minimum-bucket loop tests `percentiles[percentile_i]` without checking that `percentile_i` is still below 4 | samples all in one bucket, e.g. one sample of 5: all four percentiles are set in the first loop, and its next test reads `percentiles[4]` and panics | stop the first loop once all four percentiles are set, as the later check at line 112 expects | not executed | Histograms.Histogram.GetPercentilesAsWritten, Histograms.SingleBucketFaults, Histograms.OneSampleExample | Histograms.Histogram.GetPercentiles, Histograms.SingleBucketPercentiles, Histograms.ExpectedKeys |
| blocks/processor.go:232-243 (and 288-299) | the steal scan computes `idx := (base + i) % n` but tests and reads queue `i` | in-queue lengths [0, 0, 5] with base 1: queue 2 is never probed and nothing is stolen; with [1, 1] and base 1 the processor "steals" from its own queue 0 | test and read queue `idx`, which skips only the local queue 0 and visits every peer | not executed | Verona.StealScanAsWritten, Verona.StealScanCounterexample | Verona.StealScan, Verona.ChooseSource |
