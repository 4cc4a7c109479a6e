# A verified model of JKYi

JKYi is a C++ server framework in which threads multiplex fibers over epoll.
This project models the parts of it that are hard to get right and proves what
they are for. The state-changing classes of the source are Dafny classes whose
methods are proved equal to a step function on values; the properties are then
lemmas about those functions, over every input, every run or every
interleaving.

| files | what they model |
|---|---|
| `Basics` | definitions that several modules share |
| `Words`, `Varint`, `Wire`, `WireFormat`, `Blocks`, `ByteArray` | the chunked buffer and its codec: a linked list of fixed-size nodes that behaves as one flat byte string, and typed items written to it and read back |
| `Protocol` | request, response and notify messages on that buffer |
| `Timers`, `TimerRuns`, `TimerManager` | the ordered timer set, expiry, clock rollback and the front notification |
| `Scheduler`, `SchedulerPass`, `Discipline`, `Sleepers` | worker threads, the run queue and the fiber states, step by step; a whole pass of `run()`; what clients owe the scheduler, as a whole and fiber by fiber |
| `EventRegistry`, `EventRuns`, `EventSlots`, `IOManager` | event registrations and the epoll table |
| `DoIo`, `DoIoSystem`, `DoIoDeadlines`, `DoIoFrame` | the suspension protocol of hooked I/O, alone and inside the registry and the timer manager; when its timers are due; what it leaves alone |
| `Shutdown` | when `IOManager::stopping` is true |
| `Semaphore`, `BlockingQueue` | the fiber semaphore and the queue built on it |
| `FiberLife` | a fiber that suspends itself in `do_io` and in `FiberSemaphore::wait`, on the scheduler |
| `HttpHeaders`, `HttpGrammar`, `HttpDump`, `CStrings`, `HttpParams` | the generated header automaton and the texts it accepts; printing against it; parameter parsing |
| `ConnectionPool` | lease accounting of the HTTP connection pool |

## Main results

* **One flat byte string.** For any node size, `write`, `read`, `setPosition`,
  `clear`, `addCapacity`, the scatter views and `toString` act on the node list
  as on a flat string with a cursor. A null node is followed in two cases only,
  which the model keeps as outcomes: reading zero bytes at the capacity, and
  asking for views at a position beyond the size that reach past the capacity.
* **Stream and message round trip, exactly.** Any list of typed items, or of
  messages, written from any position, rewound and read comes back and stops at
  the same place if and only if every string fits its prefix and the list does
  not end with an empty string flush with the capacity. The format is fixed byte
  by byte, the readers are characterised on any bytes, and an encoding cut off
  anywhere makes its reader throw.
* **Timers.** `find` always succeeds on a live timer; a one-shot timer is handed
  out at most once and never after a successful cancel; a scan hands out exactly
  the due timers in order, each with the callback it was added with; and no wake-up is lost: in every run, if a deadline is
  earlier than the one some `getNextTimer` saw, a notification was sent since.
  This needs a clock that does not run backwards, written deadlines that fit 64
  bits, and no scan so stale that it passes for a clock set back; three runs show
  that each is needed, and it is stated exactly when a silent step does no harm.
* **Scheduler.** A fiber must have no wake-up outstanding when it registers for
  one, yields READY or ends. Under this discipline no interleaving lets two
  workers own a fiber or `swapIn` meet a running one. The discipline is exact: a
  step that breaks it leads to two owners even if everyone keeps it from then on,
  as soon as another worker is free to take the wake-up.
  Having at most one wake-up outstanding at any time is not enough. The same runs
  are allowed by a rule that each fiber can keep on its own: once registered, do
  nothing but yield to hold. No callback
  is lost or begun twice, and a task scheduled for a thread runs there. It is
  stated exactly when `stopping()` is true; it can be while a fiber still has to be
  requeued, and the exact condition for that is proved too.
* **Events.** In every run the pending count, the event bits, their contexts and
  the kernel table agree, and each registration ends exactly once.
* **Hooked I/O.** A call of `do_io`, its slot in the registry and its timers in
  the timer manager, with everyone else using both, behave for the call exactly
  as a small protocol: every act is a step of it or nothing, and every step can be
  brought about. In every interleaving the fiber is queued once for each
  registration that ended. A timeout needs a scan that is not before the beginning
  of some attempt plus the limit, and every such scan hands the timer out. The two ways in which a timeout goes astray are shown
  to happen and characterised exactly: in which states the timers can no longer
  end a suspension, and before which attempts an earlier attempt's timer can still
  end this one.
* **A fiber's life.** A fiber that suspends itself only in `do_io` and in
  `FiberSemaphore::wait`, any number of times, on any descriptors and semaphores,
  keeps the scheduler's discipline in every interleaving: it never has two owners,
  no wake-up is outstanding when it registers, and when it goes on its registration
  has ended.
* **Semaphore and queue.** Permits are conserved, waiters served in order, and
  `pop` never takes from an empty list in any interleaving.
* **HTTP.** The header automaton accepts exactly a given grammar of header lines,
  with exactly the fields they spell. Printed header fields come back from the automaton if and only if
  each name and value is one it can delimit; the same for a whole printed
  message with its body, and the receiver then agrees with the sender on closing the
  connection and on the length of the body. What parameter parsing finds in any text
  is stated exactly; joined parameters parse back if and only if no key holds `=` and
  no value the separator.
* **Pool.** `m_total` accounts for every connection in every interleaving and
  none is handed out more than `max(1, m_maxRequest)` times; the pool object keeps
  exactly these books.

Where the code departs from what one would expect of it, the model follows the
code, a lemma gives the departing input or run (`EmptyStringFollowsNull`,
`MisfitLost`, `OneWakeUpIsNotEnough`, `StoppingTooEarly`, `WakeUpsLost`,
`TimeoutLost`, `StaleTimeout`), and another states exactly when the property
holds. Two places follow the evident intent instead, because the code has no
defined behaviour or does not compile there: `FiberSemaphore::notify` uses its iterator after
`pop_front`, and `BlockingQueue::push` misspells `notify`.

## Model

| member | source | states |
|---|---|---|
| Words.ByteSwapInvolution | JKYi/endian.h:14-29 | swapping the bytes of a word reverses its memory image, and swapping twice gives the word back, at every width |
| Words.SwapGivesWireOrder | JKYi/bytearray.cc:95-132 | on either host, swapping exactly when the orders differ stores the word in the order asked for |
| Words.ReadGivesHostValue | JKYi/bytearray.cc:239-267 | on either host, the conditional swap after a read gives the value that the bytes denote in the order asked for |
| Words.MemoryRoundTrip | JKYi/bytearray.cc:95-132 | bytes stored in an order and read in it give the word back |
| Words.MemoryAt | JKYi/bytearray.cc:95-132 | byte i of an n-byte word in memory is the word divided by the i-th power of 256, modulo 256, in little order, and by the (n-1-i)-th power in big order |
| Words.MemoryMeans | JKYi/bytearray.cc:239-267 | the value of bytes in memory is the sum of each times that power of 256 |
| Varint.EncodeMeaning | JKYi/bytearray.cc:164-188 | the groups of seven bits denote the number (Protocol Buffers encoding guide, "Base 128 Varints") |
| Varint.EncodeAt | JKYi/bytearray.cc:164-188 | byte i holds the seven bits of the i-th power of 128, and its top bit says whether another follows |
| Varint.EncodeTerminated | JKYi/bytearray.cc:164-188 | every byte but the last carries the continuation bit, and the last does not |
| Varint.EncodeMinimal | JKYi/bytearray.cc:164-188 | no byte string denoting the number is shorter than its encoding |
| Varint.EncodeLength | JKYi/bytearray.cc:164-188 | the length is the number of base-128 digits |
| Varint.EncodeFits | JKYi/bytearray.cc:164-188 | 32-bit numbers take at most 5 bytes and 64-bit ones at most 10, so the temporary array is never overrun |
| Varint.ZigzagMeaning | JKYi/bytearray.cc:135-158 | under two's-complement wrap-around the mapping is 2v for v >= 0 and -2v - 1 otherwise ("Signed Integers"), also for the smallest value |
| Varint.ZigzagRoundTrip | JKYi/bytearray.cc:135-158 | decoding inverts encoding on every signed word |
| Varint.ZigzagOnto | JKYi/bytearray.cc:135-158 | encoding inverts decoding on every unsigned word, so the mapping is a bijection |
| Wire.WordRoundTrip | JKYi/bytearray.cc:229-267 | a fixed-width word that stands at the cursor is read back and its bytes consumed |
| Wire.VarintRoundTrip | JKYi/bytearray.cc:275-305 | the reader consumes exactly the bytes of a varint and returns its value |
| Wire.ItemRoundTrip | JKYi/bytearray.cc:88-349 | any typed item that fits its prefix comes back, except that an empty string flush with the capacity makes the reader follow a null node |
| Wire.MisfitLost | JKYi/bytearray.cc:203-216 | a string longer than its length prefix can say never comes back |
| Wire.StreamRoundTrip | JKYi/bytearray.cc:88-349 | any list of fitting items comes back whole with the cursor behind it, or its last item is the trailing empty string |
| Wire.MisfitStreamLost | JKYi/bytearray.cc:203-216 | a list with a string that does not fit its prefix does not come back |
| Wire.WriteRewindRead | JKYi/bytearray.cc:88-349 | write any typed items, set the position back and read the same kinds: the same values and the same final position, if and only if all strings fit and there is no trailing empty string flush with the capacity |
| Wire.EmptyStringFollowsNull | JKYi/bytearray.cc:411-420 | the exception occurs: an empty string in a one-byte node |
| Wire.WroteThen | JKYi/bytearray.cc:368-408 | two writes in a row are one write of both byte strings |
| WireFormat.EncodeLayout | JKYi/bytearray.cc:88-224 | the bytes of each kind: a word in its order, two's complement if signed; a terminated varint of the number, or of its zigzag number; the length as such a word or varint and then the bytes of the string |
| WireFormat.ReadBytesMeans | JKYi/bytearray.cc:411-420 | a read gives the bytes behind the cursor if that many are in use and throws otherwise, leaving the cursor; only reading nothing at the capacity follows the null node |
| WireFormat.ReadVarintMeans | JKYi/bytearray.cc:275-305 | on any bytes: the reader stops behind the first byte below 0x80, or after 5 or 10 bytes, with the number they denote cut to the word; it throws if the bytes in use end before |
| WireFormat.ReadNumberMeans | JKYi/bytearray.cc:229-305 | on any bytes: a fixed-width number is the weighted sum of its bytes, two's complement if signed; a signed varint is the zigzag preimage |
| WireFormat.ReadTextMeans | JKYi/bytearray.cc:322-349 | on any bytes: a string is as many bytes behind its length as the length says |
| WireFormat.CutOffThrows | JKYi/bytearray.cc:229-349 | the encoding of any fitting item, cut off anywhere, makes its reader throw |
| ByteArrays.ByteArray.constructor | JKYi/bytearray.cc:38-46 | one node of the base size, nothing written, network byte order |
| ByteArrays.ByteArray.FromData | JKYi/bytearray.cc:48-61 | a buffer around the caller's memory, all of which counts as written |
| ByteArrays.ByteArray.SetIsLittleEndian | JKYi/bytearray.cc:79-85 | sets the byte order and nothing else |
| ByteArrays.ByteArray.Clear | JKYi/bytearray.cc:352-365 | cursor, size and capacity go back to one node; the list is cut behind the root |
| ByteArrays.ByteArray.Write | JKYi/bytearray.cc:368-408 | for any node size, the flat string changes exactly under the write, the cursor moves past it, size becomes the maximum, capacity grows only when needed and by less than a node too much |
| ByteArrays.ByteArray.CopyAll | JKYi/bytearray.cc:378-402 | the copying loop splices the bytes into the flat string across node boundaries and leaves the cursor node right |
| ByteArrays.ByteArray.Read | JKYi/bytearray.cc:411-440 | reading is reading the flat string: the bytes asked for, out of range, or the null node at the capacity |
| ByteArrays.ByteArray.TakeAll | JKYi/bytearray.cc:418-438 | the copying loop returns the flat slice across node boundaries |
| ByteArrays.ByteArray.SetPosition | JKYi/bytearray.cc:474-491 | refused exactly beyond the capacity; otherwise cursor node and position agree and size becomes the maximum |
| ByteArrays.ByteArray.AddCapacity | JKYi/bytearray.cc:540-570 | room for n more bytes, existing bytes kept, a null cursor node replaced by the first new node |
| ByteArrays.ByteArray.GetReadBuffers | JKYi/bytearray.cc:596-625 | the views concatenate to the flat slice behind the cursor, cut to what is there; nothing changes |
| ByteArrays.ByteArray.GetReadBuffersAt | JKYi/bytearray.cc:627-661 | for every position: within the data, the views concatenate to the flat slice cut to what is there; beyond the size the unsigned difference wraps around and the views show what was asked for, or a null node is followed exactly when that passes the capacity |
| ByteArrays.ByteArray.GetWriteBuffers | JKYi/bytearray.cc:664-695 | the views cover n bytes from the cursor on end to end, in grown capacity; nothing is written |
| ByteArrays.ByteArray.CoverGathers | JKYi/bytearray.cc:596-661 | views that cover a stretch show what the flat string holds there |
| ByteArrays.ByteArray.Fill | JKYi/bytearray.cc:664-695 | filling covering views in order splices the data into the flat string |
| ByteArrays.ByteArray.WriteThroughViews | JKYi/bytearray.cc:664-695 | taking write views, filling them and moving the position past them is the same as `write` |
| ByteArrays.ByteArray.ToString | JKYi/bytearray.cc:572-580 | the bytes between cursor and size |
| ByteArrays.ByteArray.WriteWord | JKYi/bytearray.cc:88-132 | writes the word's bytes in the order in force: each byte of the flat string behind the old cursor is that digit of the word in base 256 |
| ByteArrays.ByteArray.WriteVarint | JKYi/bytearray.cc:164-188 | the loop over the temporary array writes the varint encoding |
| ByteArrays.ByteArray.WriteZigzag | JKYi/bytearray.cc:160-178 | writes the varint of the zigzag word |
| ByteArrays.ByteArray.WriteString | JKYi/bytearray.cc:203-216 | writes the length cut to the prefix width, then the bytes |
| ByteArrays.ByteArray.WriteStringVint | JKYi/bytearray.cc:218-221 | writes the length as a varint, then the bytes |
| ByteArrays.ByteArray.ReadWord | JKYi/bytearray.cc:229-267 | reads a word of the flat string in the order in force: the sum of the bytes behind the old cursor, each times its power of 256 |
| ByteArrays.ByteArray.ReadVarint | JKYi/bytearray.cc:275-305 | the shifting loop reads groups until a final one or the width is exhausted, as the flat reader does, failures included |
| ByteArrays.ByteArray.ReadItem | JKYi/bytearray.cc:229-349 | every typed reader agrees with the flat reader of its kind |
| ByteArrays.ByteArray.WriteAll | JKYi/bytearray.cc:88-225 | a sequence of typed writes writes the concatenated encodings |
| ByteArrays.ByteArray.ReadAll | JKYi/bytearray.cc:229-349 | a sequence of typed reads is the flat reader of the list, up to the first failure |
| ByteArrays.RoundTrip | JKYi/bytearray.cc:88-349 | on the real node list, writing items, setting the position back and reading them returns them exactly under the condition of `WriteRewindRead` |
| Protocol.BodyRoundTrip | JKYi/protocol.cc:19-64 | parsing a serialized message gives all its fields back and consumes it, trailing empty string aside |
| Protocol.BytesMean | JKYi/protocol.cc:19-60 | a message is 1, 2 or 3, then its numbers as varints in the order of the class, and the text behind its length |
| Protocol.MessagesRoundTrip | JKYi/protocol.cc:19-64 | any concatenation of messages comes back message by message |
| Protocol.WriteRewindParse | JKYi/protocol.cc:19-64 | messages written, rewound and parsed come back and consume exactly the bytes written, if and only if the last is not a response whose empty string is flush with the capacity |
| Protocol.Serialize | JKYi/protocol.cc:19-60 | serializing writes the type byte and the fields of the message |
| Protocol.SerializeResponse | JKYi/protocol.cc:37-44 | the four fields of a response in order |
| Protocol.Parse | JKYi/protocol.cc:25-64 | parsing reads the fields in order and stops at the first failure |
| Protocol.RoundTrip | JKYi/protocol.cc:19-64 | on the real node list, messages written, rewound and parsed by their type bytes come back exactly under the condition of `WriteRewindParse` |
| Timers.InsertSorted | JKYi/timer.cc:9-29 | inserting keeps the set strictly ordered by deadline and then address |
| Timers.OrderMeans | JKYi/timer.cc:9-29 | the set is in the order of deadlines, equal ones in the order of addresses |
| Timers.FindFinds | JKYi/timer.cc:49-86 | while timers are stored under their current deadlines, `find` finds every stored timer |
| Timers.AddMeans | JKYi/timer.cc:110-201 | the new timer is stored under now + ms; a notification is sent exactly when it is the earliest and none was sent since the last getNextTimer |
| Timers.CancelMeans | JKYi/timer.cc:44-54 | succeeds exactly on a live timer, which loses its callback and its place; nothing else changes |
| Timers.RefreshMeans | JKYi/timer.cc:56-71 | succeeds exactly on a live timer, which is due a full period from now; no notification |
| Timers.ResetMeans | JKYi/timer.cc:73-100 | the new period counts from now or from the old start; same period and not from now succeeds without effect, also on a dead timer |
| Timers.ListExpiredKeeps | JKYi/timer.cc:146-189 | after a scan a timer is in the set exactly while it has a callback, under its current deadline |
| Timers.RolloverMeans | JKYi/timer.cc:208-218 | the clock counts as set back when it lost over an hour, or anything at all within the first hour of its range (unsigned subtraction) |
| Timers.ExpiredExactly | JKYi/timer.cc:146-175 | without rollback exactly the timers due by now expire, whatever the address of the probe timer; with rollback all do |
| Timers.ListExpiredExactly | JKYi/timer.cc:146-189 | the callbacks returned are those of exactly the expired timers in deadline order; recurring ones get a full period from now and keep everything else, one-shot ones lose their callback and nothing else, other timers are untouched, and the time of the scan is remembered |
| Timers.NothingDueAfter | JKYi/timer.cc:146-189 | after a scan every remaining deadline is later than now, if and only if every recurring timer that it starts over gets a later deadline |
| TimerRuns.ApplyLifecycle | JKYi/timer.cc:44-189 | one call hands a timer out at most once, only while it is live, and a dead timer stays dead |
| TimerRuns.OneShotOnceEver | JKYi/timer.cc:44-189 | over any run of any manager, a timer made in the run as a one-shot timer is handed out at most once |
| TimerRuns.NeverAfterCancel | JKYi/timer.cc:44-189 | over any run no timer is handed out after a successful cancel |
| TimerRuns.CallbackKeptEver | JKYi/timer.cc:44-189 | over any run every hand-out of a timer gives the callback it was added with |
| TimerRuns.WatchKeeps | JKYi/timer.cc:56-201 | every operation keeps `m_next - m_ms <= now`, and with it that deadlines earlier than a reported one have been notified |
| TimerRuns.HistoryKeeps | JKYi/timer.cc:56-201 | that invariant in every state of every run |
| TimerRuns.NoLostWakeUp | JKYi/timer.cc:56-201 | in every run of a new manager with a clock that does not run backwards, written deadlines below 2^64 and no scan that moves a deadline forward, for every getNextTimer call: a stored deadline earlier than the one it saw implies a front notification since |
| TimerRuns.RefreshCovered | JKYi/timer.cc:56-71 | refresh is silent, and a report of the front deadline is still good after it if and only if the new deadline is no earlier |
| TimerRuns.ExpireCovered | JKYi/timer.cc:146-189 | a scan is silent, and a report of the front deadline is still good after it if and only if no recurring timer that it starts over is due earlier |
| TimerRuns.WakeUpsLost | JKYi/timer.cc:56-189 | three runs that lose a wake-up: a refresh with the clock set back, a refresh whose deadline overflows, and a scan whose stale reading passes for a clock set back |
| TimerRuns.SleepUntilFront | JKYi/timer.cc:128-144 | getNextTimer sleeps until the front deadline, not at all when it has passed, for ever when there is none |
| TimerManagers.TimerManager.AddTimer | JKYi/timer.cc:110-115 | on timer objects, the same as `Timers.Add` |
| TimerManagers.TimerManager.AddSorted | JKYi/timer.cc:191-201 | insertion into the set and the front notification |
| TimerManagers.TimerManager.Cancel | JKYi/timer.cc:44-54 | on timer objects, the same as `Timers.Cancel` |
| TimerManagers.TimerManager.Refresh | JKYi/timer.cc:56-71 | on timer objects, the same as `Timers.Refresh` |
| TimerManagers.TimerManager.Reset | JKYi/timer.cc:73-100 | on timer objects, the same as `Timers.Reset` |
| TimerManagers.TimerManager.GetNextTimer | JKYi/timer.cc:128-144 | on timer objects, the same as `Timers.NextTimer` |
| TimerManagers.TimerManager.ListExpiredCb | JKYi/timer.cc:146-189 | the lower_bound search, the scan over equal deadlines and the loop over the expired give the callbacks and the set of `Timers.ListExpired` |
| Scheduler.FirstEligible | JKYi/scheduler.cc:171-195 | the first queued task not pinned elsewhere and whose fiber is not executing |
| Scheduler.Scan | JKYi/scheduler.cc:169-195 | the scan loop finds that task, and wants another worker woken exactly when it passed a task pinned elsewhere or tasks remain behind |
| Scheduler.TakeInOrder | JKYi/scheduler.cc:171-195 | a take removes the first task that is neither pinned to another thread nor of an executing fiber, keeps the order of the rest and is counted |
| Scheduler.QueueMoves | JKYi/scheduler.cc:165-240 | which step puts which task behind all others, and for which thread |
| Scheduler.StateChanges | JKYi/fiber.cc:99-225 | which step takes a fiber from which state to which |
| Scheduler.CbFibers | JKYi/scheduler.cc:207-229 | a worker's cb_fiber is made for its first callback, used again for the next, and given up when a callback leaves it alive |
| Scheduler.NewFibers | JKYi/scheduler.cc:207-229 | fibers are made by spawning them, and for a callback only when the worker has no cb_fiber |
| Scheduler.PinnedTasks | JKYi/scheduler.cc:171-195 | in every interleaving a task scheduled for a thread is taken by that thread only |
| Scheduler.ApplyKeeps | JKYi/scheduler.cc:165-240 | every step of every worker keeps the invariant: at most one wake-up and one owner per fiber, state and owner's progress agree, `m_activeThreadCount` is the number of workers holding a task |
| Scheduler.ExclusiveExecution | JKYi/scheduler.cc:171-224 | in every disciplined interleaving at most one worker has a fiber in its hands, also when its wake-up is queued before it has yielded |
| Scheduler.SwapInNeverSeesExec | JKYi/fiber.cc:99-181 | in every disciplined interleaving the assertions of `swapIn` and `reset` hold |
| Discipline.UndisciplinedHurts | JKYi/scheduler.cc:171-224 | from any state disciplined clients can reach, a step that registers, yields READY or ends with a wake-up outstanding leads to two owners by disciplined steps alone, as soon as another worker is free to take the wake-up |
| Discipline.DisciplineIsExact | JKYi/scheduler.cc:171-224 | such a step is safe, whatever disciplined steps follow, if and only if it keeps the discipline |
| Discipline.OneWakeUpIsNotEnough | JKYi/scheduler.cc:171-224 | runs in which no fiber ever has two wake-ups and yet two workers own one: it yields READY, or ends, while its wake-up is queued |
| Discipline.ParkingTwiceHurts | JKYi/scheduler.cc:171-224 | a fiber that registers twice ends up with two owners |
| Sleepers.ObeysIsDisciplined | JKYi/scheduler.cc:171-224 | for a fiber that runs, not having registered since it was entered is the same as having no wake-up outstanding, so the rule of the fiber and the discipline allow the same step |
| Sleepers.StepTold | JKYi/scheduler.cc:165-229 | every step keeps it so: a running fiber has one wake-up outstanding if it has registered since it was entered, and none otherwise |
| Sleepers.ObeyingIsDisciplined | JKYi/scheduler.cc:165-229 | a run is disciplined if and only if every fiber, once registered, does nothing but yield to hold before it is entered again |
| Sleepers.ObedientFibersRunAlone | JKYi/scheduler.cc:165-229 | in every run in which all fibers keep to that rule, at most one worker has a fiber in its hands |
| Discipline.Reach | JKYi/scheduler.cc:165-229 | an undisturbed worker gets to a task it may run whatever stands before it in the queue |
| Scheduler.StoppingMeans | JKYi/scheduler.cc:247-253 | when stopping() is true no task is queued or held, and nothing is left exactly when no worker is about to requeue a READY fiber |
| Scheduler.StoppingExactly | JKYi/scheduler.cc:247-253 | in every disciplined run stopping() is true if and only if stop() has been called, nothing is queued and no worker has a task in its hands that it counts |
| Scheduler.StoppingInRuns | JKYi/scheduler.cc:198-253 | the same in every disciplined run |
| Scheduler.StoppingTooEarly | JKYi/scheduler.cc:198-253 | a run in which stopping() is true although a READY fiber is about to be requeued, because the counter drops first |
| Scheduler.RunConserves | JKYi/scheduler.h:79-87 | over any run each scheduled callback is queued once, held by one worker, or begun |
| Scheduler.CallbacksOnce | JKYi/scheduler.cc:207-224 | over any run a callback about to begin was scheduled, has not begun and is not queued |
| SchedulerPasses.TaskScheduler.ScheduleNoLock | JKYi/scheduler.h:79-87 | appends the new entry; a worker has to be woken exactly when the queue was empty |
| SchedulerPasses.TaskScheduler.TakeTask | JKYi/scheduler.cc:169-191 | takes the first entry the worker may run, keeps the order of the rest and counts it, or changes nothing; asks for another worker exactly when it passed an entry pinned elsewhere or entries remain |
| SchedulerPasses.TaskScheduler.Pass | JKYi/scheduler.cc:165-229 | one pass over either kind of task and every outcome: the counter is back where it was, the fiber is left READY behind everything else, HOLD, TERM, EXCEPT or reset, a finished fiber in the queue is dropped, and the worker keeps exactly a cb_fiber that finished |
| SchedulerPasses.PassIsRun | JKYi/scheduler.cc:165-229 | the state machine of an undisturbed worker makes exactly such a pass and touches nothing else |
| Shutdown.NoTimerMeans | JKYi/iomanager.cc:269-274 | the largest sleeping time means that there is no timer, or a timer due then on a clock that shows 0 |
| Shutdown.StoppingMeans | JKYi/iomanager.cc:269-279 | stopping() as one step on a running clock implies no timer, no registration, an empty kernel table, no held task, and nothing left exactly when no worker is about to requeue a READY fiber |
| Shutdown.StoppingExactly | JKYi/iomanager.cc:269-279 | on a running clock and in every disciplined run, stopping() is true if and only if no timer is live, nobody waits for an event, stop() has been called, nothing is queued and no worker has a task in its hands that it counts |
| EventRegistry.AddEventKeeps | JKYi/iomanager.cc:103-152 | keeps the registry invariant; aborts exactly on a bit that is set, fails exactly when epoll_ctl does, and the ADD or MOD chosen is legal; fills the slot with scheduler and waiter, grows the table to half as much again as the descriptor, and leaves every other slot alone |
| EventRegistry.DelEventKeeps | JKYi/iomanager.cc:154-184 | succeeds exactly on a set bit when epoll_ctl does; empties that slot and no other; nobody is queued; the MOD or DEL chosen is legal |
| EventRegistry.CancelEventKeeps | JKYi/iomanager.cc:186-215 | succeeds exactly on a set bit when epoll_ctl does, empties that slot and no other, and queues exactly its waiter |
| EventRegistry.CancelAllKeeps | JKYi/iomanager.cc:217-252 | empties both slots of the descriptor and no other, and queues exactly the waiters of all set bits |
| EventRegistry.TriggerEmpties | JKYi/iomanager.cc:29-50 | triggering empties the slot and queues exactly its waiter |
| EventRegistry.DispatchKeeps | JKYi/iomanager.cc:329-362 | queues exactly the waiters of the reported bits; aborts if and only if it acts on a report that names a bit that is not registered |
| EventRegistry.DispatchMeans | JKYi/iomanager.cc:329-362 | an error or hang-up counts for every registered event, any other report for the events it names; the waiters of these are queued, READ first, and their slots and no others emptied, unless the report names an event that is not registered |
| EventRuns.RegistryAgrees | JKYi/iomanager.cc:29-362 | in every run the pending count is the number of set bits, a bit is set exactly while its context holds a scheduler and one waiter, and the kernel table holds exactly the bits |
| EventRuns.EndedOnce | JKYi/iomanager.cc:29-362 | in every run each registration is live or was ended exactly once, and its waiter was queued once unless delEvent ended it |
| IOManagers.IOManager.ContextResize | JKYi/iomanager.cc:92-101 | existing contexts stay, new ones are empty |
| IOManagers.IOManager.TriggerEvent | JKYi/iomanager.cc:35-50 | on context objects, the same as the step on values |
| IOManagers.IOManager.AddEvent | JKYi/iomanager.cc:103-152 | on context objects, the same as the step on values, growth included |
| IOManagers.IOManager.DelEvent | JKYi/iomanager.cc:154-184 | on context objects, the same as the step on values |
| IOManagers.IOManager.CancelEvent | JKYi/iomanager.cc:186-215 | on context objects, the same as the step on values |
| IOManagers.IOManager.CancelAll | JKYi/iomanager.cc:217-252 | on context objects, the same as the step on values |
| IOManagers.IOManager.Dispatch | JKYi/iomanager.cc:329-362 | on context objects, the same as the step on values |
| EventSlots.OthersEffect | JKYi/iomanager.cc:29-362 | any operation of others leaves a registration and the queue entries of its fiber alone, or ends it and queues the fiber once |
| DoIoSystem.Simulates | JKYi/hook.cc:94-172 | every act of the call, of scans, of callbacks and of anyone else on the registry and the timers keeps the system well-formed and is, for the call, a step of the protocol or nothing |
| DoIoSystem.Realizes | JKYi/hook.cc:94-172 | every step of the protocol can be brought about by an act in the system |
| DoIoSystem.QueuedOncePerSuspension | JKYi/hook.cc:118-168 | in every call of a fiber, the first or a later one, and in every interleaving with the registry, the timer manager and everyone else, the fiber has been handed to a scheduler since the call began as often as it has registered, less one while its bit is set; none is left over while it is not suspended |
| DoIoSystem.TimeoutNeedsCallback | JKYi/hook.cc:131-166 | a timeout is returned only after the callback of one of the call's timers, handed out by a scan, has started |
| DoIoSystem.LateCallbacks | JKYi/hook.cc:131-143 | once the call has returned, a callback that begins later sets no flag and cancels no event, and the result stays |
| DoIoDeadlines.AgainArms | JKYi/hook.cc:129-143 | an attempt of a call with a limit arms a one-shot timer due at the time of the attempt plus the limit |
| DoIoDeadlines.HandedOutExactly | JKYi/hook.cc:129-143 | in every state of every run, a scan hands out the pending timer of an attempt if and only if the limit is over since the attempt began, or its reading passes for a clock set back |
| DoIoDeadlines.TimeoutNotBefore | JKYi/hook.cc:129-166 | a call fails with a timeout only after a scan whose reading was not before the beginning of some attempt plus the limit, unless the scan took it for a clock set back or the sum does not fit 64 bits |
| DoIoFrame.SlotsUntouched | JKYi/hook.cc:131-166 | the call, the scans and its callbacks change no slot but its own and queue no fiber but its own |
| DoIoFrame.TimersUntouched | JKYi/hook.cc:129-166 | apart from scans, the call and its callbacks change no timer but its own |
| DoIoSystem.TimeoutStillComes | JKYi/hook.cc:125-168 | scans and callbacks alone can still end the suspension if and only if the flag is not yet set or a callback stands between setting it and cancelEvent |
| DoIoSystem.TimeoutLost | JKYi/hook.cc:129-155 | from any initial state with a time limit there is a run in which the callback comes before addEvent and the fiber waits without a limit |
| DoIoSystem.StaleTimeout | JKYi/hook.cc:118-168 | from any initial state with a time limit there is a run that fails with a timeout although the timer of the last attempt was never handed out |
| DoIoSystem.EarlyTimeoutExactly | JKYi/hook.cc:118-168 | in any state that a call can reach before an attempt, that attempt can fail with a timeout although its own timer is never handed out if and only if the flag is already set or the callback of an earlier attempt has been handed out and has not begun |
| FiberLife.InCallEnabled | JKYi/hook.cc:146-166 | a fiber that goes on after the suspension in `do_io` has been queued for it: its registration has ended, so the system takes the step without a guard of its own |
| FiberLife.LaunchedBegins | JKYi/scheduler.cc:165-229 | such an interleaving can begin with the first fiber of a new scheduler, whatever the registry and the timers hold |
| FiberLife.NextInitial | JKYi/hook.cc:94-172 | after `do_io` has returned, the fiber is in the initial state of another call, with any time limit, on any event for which nobody waits |
| FiberLife.ApplyKeeps | JKYi/hook.cc:94-172 | every step of a fiber that suspends itself only in `do_io` and `wait`, and of everyone else, keeps the books: it is registered with the scheduler's clients exactly as often as it waits for an event or a semaphore; and each step of the scheduler it causes is possible and disciplined |
| FiberLife.TraceDisciplined | JKYi/scheduler.cc:165-229 | the steps that the scheduler sees in any such interleaving are a disciplined run |
| FiberLife.SuspendsSafely | JKYi/hook.cc:118-168 | in any such interleaving at most one worker has the fiber in its hands, no wake-up is outstanding whenever it may register, and when it goes on in `do_io` its registration has ended and queued it once |
| Semaphores.FiberSemaphore.TryWait | JKYi/mutex.cc:39-49 | keeps the books (nobody waits beside a free permit; permits, passes and releases balance; release order is arrival order), succeeds exactly when a permit was free, and touches no waiter |
| Semaphores.FiberSemaphore.Wait | JKYi/mutex.cc:51-62 | keeps the books, passes exactly when a permit was free, and otherwise the fiber is the last to have been suspended |
| Semaphores.FiberSemaphore.Notify | JKYi/mutex.cc:64-75 | keeps the books, and resumes, if anyone waits, the fiber suspended longest |
| Semaphores.PermitsConserved | JKYi/mutex.cc:39-75 | over every run: waiters only at zero permits, permits plus passes plus releases equal initial count plus notifies, waiters released in order |
| BlockingQueues.ApplyKeepsBalance | JKYi/ds/blocking_queue.h:20-35 | every step keeps: list length is permits plus granted pops plus unannounced pushes, and nothing was taken from an empty list |
| BlockingQueues.NeverPopsEmpty | JKYi/ds/blocking_queue.h:20-35 | in every interleaving pop never takes from an empty list, the values popped are the first ones pushed, in order, the rest is in the list, and waiters are served in order |
| BlockingQueues.NobodyForgotten | JKYi/ds/blocking_queue.h:20-35 | a fiber waits beside a non-empty list only while a push has yet to notify or a granted pop has yet to take |
| BlockingQueues.BlockingQueue.AppendData | JKYi/ds/blocking_queue.h:21-24 | the locked half of push is the append step and keeps every invariant of the queue |
| BlockingQueues.BlockingQueue.NotifyOne | JKYi/ds/blocking_queue.h:25 | the other half is the announce step and keeps every invariant |
| BlockingQueues.BlockingQueue.Push | JKYi/ds/blocking_queue.h:20-27 | both halves together append the value and answer the new length |
| BlockingQueues.BlockingQueue.BeginPop | JKYi/ds/blocking_queue.h:29-30 | the wait of pop is the await step, keeps every invariant, and passes exactly when the fiber may take a value |
| BlockingQueues.BlockingQueue.FinishPop | JKYi/ds/blocking_queue.h:31-35 | a fiber let through finds a value, the oldest not yet popped |
| HttpHeaders.HttpParser.InName | JKYi/http/http11_parser.rl.cc:370-628 | the transitions of states 13, 14 and 18 with their marks |
| HttpHeaders.HttpParser.InValue | JKYi/http/http11_parser.rl.cc:352-517 | the transitions of states 15, 16 and 17 with their marks and the field callback |
| HttpHeaders.HttpParser.Execute | JKYi/http/http11_parser.rl.cc:6654-6671 | the loop from state 13 is the automaton run, and the assertions made on leaving hold for every buffer |
| HttpHeaders.RunSound | JKYi/http/http11_parser.rl.cc:370-628 | on any buffer only well-formed fields are emitted: a delimitable name, a value free of NUL, CR, LF and DEL that does not start with a blank |
| HttpHeaders.RunBlock | JKYi/http/http11_parser.rl.cc:370-628 | over any printed block with such names and value bytes the fields are emitted in order without the blanks that lead a value, ending in state 348 just past the blank line |
| HttpHeaders.PrintParse | JKYi/http/http.cc:173-184 | for every list of fields: the automaton gives back exactly the printed list, ends in state 348 and sets body_start just past the blank line, if and only if every field is well-formed |
| HttpHeaders.EmittedFieldsReparse | JKYi/http/http11_parser.rl.cc:370-628 | the fields emitted for any buffer print to a block that gives them back |
| HttpHeaders.TokensAreNames | JKYi/http/http11_parser.rl.cc:375-405 | every token of section 3.2.6 of RFC 7230 is a name the automaton delimits |
| HttpGrammar.LanguageExactly | JKYi/http/http11_parser.rl.cc:360-530 | the automaton ends behind a blank line with given fields if and only if the text up to there is a block of header lines that spell them: a name, a colon, blanks, a value, LF or CR LF |
| HttpGrammar.NameByteMeans | JKYi/http/http11_parser.rl.cc:375-405 | the bytes of a name are the ASCII characters but NUL, DEL, blank, tab and the separators |
| HttpDump.DumpHeaders | JKYi/http/http.cc:173-178 | the header loop prints each field but a connection field of a plain message |
| HttpDump.DumpCookies | JKYi/http/http.cc:322-324 | the cookie loop prints one Set-Cookie line each |
| HttpDump.Dump | JKYi/http/http.cc:302-332 | the text is the start line, the announced fields as a header block, and the body; for requests (156-186) the same without cookies |
| HttpDump.DecimalMeans | JKYi/http/http.cc:180 | the printed content length denotes the size of the body |
| HttpDump.DumpParse | JKYi/http/http.cc:156-186 | the automaton started behind the start line of a printed request gives back exactly the announced fields and finds the body, if and only if every printed header is well-formed |
| HttpDump.ReceiverAgrees | JKYi/http/http.cc:189-198 | a receiver that stores the fields and calls init() closes the connection exactly when the sender said so, unless this is a web socket, reads the length of the body that was sent, and finds every other header as it was set |
| HttpDump.CookieCount | JKYi/http/http.cc:322-324 | there is one Set-Cookie field for each cookie, in order |
| HttpDump.Spelled | JKYi/http/http.cc:156-186 | the names and values printed are those of the source |
| CStrings.SameKey | JKYi/http/http.cc:54-58 | two keys are equivalent in the map exactly when, up to their first NUL, they differ in the case of letters only |
| CStrings.KeyMeans | JKYi/http/http.cc:54-58 | a key is what c_str() shows, in small letters |
| CStrings.VisibleMeans | JKYi/http/http.cc:54-58 | c_str() shows the bytes up to the first NUL |
| HttpParams.ParseParam | JKYi/http/http.cc:208-224 | the scanning loop terminates and inserts exactly the pairs of the recursive reading |
| HttpParams.PairsExactly | JKYi/http/http.cc:208-224 | in any text the loop finds given pairs if and only if no key holds '=', no value the separator, and the text is the pairs joined, followed by nothing or by a separator and text without '=' |
| HttpParams.JoinParse | JKYi/http/http.cc:208-224 | for every list of pairs: the joined text parses back to it if and only if no key holds '=' and no value holds the separator |
| HttpParams.ContainsMeans | JKYi/http/http.cc:235-239 | the needle is found anywhere before the first NUL, in any mixture of cases |
| HttpParams.Spelled | JKYi/http/http.cc:208-239 | the names and separators looked for are those of the source |
| HttpParams.FirstWins | JKYi/http/http.cc:218-219 | existing entries stay, and each other key, without regard to case, gets its first value |
| HttpParams.LookupMeans | JKYi/http/http.cc:82-88 | a lookup finds what was set, else the first such query parameter, else the first such form parameter |
| HttpParams.QueryBeforeBody | JKYi/http/http.cc:204-241 | printed query and form lists give each key its first value, the query before the body |
| HttpParams.ResolvedTwice | JKYi/http/http.cc:204-241 | repeated lookups change nothing |
| HttpParams.HttpRequest.InitQueryParam | JKYi/http/http.cc:204-229 | parses the query once |
| HttpParams.HttpRequest.InitBodyParam | JKYi/http/http.cc:230-241 | parses the body once, and only for a form content type, without regard to case |
| HttpParams.HttpRequest.GetParam | JKYi/http/http.cc:82-88 | resolves the request and looks the key up without regard to case |
| ConnectionPools.ScanKeeps | JKYi/http/http_connection.cc:296-319 | the scan keeps the accounts, and what it hands out was idle and not leased |
| ConnectionPools.ScanMeans | JKYi/http/http_connection.cc:296-319 | getConnection takes the first idle connection that is up and not too old, deletes those before it and leaves those behind it in order |
| ConnectionPools.ReleaseKeeps | JKYi/http/http_connection.cc:343-360 | a release keeps the accounts |
| ConnectionPools.ReleaseMeans | JKYi/http/http_connection.cc:343-360 | a connection that comes back is kept behind all idle ones if it is up, not too old and not used up; otherwise it is deleted |
| ConnectionPools.ExpiredMeans | JKYi/http/http_connection.cc:308-311 | a connection is too old once it has lived longer than the pool allows, with the wrap-around of the unsigned sum spelled out |
| ConnectionPools.PoolAccounting | JKYi/http/http_connection.cc:296-360 | over every run with any disconnects, clock values, connect failures and interleaving: m_total is idle plus leased plus deletions not yet subtracted, no connection is idle twice or idle and leased, each was leased at most max(1, m_maxRequest) times |
| ConnectionPools.HttpConnectionPool.GetConnection | JKYi/http/http_connection.cc:296-341 | hands out the first connection that is up and young enough and drops those before it, or opens a new one or fails; in the books this is Scan, Subtract and, for a new one, Open and Count, and what is handed out is leased there |
| ConnectionPools.HttpConnectionPool.ReleasePtr | JKYi/http/http_connection.cc:343-360 | puts a leased connection back unless it is down, too old or used up; in the books this is Release and, for one that is dropped, Subtract |
| ConnectionPools.HttpConnectionPool.Accounts | JKYi/http/http_connection.cc:296-360 | between calls m_total is the number of listed and leased connections, none is listed twice or listed and leased, and each was leased at most max(1, m_maxRequest) times |

## Left out

- Files: `writeToFile` and `readFromFile` of the buffer.
- Positional `read` away from the current node: it starts at the current node, so it is covered only where `toString` uses it.
- Floats and doubles in the buffer: they are written as the 32- and 64-bit words of the same bits.
- Masks and shifts are written as arithmetic, and the floating-point `ceil` in `addCapacity` as exact division.
- The host byte order is a parameter; memory allocation always succeeds.
- Timers with empty callbacks, reuse of the address of a freed timer, and sending the front notification after the lock is released (it is part of the step).
- TimerRuns.NoLostWakeUp: assumes a clock that does not run backwards, written deadlines below 2^64, and of a scan whose reading counts as a clock set back that it makes no recurring timer due earlier; `WakeUpsLost` shows that none of these can be dropped.
- Stacks, `ucontext` switching, thread creation and memory ordering: a fiber run is an outcome (held, READY, TERM, EXCEPT); locks make steps atomic.
- Fiber objects: a fiber is an identity with a state in the scheduler's table; idle fibers, `tickle` and idle counts are not modelled.
- The race on growing the context table without a second check, the non-atomic reads in `IOManager::stopping` (it is one step here), the tickle pipe, and the closing of descriptors.
- Epoll reports that are stale because another thread removed a bit: `DispatchKeeps` states exactly when they abort the program.
- Two fibers that use the same descriptor and event in `do_io` at once, and `delEvent` on a registration of `do_io`, which nothing in the repository does; the calls that `do_io` passes straight to the system.
- The size_t range of the semaphore's permit count.
- Suspensions in the hooked `sleep`, `usleep`, `nanosleep` and `connect`, which a fiber of `FiberLife` does not call.
- The request-line and URI automata, the printing of the start line, feeding the header automaton in split buffers, its re-entry in state 348, and the branch taken at its end for a bare XML or JSON message (`xml_sent`, `json_sent`), which no HTTP request sets.
- The order of the header map: headers are a list in the order in which the map yields them.
- Cookie parsing, which runs the same loop with `;` and trimmed keys; the letter case in which a parameter key is stored.
- Reassembly of chunked responses, connecting and sending; whether a connection is up, whether a connect succeeds and the clock are parameters.
- Wrappers of foreign libraries, logging, configuration, daemon and module plumbing, address mask helpers.
