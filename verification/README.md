# Verified model of the ggc reactor and its calendar

This project models, in Dafny, the parts of the repository whose correctness does not depend on
I/O: the calendar and time-zone library (`Date`, `TimeZone`), the timer queue, the asynchronous
log writer, the byte buffer, the two pollers, the functor queue of the event loop, the bounded
queue and the thread pool, and the formatting of integers into fixed log buffers.

| file | models |
|---|---|
| `CInts.dfy` | the integer division, remainder and narrowing of the C++ source |
| `Calendar.dfy` | `Date`: closed-form day numbers against the Gregorian calendar itself |
| `TimeZone.dfy` | broken-down UTC time, transition search, local time and back |
| `TimerQueue.dfy`, `TimerQueueObject.dfy` | timers, timerfd, re-entrant callbacks, heap ownership |
| `AsyncLogging.dfy`, `AsyncLoggingObject.dfy` | the double-buffered log writer |
| `Buffer.dfy` | the network buffer, as a byte queue and as an array with two indices |
| `Conditions.dfy`, `Traces.dfy`, `BoundedQueue.dfy`, `ThreadPool.dfy` | condition variables, and two monitors over any number of threads with what these see of them |
| `Channels.dfy`, `PollPoller.dfy`, `EPollPoller.dfy` | channels and the two pollers |
| `EventLoop.dfy` | the cross-thread functor queue and `quit` |
| `LogStream.dfy` | integers as text, fixed buffers, streams of writes |
| `Sequences.dfy` | reversal, shared by byte order and digit order |

How to read it. A component that changes its state is given twice. A datatype `State` (or `View`)
with one function per step says what each critical section, callback or system call does, and the
lemmas speak of `Leads(start, steps, s)`: every finite interleaving of enabled steps. A class then
changes fields and arrays in place, as the source does. Its methods are proved to be those steps, or
runs of them where the source works in a loop (`HandleRead`, `DoPendingFunctors`); `Logging.WriteAll`
and the classes of `LogStream.dfy` are proved against the text they write. A dead pointer, a null buffer or a
failing assert sets `fault` in the timer queue and the log writer, and that `fault` is never reached
is proved, not assumed. The asserts that can fail are kept apart, each with the exact condition under
which it holds: line 180 of `TimerQueue.cpp` (`pastSentry`), those of `EPollPoller.cpp`
(`AssertsHold`), and those of `removeChannel` and `fillActiveChannels` in `PollPoller.cpp` (`Legal`,
`LookupsSucceed`). Histories (`calls`, `freed`, `lines`, `put`, `taken`, `queued`, ...) are part of the
states, so that "in order" and "at most once" can be said about whole runs; each is proved to be what
the steps of the run say (`Appended`, `Adds`, `Trace`, `QueuedIn`, `EventsAfter`, ...), so that no step
can keep a call to itself.

What the proofs found in the code as it stands:

- `TimerQueue::insert` never fills `activeTimers_`, so `cancel` outside a callback does nothing
  (`TimerQueue.CancelOutsideBatchIsLost`), although `src/unittest/Timer_unittest.cpp` cancels timers.
- Inside a callback `cancel` stops exactly the repeating timers of the running batch
  (`TimerQueue.CancelMattersExactly`).
- The assert of line 180 of `TimerQueue.cpp` fails when a timer at or above the sentry address is due in
  the microsecond in which the readable timerfd brings `handleRead` in (`TimerQueue.DueAtSentryFails`); it
  is safe exactly if every address the allocator returns is below the sentry
  (`TimerQueue.SentrySafeExactly`), which `UINT32_MAX` does not give on a 64-bit heap.
- Local time converts back at every time exactly when each backward jump of the table is one hour from
  daylight to standard time (`TimeZone.LocalRoundTripEverywhere`). Where the clock is set back twice in a
  row, a time repeated by such a jump may still come back wrong (`TimeZone.TwoSetBacksInARow`), unless the
  two lie further apart than both jumps together (`TimeZone.LocalRoundTrip`); the exact condition on any
  sorted table is `TimeZone.LocalRoundTripSorted`.
- `weekDay` is negative for most days before day number -1 (`Calendar.WeekDays`), and `tm_yday` is one
  short in the year -4800 (`TimeZone.DayOfYear`).
- `PollPoller` loses a channel exactly when it is disabled and enabled again
  (`PollPoller.LookupsSucceedExactly`); a channel first registered without events cannot be removed until
  it has been updated to none once more (`PollPoller.QuietRegistrationIsStuck`).
- Line 98 of `EPollPoller.cpp` compares instead of assigning, so the table holds null pointers. The
  kernel set stays right, but with asserts compiled in only the first update of a channel passes: a run
  passes exactly if it updates no channel twice and removes none (`EPollPoller.RunsThatPass`,
  `EPollPoller.SecondUpdateFails`).
- A thread inside `ThreadPool::run` can still be signalled out exactly if some worker can still get to a
  `take`, or the thread is awake and there is room (`ThreadPool.ProducerLeavesExactly`). `stop` wakes the
  workers but not the producers, so that fails after a stop with the queue full
  (`ThreadPool.StopDoomsProducers`) and even with it empty (`ThreadPool.StopLosesSleepers`); and it fails
  in a running pool once every worker waits in a `run` its own task has called
  (`ThreadPool.WorkerLocksItselfOut`).
- `wakeup()` is a stub, so a functor queued from another thread waits until poll(2) returns by itself
  (`EventLoop.StubWakesNobody`, `EventLoop.PushedFunctorsSleep`). Were it filled in, the loop could still
  sleep with functors pending and `wakeup()` not called exactly if the loop thread queued all of them
  outside `loop()` (`EventLoop.SleepsExactlyOn`). And `quit()` before `loop()` is forgotten
  (`EventLoop.QuitBeforeLoopIsLost`).

## Model

| member | source | states |
|---|---|---|
| Calendar.DateRoundTrip | src/utils/Date.cpp:10-35 | date to day number to date is the identity for every real date from 1 March -4800 on |
| Calendar.DayNumberRoundTrip | src/utils/Date.cpp:10-35 | day number to date to day number is the identity from -32044 on, and the date is a real one (month 1..12, day within the month, leap years included) |
| Calendar.ValidExactlyFromFirstDay | src/utils/Date.cpp:20-35 | a real date comes out exactly for day numbers from -32044 on |
| Calendar.SuccessorDay | src/utils/Date.cpp:10-18 | the day after a date has the next day number, across month ends, leap days, centuries and years |
| Calendar.CountingIsWalking | src/utils/Date.cpp:20-35 | the next day number is the calendar's next date |
| Calendar.OrderIsCalendarOrder | src/utils/Date.h:75-83 | Date's `<` and `==` are calendar order and equality |
| Calendar.WeekDays | src/utils/Date.h:64-67 | `weekDay` advances by one modulo 7, 1970-01-01 is a Thursday, and it is in 0..6 exactly where the C remainder is not negative |
| Calendar.NoOverflowExactlyUpToLastDay | src/utils/Date.cpp:20-35 | no intermediate of `getYearMonthDay` leaves 32 bits, exactly up to day number 536838867 |
| Calendar.NoOverflowBack | src/utils/Date.cpp:10-18 | nor does any intermediate of `getJulianDayNumber` for the dates of that range |
| TimeZone.FillHMS | src/utils/TimeZone.cpp:77-83 | second, minute and hour of a second of the day |
| TimeZone.ToUtcTime | src/utils/TimeZone.cpp:332-360 | truncating division with the step back for negative times is floor division: the fields are those of the day and second `t` falls on, and the weekday is counted from the Thursday of the epoch |
| TimeZone.WeekDayOf | src/utils/TimeZone.cpp:349-351 | `tm_wday` is `(t / 86400 + 4) % 7` from day number -1 on |
| TimeZone.UtcRoundTrip | src/utils/TimeZone.cpp:332-376 | `fromUtcTime(toUtcTime(t)) == t` over the calendar range, negative times included, with clock fields and date in range |
| TimeZone.UtcFieldsRoundTrip | src/utils/TimeZone.cpp:332-376 | and the other way: valid fields come back from their second |
| TimeZone.UtcIsPosixTime | src/utils/TimeZone.cpp:353-376 | from 1970 on, `t` is the value of the formula in section 4.16 of the POSIX.1-2017 Base Definitions with the computed `tm_yday` |
| TimeZone.DayOfYear | src/utils/TimeZone.cpp:353-357 | `tm_yday` is the number of days of the year before the date, counted month by month, exactly after the year -4800 |
| TimeZone.LowerBound | src/utils/TimeZone.cpp:249-252 | binary search under either ordering: everything before the result is smaller, nothing from it on is |
| TimeZone.FindLocaltime | src/utils/TimeZone.cpp:238-272 | the type found is the one a linear scan finds: of the last transition at or before the key, type 0 before the first (section 3.2 of RFC 8536), by UTC or by local time |
| TimeZone.ToLocalTime | src/utils/TimeZone.cpp:285-305 | the local time of a second: UTC fields shifted by the offset in force, with its DST flag, offset and abbreviation |
| TimeZone.LocalTimeFields | src/utils/TimeZone.cpp:285-305 | local time denotes `t` plus the offset in force; flag, offset and abbreviation are those of the type in force, weekday and day of the year those of the local date |
| TimeZone.FromLocalTime | src/utils/TimeZone.cpp:307-330 | the second of a local time, with the one-hour adjustment for daylight times in the repeated hour |
| TimeZone.LocalSearchRepeated | src/utils/TimeZone.cpp:313-327 | searching by local time a time about to be repeated finds the next type, whose local time reads the same, unless a further transition has come in between |
| TimeZone.LocalRoundTrip | src/utils/TimeZone.cpp:285-330 | for any time, on any table whose transitions lie further apart than they set the clock back together: local time converts back exactly unless the time is about to be repeated by a jump other than one hour from daylight to standard time |
| TimeZone.LocalRoundTripEverywhere | src/utils/TimeZone.cpp:285-330 | on any table whose transitions lie further apart than each of them sets the clock back: every time converts back exactly when each backward jump is 3600 s from a DST to a non-DST type |
| TimeZone.TwoSetBacksInARow | src/utils/TimeZone.cpp:307-330 | a table, separated in that weaker sense only, where a time repeated by just such a jump does not convert back |
| TimeZone.LocalRoundTripSorted | src/utils/TimeZone.cpp:285-330 | on any table sorted both ways, for any time: it converts back exactly if the search by local time finds the transition in force, or finds one an hour behind daylight time and the clock an hour later shows the same as standard time; which one is found depends on what is repeated and overtaken |
| TimeZone.ReadingConvertsBack | src/utils/TimeZone.cpp:307-330 | the second a standard-time reading is converted to shows that reading again, exactly unless the clock has skipped it |
| TimerQueue.TimespecIsExact | src/port/TimerQueue.cpp:31-48 | the relative timespec is legal, never the zero that disarms, and denotes max(when, now + 100 us) |
| TimerQueue.StepKeeps | src/port/TimerQueue.cpp:120-247 | every step (add, cancel, take the batch, call, reset, time passing) keeps ownership, numbering, call order and the armed timerfd |
| TimerQueue.RunKeeps | src/port/TimerQueue.cpp:120-247 | so does every run of steps |
| TimerQueue.Ownership | src/port/TimerQueue.cpp:120-225 | in every reachable state, with addresses reused: no dead pointer used and no assert failed (line 180 is separate), every timer ever made is in exactly one of the set, the running batch and the freed ones, none freed twice |
| TimerQueue.Timing | src/port/TimerQueue.cpp:152-171 | no callback before its expiration or after its timer is freed; a one-shot timer is called at most once |
| TimerQueue.CallIsTimely | src/port/TimerQueue.cpp:162-166 | each call finds its timer alive and due, and a one-shot timer not called before; that is what is recorded of it |
| TimerQueue.TimerIsAsAsked | src/port/TimerQueue.cpp:104-128 | over any run, timer number q has the address, interval and kind the q-th add asked for and is due when it said until its first call; while it lives it is in the set or the batch, and it is freed only after a call |
| TimerQueue.WakeUpNeverLost | src/port/TimerQueue.cpp:31-48 | outside `handleRead`, the timerfd is readable or armed no later than max(earliest expiration, arming time + 100 us), whatever callbacks added |
| TimerQueue.ArmedForTheEarliest | src/port/TimerQueue.cpp:31-75 | while armed outside `handleRead`, the timerfd is armed for exactly max(earliest expiration, arming time + 100 us) |
| TimerQueue.BatchIsWhatIsDue | src/port/TimerQueue.cpp:173-194 | the batch is exactly the timers before (now, sentry), earliest first; the rest stays in the set |
| TimerQueue.BatchIsCalled | src/port/TimerQueue.cpp:160-168 | before `reset`, every timer of the batch has been called, in that order |
| TimerQueue.BatchEnds | src/port/TimerQueue.cpp:196-225 | a repeating timer not cancelled meanwhile is due one interval after the batch was taken; every other one is freed |
| TimerQueue.BatchOutcome | src/port/TimerQueue.cpp:152-225 | a whole batch: each timer due is called, and put back one interval later exactly if it repeats and no callback of this batch has cancelled it, else freed |
| TimerQueue.ResetOutcome | src/port/TimerQueue.cpp:200-214 | what the loop of `reset` does to each timer of the batch, whatever the others do |
| TimerQueue.CancelOutsideBatchIsLost | src/port/TimerQueue.cpp:130-150 | `cancel` outside a callback changes nothing; the commented-out size comparison holds only when empty |
| TimerQueue.CancelMattersExactly | src/port/TimerQueue.cpp:130-214 | `cancel` inside a callback changes how the batch ends exactly if it names a repeating timer of that batch not marked before |
| TimerQueue.NothingDueLeftBehind | src/port/TimerQueue.cpp:177-180 | on a sorted set, the assert of line 180 holds exactly when no timer due now is at or above the sentry |
| TimerQueue.SentryAssertHoldsExactly | src/port/TimerQueue.cpp:152-180 | over a whole run the assert of line 180 holds exactly if that was so each time `handleRead` was entered |
| TimerQueue.DueAtSentryFails | src/port/TimerQueue.cpp:85-180 | for any address at or above the sentry, a run in which the timerfd becomes readable for a timer there and `handleRead` fails it |
| TimerQueue.SentrySafeExactly | src/port/TimerQueue.cpp:85-180 | it holds exactly if the allocator returns addresses below the sentry only: in every run, and likewise in every run that enters `handleRead` with the timerfd readable |
| TimerQueueObject.Queue.Insert | src/port/TimerQueue.cpp:227-247 | the entry joins the others, the set stays sorted, and the result says whether it is due before every other |
| TimerQueueObject.Queue.AddTimer | src/port/TimerQueue.cpp:104-128 | the step AddTimer: unique sequence number, insertion, re-arming if earliest |
| TimerQueueObject.Queue.CancelInLoop | src/port/TimerQueue.cpp:130-150 | the step Cancel |
| TimerQueueObject.Queue.LowerBound | src/port/TimerQueue.cpp:178-179 | the number of entries before the sentry |
| TimerQueueObject.Queue.GetExpired | src/port/TimerQueue.cpp:173-194 | moves the due prefix out of `timers_`, erases it from `activeTimers_`, and records whether the assert of line 180 holds |
| TimerQueueObject.Queue.BeginHandleRead | src/port/TimerQueue.cpp:152-161 | the step BeginRead |
| TimerQueueObject.Queue.ResetTimer | src/port/TimerQueue.cpp:203-213 | restart and reinsert, or delete |
| TimerQueueObject.Queue.Reset | src/port/TimerQueue.cpp:196-225 | the step EndRead, by a loop over the batch |
| TimerQueueObject.Queue.RunTimer | src/port/TimerQueue.cpp:162-166 | one turn of the loop: the next timer of the batch is called, and whatever its callback does is a run of steps that leaves the batch alone |
| TimerQueueObject.Queue.HandleRead | src/port/TimerQueue.cpp:152-171 | the whole of `handleRead`, with callbacks that wait, add and cancel in any way, is a run of the steps that takes one batch, ends it, and in between calls exactly the timers that were due, each once and in order |
| AsyncLogging.StepKeeps | src/utils/AsyncLogging.cpp:29-124 | every step of front end or backend keeps the text conserved and the buffers recyclable |
| AsyncLogging.OrderIsConserved | src/utils/AsyncLogging.cpp:29-124 | in every interleaving: batches taken, then `buffers_`, then `currentBuffer_` are all lines appended in the run that are shorter than a buffer, in order; file plus batch in flight are the batches less whole buffers from the third on of a batch over 25; the number reported is the number dropped |
| AsyncLogging.WithoutNoticeNothingIsLost | src/utils/AsyncLogging.cpp:29-124 | with no drop reported, file, batch in flight and shared buffers are exactly the accepted lines |
| AsyncLogging.RecyclingIsSafe | src/utils/AsyncLogging.cpp:65-122 | no null buffer is used and no assert fails; `nextBuffer_` missing implies a full buffer waiting; both spares are empty and the batch is empty at the loop head |
| AsyncLogging.StoppedLeavesTheRest | src/utils/AsyncLogging.cpp:63-127 | after the loop ends, the file holds the kept text of the batches taken and the rest stays unwritten |
| AsyncLogging.DoneOnlyIfStopped | src/utils/AsyncLogging.cpp:63-127 | the backend leaves its loop only when it has been stopped |
| AsyncLogging.LineIsPlaced | src/utils/AsyncLogging.cpp:29-50 | a line goes whole behind what is in the current buffer exactly if it fits, and otherwise whole into a fresh one; a line as long as a buffer goes nowhere |
| AsyncLogging.BackendWritesWhatItTakes | src/utils/AsyncLogging.cpp:63-124 | from every reachable state one turn of the backend empties the shared buffers and brings their text to the file, or with more than 25 buffers the first two and the number of the others |
| AsyncLoggingObject.Logging.Append | src/utils/AsyncLogging.cpp:29-50 | the step Append |
| AsyncLoggingObject.Logging.TakeBuffers | src/utils/AsyncLogging.cpp:69-84 | the backend's critical section |
| AsyncLoggingObject.Logging.DropExcess | src/utils/AsyncLogging.cpp:86-96 | the notice and the erasure from index 2 on |
| AsyncLoggingObject.Logging.WriteAll | src/utils/AsyncLogging.cpp:98-101 | the batch is written in order, nothing before it changes |
| AsyncLoggingObject.Logging.RefillSpares | src/utils/AsyncLogging.cpp:103-122 | the step Recycle |
| Buffer.SpaceIsMade | src/port/Buffer.h:176-184 | making space keeps the bytes, makes the space, allocates only when both ends are too small, and compacts strictly forward (the assert of line 316) |
| Buffer.StepRefines | src/port/Buffer.h:100-199 | each operation acts on the readable bytes as on a plain sequence and keeps the indices in order |
| Buffer.RefinesByteSequence | src/port/Buffer.h:100-325 | any run of append, prepend, retrieve, shrink and reads of any chunk size leaves the bytes a plain sequence would hold |
| Buffer.PrependRoomStays | src/port/Buffer.h:32-43 | eight bytes can be prepended after any run that did not prepend |
| Buffer.RoomIsAccountedFor | src/port/Buffer.h:100-293 | how much room each operation leaves: reading moves no byte and reading everything gives all room back; shrinking leaves the reserve and no more |
| Buffer.SwapTwice | src/port/Endian.h:22-45 | byte swapping is its own inverse and reverses the bytes in memory |
| Buffer.IntRoundTrip | src/port/Buffer.h:201-260 | an integer of any width decodes from the bytes it encodes to |
| Buffer.IntIsBigEndian | src/port/Buffer.h:201-216 | byte k on the wire is the k-th most significant byte of the integer, in two's complement |
| Buffer.BytesReadBigEndian | src/port/Buffer.h:218-260 | any bytes read as the integer in range that agrees with them, the first the most significant, and encode back to them |
| Buffer.IntThroughQueue | src/port/Buffer.h:201-272 | an integer appended or prepended reads back, the other bytes untouched |
| Buffer.Buffer.RetrieveBytes | src/port/Buffer.h:100-139 | the operation Retrieve |
| Buffer.Buffer.Compact | src/port/Buffer.h:316-323 | the overlapping forward copy keeps the readable bytes |
| Buffer.Buffer.MakeSpaceFor | src/port/Buffer.h:308-325 | grow or compact, as MakeSpace |
| Buffer.Buffer.EnsureWritableBytes | src/port/Buffer.h:176-184 | afterwards the bytes asked for can be written |
| Buffer.Buffer.AppendBytes | src/port/Buffer.h:164-169 | the operation Append |
| Buffer.Buffer.PrependBytes | src/port/Buffer.h:279-285 | the operation Prepend |
| Buffer.Buffer.AppendInt | src/port/Buffer.h:201-216 | appends the network-order bytes |
| Buffer.Buffer.ReadInt | src/port/Buffer.h:218-260 | decodes the bytes at the front and retrieves them |
| Buffer.Buffer.ShrinkTo | src/port/Buffer.h:287-293 | the operation Shrink, into a new array |
| Buffer.Buffer.ReadFd | src/port/Buffer.cpp:13-38 | the operation ReadChunk for what `readv` delivers; nothing on an error |
| Conditions.NotifyCovers | src/utils/Condition.h:32-35 | a signal raises by one the number of awake threads that cover the sleeping ones |
| Conditions.ProceedCovers | src/utils/Condition.h:25-28 | a thread that proceeds lowers it by at most one |
| BoundedQueue.StepKeeps | src/utils/BoundedBlockingQueue.h:25-52 | every pass of `put` or `take` and every spurious wake keeps the monitor's invariant |
| BoundedQueue.NoLostWakeUp | src/utils/BoundedBlockingQueue.h:25-52 | for any threads: a waiting consumer implies awake consumers >= items, a waiting producer implies awake producers >= free slots; both kinds all asleep only with capacity 0 |
| BoundedQueue.FirstInFirstOut | src/utils/BoundedBlockingQueue.h:25-52 | what the returned `put`s of the run put in is what its returned `take`s got, and then the queue, in order; size never exceeds capacity |
| BoundedQueue.CallsAreAnswered | src/utils/BoundedBlockingQueue.h:25-52 | a thread is inside `put` with the item it offered, or inside `take`, exactly while one of its calls has not returned; every return answers a call |
| BoundedQueue.AwakeThreadsProceed | src/utils/BoundedBlockingQueue.h:28-50 | an awake thread that finds an item (a slot) takes (fills) it and leaves |
| BoundedQueue.BlockingQueue.Put | src/utils/BoundedBlockingQueue.h:25-36 | one pass of `put` |
| BoundedQueue.BlockingQueue.Take | src/utils/BoundedBlockingQueue.h:38-52 | one pass of `take`, with the item at the front |
| ThreadPool.StepKeeps | src/utils/ThreadPool.cpp:43-114 | every pass of `run`, `take`, `stop` and the workers' loop keeps the monitor's invariant |
| ThreadPool.MonitorIsSound | src/utils/ThreadPool.cpp:43-101 | no worker sleeps while there is a task or the pool is stopped; waiting producers are covered by awake ones; the bound holds; accepted == taken ++ queue |
| ThreadPool.TakeIsExact | src/utils/ThreadPool.cpp:75-95 | an empty task exactly when stopped with nothing left; otherwise the oldest task not yet taken |
| ThreadPool.TasksAreConserved | src/utils/ThreadPool.cpp:54-95 | the tasks of returned `run`s are those of returned `take`s and then the queue, in order; a thread is inside `run` with its task, or inside `take`, exactly while a call of its has not returned; without workers all is run inline |
| ThreadPool.WorkersAreInOnePlace | src/utils/ThreadPool.cpp:97-114 | each worker is in exactly one place of its loop, waits inside `run` only from a task, and does not leave while the pool is running |
| ThreadPool.ProducerLeavesExactly | src/utils/ThreadPool.cpp:43-114 | in every reachable state a thread inside `run`, a worker's task included, can be signalled out exactly if a worker can still get to a `take`, or the thread is awake and there is room |
| ThreadPool.DoomedForever | src/utils/ThreadPool.cpp:43-114 | full and with no worker that can get to a `take`, no run of steps at all lets a thread out of `run` or changes the queue |
| ThreadPool.ProducerLeavesByLuckExactly | src/utils/ThreadPool.cpp:43-114 | if threads may also wake up without a signal, a thread inside `run` can get out exactly unless the state is such a one |
| ThreadPool.StopDoomsProducers | src/utils/ThreadPool.cpp:43-73 | such a state is reached by `stop` with one worker, one slot and two producers |
| ThreadPool.WorkerLocksItselfOut | src/utils/ThreadPool.cpp:54-114 | and in a running pool, by a task of its only worker that calls `run` |
| ThreadPool.StopLosesSleepers | src/utils/ThreadPool.cpp:43-95 | after `stop` a producer can be left asleep for good beside an empty queue |
| ThreadPool.Pool.Run | src/utils/ThreadPool.cpp:54-73 | one pass of `run` |
| ThreadPool.Pool.Take | src/utils/ThreadPool.cpp:75-95 | one pass of `take` |
| ThreadPool.Pool.StopPool | src/utils/ThreadPool.cpp:43-49 | the critical section of `stop` |
| PollPoller.SlotsMatchChannels | src/port/PollPoller.cpp:60-124 | after any legal run, channels and slots correspond one to one through the index; the slot fd is fd, or -fd-1 exactly once disabled |
| PollPoller.RegisteredAsAsked | src/port/PollPoller.cpp:60-124 | a channel is registered, with the events last asked for, and counts as disabled, exactly as the operations on its fd say |
| PollPoller.RemoveKeeps | src/port/PollPoller.cpp:93-124 | swap-with-last removal keeps the correspondence |
| PollPoller.RemovableExactlyWhenDisabled | src/port/PollPoller.cpp:97-104 | the asserts of `removeChannel` hold exactly for a channel without events that has been updated to none |
| PollPoller.QuietRegistrationIsStuck | src/port/PollPoller.cpp:64-104 | a channel registered without events fails them, until it is updated to none once more |
| PollPoller.LookupsSucceedExactly | src/port/PollPoller.cpp:42-58 | every lookup of `fillActiveChannels` succeeds exactly when no disabled channel has events again |
| PollPoller.LookupsSucceedWithoutReEnabling | src/port/PollPoller.cpp:42-91 | so in runs that never re-enable a disabled channel every lookup succeeds |
| PollPoller.ReEnablingBreaksLookup | src/port/PollPoller.cpp:82-89 | registering, disabling and re-enabling one channel breaks it |
| PollPoller.Poller.AddChannel | src/port/PollPoller.cpp:64-75 | the operation Register |
| PollPoller.Poller.UpdateChannel | src/port/PollPoller.cpp:76-90 | the operation Change |
| PollPoller.Poller.RemoveChannel | src/port/PollPoller.cpp:93-124 | the operation Remove; the removed object keeps its index |
| PollPoller.Poller.FillActiveChannels | src/port/PollPoller.cpp:42-58 | exactly the channels whose own slots ask for events, each once, in slot order, each with its slot's `revents`; no other channel changes |
| EPollPoller.StepKeeps | src/port/EPollPoller.cpp:87-146 | each update and removal keeps table, registrations and kernel set in agreement |
| EPollPoller.AgreesWithKernel | src/port/EPollPoller.cpp:70-166 | after any run: in the kernel set with the current mask and a pointer to the channel exactly if Added, in `channels_` exactly if Added or Deleted; ADD only for absent, MOD and DEL only for present fds; every fd the kernel reports is in the table |
| EPollPoller.WatchedAsAsked | src/port/EPollPoller.cpp:87-146 | a channel is New, Added or Deleted, and watched with the mask last asked for, exactly as the operations on it say |
| EPollPoller.AssertsHoldExactly | src/port/EPollPoller.cpp:95-135 | after any run, the asserts of an operation, pointers compared, are exactly what callers owe if line 98 assigns; as written they hold exactly for the first update of a New channel |
| EPollPoller.RunsThatPass | src/port/EPollPoller.cpp:95-135 | as meant, lawful callers never fail an assert; as written, a run passes exactly if no channel is updated twice or removed |
| EPollPoller.SecondUpdateFails | src/port/EPollPoller.cpp:98-113 | the shortest failing run: one channel updated twice |
| EPollPoller.Poller.ControlKernel | src/port/EPollPoller.cpp:148-166 | the kernel interest set under ADD, MOD and DEL |
| EPollPoller.Poller.UpdateChannel | src/port/EPollPoller.cpp:87-125 | the operation Update; afterwards the table entry of the fd is this channel if line 98 assigns, and null as written |
| EPollPoller.Poller.RemoveChannel | src/port/EPollPoller.cpp:127-146 | the operation Remove, back to New |
| EventLoop.StepKeeps | src/port/EventLoop.cpp:94-163 | every step of any thread keeps the queue, the batch and the wake-up requests in order |
| EventLoop.QueueIsLinear | src/port/EventLoop.cpp:152-242 | for any interleaving, functors run ++ rest of the batch ++ pending is the sequence the steps queued, and as many have run as steps ran one |
| EventLoop.WakeUpsAreAsCalled | src/port/EventLoop.cpp:131-163 | `wakeup()` counts as requested exactly if it was called since poll(2) last returned: after queueing from another thread, by a functor that queues, or by `quit` from another thread |
| EventLoop.LoopEndsOnlyByQuit | src/port/EventLoop.cpp:94-129 | the loop is left only after a `quit` |
| EventLoop.BatchIsFixed | src/port/EventLoop.cpp:226-242 | a batch runs exactly what was pending when it was taken; what is queued meanwhile waits |
| EventLoop.SleepsExactlyOn | src/port/EventLoop.cpp:94-163 | the loop can be in poll(2) with functors pending and `wakeup()` neither called nor about to be exactly if the loop thread queued all of them outside `loop()` |
| EventLoop.EarlyFunctorsSleep | src/port/EventLoop.cpp:152-163 | any functors it queued there do wait in poll(2) like that |
| EventLoop.StubWakesNobody | src/port/EventLoop.cpp:216-219 | whatever is queued and requested, the loop stays in poll(2) and runs nothing until that returns by itself |
| EventLoop.PushedFunctorsSleep | src/port/EventLoop.cpp:152-219 | a functor another thread has queued, with `wakeup()` called, waits there |
| EventLoop.QuitEndsLoop | src/port/EventLoop.cpp:102-138 | after `quit` by any thread the loop is in poll(2) only if it already was and that call has not returned; it never polls again |
| EventLoop.QuitBeforeLoopIsLost | src/port/EventLoop.cpp:94-138 | from every state outside `loop`: `quit`, then `loop`, still polls |
| EventLoop.Loop.QueueInLoop | src/port/EventLoop.cpp:152-163 | the step of the loop thread, or the two steps of another thread |
| EventLoop.Loop.DoPendingFunctors | src/port/EventLoop.cpp:226-242 | a run of the steps from the swap to the end of the batch: exactly what was pending runs, in order; what it queues is pending afterwards, in order, with a wake-up requested |
| EventLoop.Loop.QuitLoop | src/port/EventLoop.cpp:131-138 | the step Quit |
| LogStream.DecimalRoundTrip | src/utils/LogStream.cpp:27-50 | every value reads back from its text, which is canonical (a sign only if negative, then digits only, no leading zero) and at most 20 characters for 64 bits |
| LogStream.HexRoundTrip | src/utils/LogStream.cpp:52-68 | likewise in hexadecimal: digits only, no leading zero, at most 16 of them |
| LogStream.DigitOfRemainder | src/utils/LogStream.cpp:20-21 | the mirrored digit table gives the right digit for negative remainders |
| LogStream.RenderReadsBack | src/utils/LogStream.cpp:101-172 | what is written of an integer, a pointer (`0x` and hexadecimal) or text reads back as it |
| LogStream.ReverseRange | src/utils/LogStream.cpp:47 | in-place reversal, nothing outside the range changes |
| LogStream.EmitDecimal | src/utils/LogStream.cpp:30-38 | the digit loop writes the digits backwards; its values stay between 0 and the argument, so nothing overflows |
| LogStream.Convert | src/utils/LogStream.cpp:27-50 | the canonical decimal text and a NUL, within 21 characters, for every 64-bit value including the minimum |
| LogStream.ConvertHex | src/utils/LogStream.cpp:52-68 | the hexadecimal text and a NUL, within 17 characters |
| LogStream.StreamStaysInside | src/utils/LogStream.cpp:101-172 | over any stream of integer, pointer and text writes `cur_` stays strictly below the end and no write reaches past it |
| LogStream.NothingDropped | src/utils/LogStream.cpp:101-172 | while 32 characters stay free nothing is left out |
| LogStream.FixedBuffer.Append | src/utils/LogStream.h:35-43 | text is appended whole or not at all |
| LogStream.Stream.WriteInteger | src/utils/LogStream.cpp:101-109 | the integer's decimal text is appended, or nothing |
| LogStream.Stream.WritePointer | src/utils/LogStream.cpp:159-172 | `0x` and the hexadecimal text are appended, or nothing |

## Left out

- `readTimeZoneFile` and its file reader: file input, and the stray `;` after its header test makes it always throw; the theorems speak of every table.
- `tm_zone`: kept as an index into the abbreviation text.
- `gmtime_r` and `timegm`: stood in for by the repository's own `toUtcTime` and `fromUtcTime`.
- TimeZone.ToUtcTime: says nothing when the day count does not fit an `int`, where the source overflows.
- `Date::toIsoString`, `Date::swap`, `valid`: one-line members.
- `TimerQueue` across threads: `addTimer` and `cancel` are modelled on the loop thread; from another thread `addTimer` reads the timer after handing it over.
- The difference between the monotonic clock of the timerfd and the wall clock: one clock is modelled.
- Floating-point intervals: an interval is a whole number of microseconds, and `repeat` is independent of it.
- Timer objects are entries of an explicit heap map from addresses; the aliasing that matters is through addresses.
- `LogFile` rolling, `Logging` front end and `Fmt`: file system, clock and `snprintf`.
- Formatting of `float` and `double`: `snprintf` of the C library.
- `Buffer::findCRLF`, `findEOL`, `toStringPiece` and the retrieve-as-string helpers: easy reads; `findEOL(start)` may scan past the written region.
- Mutex ownership (`holder_`, `assertLocked`): mutual exclusion is built into the steps.
- Joining of threads in `ThreadPool::stop`. What a task does is left open, except that it may call `run` and may return; exceptions out of tasks abort the program and are not modelled.
- The circular buffer inside `BoundedBlockingQueue` is a sequence; its index arithmetic belongs to Boost.
- Fairness: the monitor theorems are about safety (no wake-up is lost, awake threads can proceed), not about scheduling.
- `EPollPoller::poll` and the doubling of its event list; `Channel::handleEvent` dispatch.
- `EventLoop::wakeup` and `handleRead` are stubs in the source, so a request for a wake-up is recorded and nothing more; `runInLoop` on the loop thread is a plain call.
- Serial port handling, XML configuration and the RS485 codec: I/O, stubs and commented-out code.
