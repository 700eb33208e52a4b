# Verified models of bc

bc is a C++23 toy library: coroutine tasks driven by an `epoll` event loop, a logging facility with a
background worker, and socket addresses with hand-written parsers. This project models those three and
proves what they are for. `dafny verify dfyconfig.toml` checks everything.

## The event loop (`machine`, `runs`, `provenance`, `joining`, `usercode`, `dispatch`, `scheduler`, `sessions`, `interest`, `programs`, `growth`, `bits`, `places`)

A coroutine is a finite program over the points where control may leave it: sleep, wait on a descriptor
(directly or through the accept proxy), call another coroutine and hold its task, await a task, add a client
to the server's list, sweep the finished clients, close a socket, return. `Machine` is the world those
programs and the loop act on: `coro_count_`, the timer queue (a multiset whose top is any minimum), the
descriptor lists, `focus_`, the kernel's interest set, the frames with their `prev`, and the clock. Every
atomic piece of code is one step, and one invariant is kept by all of them, including inside a dispatch,
where a list is spliced out, the counter lags behind and the interest of the dispatched descriptor is stale.
`Runs` states what follows in every state of every run; `Scheduling` is the code itself, classes `Poller` and
`Scheduler` whose methods update fields in place; what each does is a path of machine steps, so the theorems
over runs hold of it. `Dispatching` is the specification of one dispatch, `UserCode` what resumed coroutines
may do meanwhile and the work they have left, `Provenance` where wake-ups and posted nodes come from,
`Sessions` the server's clients and their sockets, and what destroying a frame takes away. A mask asks for a bit
of another (`Bits.Asks`) exactly if their bitwise and is not zero (`Bits.AsksMeans`).

A frame that returns destroys the tasks it holds, and theirs, whether they are done or not. The source's
behaviour is undefined once a frame destroyed while suspended is resumed; the machine records such frames in
`dangling` and goes on as if they were alive, so what it says is about the source as long as `dangling` is
empty. `Joining.RunIsCleanExactly` says exactly when that is, `Joining.AbandonedSleeper` is the smallest run on
which it is not, and `Joining.JoiningRunsAreClean` proves it for programs in which every coroutine awaits what
it holds.

`severed` holds the descriptors closed while something still waited on them and not brought up to date since;
at a loop head the interest on a descriptor is the OR of the waiting masks exactly if it is not severed, or its
waiters want nothing. `Interest.WaiterCutOff` is the smallest run that severs one, `Interest.CloseIsRightExactly`
says which closes leave the interest wrong, `Interest.RunInterestIsExact` that nothing else does, and `Sessions.SweptSocketsAreFree`
when the server's sweep does not.

Hypotheses, all visible in the step conditions: a task is awaited only by the coroutine that made it; the
clock does not go back; a batch of events is a snapshot of what `epoll_wait` wrote; descriptors are positive,
as the source asserts; a proxy answers "not ready" finitely often for one event.

`adjust_size_` is modelled with a repair: `bit_ceil(index + 1)` where the source has `bit_ceil(index)`
(include/bc/async/scheduler.hpp:98 and 164). `Growth.LiteralFormMissesPowersOfTwo` says exactly when
one call of the source's form leaves the index out of range, `Growth.LiteralFormExactly` for which sequences of
descriptors none does.

## The log worker (`logmachine`, `logworker`, `formatter`)

`LogMachine` interleaves any number of producers, owners of loggers, and the one worker, in atomic steps:
count a record, append it, register a flush, return from it, swap the batch, open a buffer, format one record
into it, drop its reference, write one buffer, drop the buffer's reference, notify the logger whose counter
that brought to zero, raise one flag, notify that flush. `LogWorker` has the theorems over every interleaving
and the worker's code as a class, in which any steps of other threads may happen between any two of the
worker's own. `LogFormat` is the formatter: the scanner against a grammar, `repr`, and `format`.

Between the decrement of `ref_` to zero and the notification nothing keeps the logger alive
(include/bc/log/logger.hpp:36-43 and 68-72), and between a flag and its notification nothing keeps `flush` from
returning (src/log/worker.cpp:36-38 and 72-75). `LogWorker.GoneBeforeNotified` and
`LogWorker.ReturnedBeforeNotified` are runs on which the worker goes on to notify what is gone;
`LogWorker.NotifiedExistsExactly`, `LogWorker.DestroyIsSafeExactly` and `LogWorker.LeaveIsSafeExactly` say
exactly when it does not, and `LogWorker.ConsiderateOwnersAreSafe` gives owners of loggers a rule they can
follow: destroy only after a flush registered behind the last record has come back, or after the worker ended.
There is no such rule for callers of `flush`, which destroys its condition variable itself.

Hypotheses: records are logged to loggers that exist and before the worker is stopped; the worker is stopped
when no append is under way, which the source asserts (src/log/worker.cpp:12); and every record renders to
something besides newlines, since `format` looks at the last character of its result without a length test
(include/bc/log/formatter.hpp:70). `LogFormat.AlwaysHasTextExactly` says for which formats the last one holds of
every record: those with literal text other than newlines, or a date, level, thread or location, which are never
empty. The default format is one of them. Of a printed date only that it is not just newlines is said.

## Addresses (`text`, `byteorder`, `ipv4`, `ipv6`, `ipv6forms`, `address`)

The two parsers over arrays and iterators, `std::views::split` and `std::from_chars` as functions, byte
order as bytes in memory of a little-endian machine, and the printer. Where the parser departs from
section 2.2 of RFC 4291 the model follows the code, and `Ipv6Forms.ReadExactly` lists what is accepted: the
RFC's `head::tail` but not the bare `::`; the same with a single colon when one side is absent; up to eight
groups without `::` (none at all included), the missing ones zero at the end; and eight groups followed by
a colon and any text of address characters, which is ignored.

## Model

| member | source | states |
|---|---|---|
| Growth.BitCeilIsLeast | include/bc/async/scheduler.hpp:164 | bit_ceil is a power of two, below every other power of two that is at least n, and less than 2n |
| Growth.Adjusted | include/bc/async/scheduler.hpp:160-167 | after the repaired growth the requested index is in range and the size has not shrunk |
| Growth.LiteralFormMissesPowersOfTwo | include/bc/async/scheduler.hpp:94-107 | one growth as written leaves the index in range if and only if the vector was already longer or the index is not a power of two |
| Growth.LiteralFormExactly | include/bc/async/scheduler.hpp:160-167 | growing as written from empty, every descriptor is in range when used if and only if each power of two used comes after a larger descriptor |
| Growth.FourIsMissed | include/bc/async/scheduler.hpp:164 | descriptor 4, used first, is out of range |
| Growth.Grown | include/bc/async/scheduler.hpp:160-167 | growth keeps all old entries in place and fills with defaults |
| Growth.GrowthIsLinear | include/bc/async/scheduler.hpp:94-107 | for every sequence of descriptors all end in range, and all resizes together ask for less than four times (largest + 1) |
| Machine.SubscribeKeepsKernel | src/async/scheduler.cpp:10-37 | one subscription changes focus_ and the kernel's interest alike, on one descriptor only |
| Machine.OrMaskBits | src/async/scheduler.cpp:71-77 | a mask meets the accumulated mask if and only if it meets the mask of some node of the list |
| Machine.ParkTimerKeepsInv | include/bc/async/scheduler.hpp:143-147 | queueing a sleeper whose deadline is in the future keeps the whole invariant, also mid-dispatch |
| Machine.ParkFdKeepsInv | src/async/scheduler.cpp:62-69 | posting a node on any descriptor, even the one being dispatched, keeps the whole invariant |
| Machine.SpawnKeepsInv | include/bc/async/task.hpp:71-77 | calling a coroutine keeps the invariant |
| Machine.ServeKeepsInv | include/bc/network/server.hpp:62-65 | adding a client, its session started at once, keeps the invariant |
| Machine.TreeOfDone | include/bc/async/task.hpp:126-130 | where done frames hold only done tasks, destroying a done frame destroys only done frames, at every depth |
| Machine.DestroyedMore | include/bc/async/task.hpp:126-130 | destroying tasks marks a frame as destroyed too early if and only if one of them is not done |
| Machine.ParkAwaitKeepsInv | include/bc/async/task.hpp:98-112 | awaiting an unfinished task one holds keeps the invariant: the awaited task's prev is the awaiter |
| Machine.FinishKeepsInv | include/bc/async/task.hpp:59-69 | a returning frame destroys what it holds; at final suspend the awaiter, if any, is found suspended on this very task; the invariant is kept |
| Machine.SweepKeepsInv | include/bc/network/server.hpp:48-58 | erasing finished clients, tasks destroyed and sockets unsubscribed, keeps the invariant |
| Machine.CloseKeepsInv | include/bc/network/socket.hpp:135-143 | unsubscribing and closing any descriptor keeps the invariant, kernel and focus_ in step |
| Machine.PopTimerKeepsInv | src/async/scheduler.cpp:81-85 | entering an expired top node keeps the invariant, and its coroutine was asleep on that node |
| Machine.SettleKeepsInv | src/async/scheduler.cpp:87 | the delayed --coro_count_ never underflows |
| Machine.DetachKeepsInv | include/bc/async/scheduler.hpp:175-177 | splicing a list out keeps the mid-dispatch invariant |
| Machine.FireKeepsInv | include/bc/async/scheduler.hpp:180-192 | every node left in the local list belongs to a coroutine that still waits on it, and entering one keeps the invariant |
| Machine.ReattachKeepsInv | include/bc/async/scheduler.hpp:198-200 | splicing the rest back and updating the descriptor repairs what the dispatch broke |
| Runs.StepKeepsInv | include/bc/async/scheduler.hpp:173-203 | every step of user code and loop keeps the invariant |
| Runs.RunKeepsInv | src/async/scheduler.cpp:39-60 | every state of every run satisfies the invariant |
| Runs.RunGoesOn | src/async/scheduler.cpp:39-60 | a run extends by whatever the scheduler's methods do from its last state, so the theorems over runs hold of their states |
| Runs.RunStarts | include/bc/async/task.hpp:75-77 | and by a coroutine called from outside when the scheduler is at rest |
| Runs.NoCoroutineLost | include/bc/async/task.hpp:59-69 | an unfinished coroutine has exactly one home: one node, the call stack, or the prev of one unfinished task; a finished one has none, and a destroyed one has none as long as none was destroyed unfinished |
| Runs.ChainReachesSomethingParked | include/bc/async/task.hpp:98-112 | following the awaited task again and again ends at a coroutine that is parked in a node or on the stack |
| Runs.LoopHeadCounts | src/async/scheduler.cpp:40-58 | at a loop head the subtraction of the counters does not wrap, is positive if and only if some descriptor has a waiter, and coro_count_ is zero if and only if every coroutine is done |
| Runs.LoopHeadInterest | src/async/scheduler.cpp:71-77 | at a loop head kernel interest and focus_ are equal for every descriptor, and equal the OR of the waiting masks if and only if the descriptor is not severed or its waiters want nothing; every waited descriptor is inside focus_ |
| Runs.RunWakesInOrder | src/async/scheduler.cpp:79-93 | over every run wake-ups come in the order of the queued deadlines, none before its deadline |
| Runs.RunLosesNoCoroutine | src/async/scheduler.cpp:39-60 | in every state of every run a coroutine is done or has exactly one home |
| Runs.RunLoopHeads | src/async/scheduler.cpp:39-60 | in every state of every run where the loop is in control, the counters agree with the lists, kernel with focus_, and focus_ with the masks exactly on descriptors not severed or wanted by nobody |
| Provenance.StepAdds | include/bc/async/sleep.hpp:23-32 | what each step adds to the timer queue and the history: a suspending sleep exactly the node of its deadline, made + period; a wait the node of its descriptor, mask and kind; nothing else adds any |
| Provenance.WokenWasSlept | include/bc/async/sleep.hpp:15-32 | over every run, each wake-up goes back to a step that suspended the coroutine in a sleep, with deadline made + period, and comes no earlier than that |
| Provenance.PassedIsOver | include/bc/async/sleep.hpp:23-30 | over every run, a sleep is passed without suspending only when made + period is over |
| Provenance.PostedWasWaited | include/bc/network/socket.hpp:288-296 | over every run, each node posted goes back to a step that suspended its coroutine in a wait on that descriptor, for that mask, by proxy or not |
| Provenance.WaitListed | src/async/scheduler.cpp:62-69 | a wait puts the node of its mask and coroutine at the end of its descriptor's list and changes no other list |
| Interest.RunInterestIsExact | include/bc/network/socket.hpp:135-143 | over every run on which sockets are closed only when nobody waits on them, at loop heads kernel, focus_ and the OR of the waiting masks agree on every descriptor |
| Interest.RunBitsAreRegistered | src/async/scheduler.cpp:71-77 | in every state of every run where the loop is in control: a bit is registered with the kernel for a descriptor if and only if the descriptor is not severed and some node in its list asks for that bit |
| Interest.CloseIsRightExactly | include/bc/network/socket.hpp:138 | a close leaves the interest right if and only if the nodes in the descriptor's list want nothing |
| Interest.WaiterCutOff | include/bc/network/socket.hpp:135-143 | one coroutine waits, another closes: the run after which a node waits on a descriptor the kernel is not asked about |
| Interest.BufferStaysExactly | include/bc/async/scheduler.hpp:87-106 | over every path, as from a wait to the end of its batch, the event buffer keeps its size if and only if no slot is asked for beyond it |
| UserCode.UserStep | include/bc/async/sleep.hpp:23-32 | any operation of a coroutine keeps the invariant, only posts nodes behind what is there, disturbs nothing parked, and uses up work |
| Dispatching.HandlingFires | include/bc/async/scheduler.hpp:180-192 | after one matching node, whatever its coroutine posted: exactly the matching nodes so far were resumed, the others stay in order |
| Dispatching.HandlingEnds | include/bc/async/scheduler.hpp:198-201 | over the whole list this adds up to the effect of one dispatch |
| Dispatching.DispatchReaches | include/bc/async/scheduler.hpp:180-192 | a node of the list is resumed with the event if and only if its mask and the event share a bit, and nothing else is resumed |
| Dispatching.DispatchKeeps | include/bc/async/scheduler.hpp:179-198 | the list keeps exactly the old nodes whose masks share no bit with the event, in their order, then the nodes posted on the descriptor meanwhile, in theirs |
| Dispatching.ReportInRange | include/bc/async/scheduler.hpp:87-90 | every event reported is on a descriptor that has a list |
| Dispatching.BufferHasRoom | include/bc/async/scheduler.hpp:78 | epoll_wait is never called with an empty buffer |
| Dispatching.BufferHasRoomForAll | include/bc/async/scheduler.hpp:100-106 | the event buffer has at least as many slots as there are registered descriptors |
| Dispatching.TimePasses | src/async/scheduler.cpp:45-58 | with nothing due, letting time pass shortens the time left to the earliest deadline |
| Dispatching.MillisecondsExactly | include/bc/async/scheduler.hpp:74-77 | the timeout is the period toward zero: a poll is refused if and only if the top deadline is at least a millisecond over |
| Scheduling.Poller.AdjustSize | include/bc/async/scheduler.hpp:94-107 | focus_ and evs_ grow together, old interest unchanged (with the repair) |
| Scheduling.Poller.EpollCtl | src/async/scheduler.cpp:32-35 | the kernel's rules for ADD, MOD and DEL, as what a call requires |
| Scheduling.Poller.Subscribe | src/async/scheduler.cpp:10-37 | every kernel call made is legal, and afterwards focus_ and kernel both say e |
| Scheduling.Scheduler.UpdateDescriptor | src/async/scheduler.cpp:71-77 | subscribes the OR of the masks in the list |
| Scheduling.Scheduler.PostNode | src/async/scheduler.cpp:62-69 | the node goes to the end of its list, the counter grows, the interest is that of the new list |
| Scheduling.Scheduler.PostTimer | include/bc/async/scheduler.hpp:143-147 | the node is queued and counted |
| Scheduling.Scheduler.AwaitSleep | include/bc/async/sleep.hpp:23-32 | suspends if and only if made + period is in the future at the second look at the clock, and then queues exactly the node of that deadline; otherwise the queue is unchanged |
| Scheduling.Scheduler.AwaitDescriptor | include/bc/network/socket.hpp:288-296 | always suspends; its node, with the mask and kind it asks for, is the last of the descriptor's list |
| Scheduling.Scheduler.CallCoroutine | include/bc/async/task.hpp:71-77 | the body starts at once, before the caller goes on |
| Scheduling.Scheduler.AddClient | include/bc/network/server.hpp:62-65 | the session starts at once; task and socket are in the list of clients |
| Scheduling.Scheduler.DestroyTasks | include/bc/async/task.hpp:126-130 | the frames of the tasks are destroyed, and those they hold |
| Scheduling.Scheduler.AwaitTask | include/bc/async/task.hpp:102-108 | passes if the task is done, otherwise becomes its prev and suspends |
| Scheduling.Scheduler.EraseFinished | include/bc/network/server.hpp:48-58 | the erasing loop leaves the unfinished clients in their order, and each erased socket's interest is dropped by legal kernel calls |
| Scheduling.Scheduler.SweepClients | include/bc/network/server.hpp:48-58 | the client list becomes its unfinished sublist; tasks and sockets of the rest are destroyed |
| Scheduling.Scheduler.CloseDescriptor | include/bc/network/socket.hpp:135-143 | the registration is removed, whatever still waits |
| Scheduling.Scheduler.FinalSuspend | include/bc/async/task.hpp:59-69 | the tasks held are destroyed, then control goes to prev, or back to whoever resumed |
| Scheduling.Scheduler.Resume | include/bc/async/scheduler.hpp:182-184 | a resumed coroutine, its callees and its awaiters run until control comes back; only posts happened, and work was used up |
| Scheduling.Scheduler.Launch | examples/sleep.cxx:35 | a coroutine called from ordinary code runs to its first suspension |
| Scheduling.Scheduler.WakeTop | src/async/scheduler.cpp:82-87 | pops the top, resumes it, counts it out |
| Scheduling.Scheduler.HandleExpired | src/async/scheduler.cpp:79-93 | terminates with nothing due; either some node ran and the work left shrank, or only the clock moved |
| Scheduling.Scheduler.HandleList | include/bc/async/scheduler.hpp:177-197 | the loop over the local list, with refusing proxies asked again, deals with every node of the original list |
| Scheduling.Scheduler.Dispatch | include/bc/async/scheduler.hpp:173-203 | an old node of the list is resumed with the event if and only if its mask and the event share a bit, in order, exactly once; no other is; the list becomes the other old nodes then the nodes posted meanwhile; other lists only gain posted nodes |
| Scheduling.Scheduler.Poll | include/bc/async/scheduler.hpp:72-91 | nothing happens if and only if the period is a millisecond or more below zero; otherwise the kernel is asked once and the state goes through exactly one dispatch for each reported event, in order |
| Scheduling.Scheduler.Period | src/async/scheduler.cpp:45-52 | the longest time up to a second that passes no deadline |
| Scheduling.Scheduler.Run | src/async/scheduler.cpp:39-60 | when it ends with coro_count_ zero every coroutine is done; it ends otherwise only after the given number of polls, with a descriptor waited on; without descriptors it always ends with zero |
| Programs.RunTimerPrograms | examples/sleep.cxx:13-38 | every finite forest of programs that sleep, call and await, and in which every coroutine awaits what it holds, terminates with all of them done; what happened is a run on which every frame that returned found its tasks done and no destroyed frame was left to be resumed |
| Joining.UnfinishedTaskDangles | include/bc/async/task.hpp:126-130 | a frame that returns over an unfinished task leaves a destroyed frame that something in the scheduler refers to |
| Joining.RunIsCleanExactly | include/bc/async/task.hpp:126-130 | a run never leaves a destroyed frame to be resumed if and only if every frame that returned on it found the tasks it held done |
| Joining.AbandonedSleeper | include/bc/async/task.hpp:126-130 | a caller that does not await its sleeper: the run after which the destroyed sleeper is popped next |
| Joining.AwaitReturnsWhenDone | include/bc/async/task.hpp:98-112 | in every step an awaiter is left alone until the task it awaits is done |
| Joining.JoinedFramesEndClean | include/bc/async/task.hpp:126-130 | over every run, a frame whose body awaits all it holds finds, when it returns, that done and referred to by nothing |
| Joining.NewFrame | include/bc/async/task.hpp:75-77 | a step that makes a frame makes one, with the body that was called |
| Joining.JoiningRunsAreClean | include/bc/async/task.hpp:126-146 | over every run whose coroutines, started or called at any depth, await what they hold, every return finds its tasks done and no destroyed frame is left to be resumed |
| Sessions.SweepInOrder | include/bc/network/server.hpp:48-58 | the sweep decides each client by itself and keeps the order |
| Sessions.SessionsJoin | include/bc/network/server.hpp:67-72 | a session awaits its handler, whatever the handler is |
| Sessions.SweepErasesDone | include/bc/network/server.hpp:48-58 | over every run, an erased client's session is done and destroyed, and kernel and focus_ have dropped its descriptor |
| Sessions.SweptClientsAreClean | include/bc/network/server.hpp:36-72 | over every run, a swept client's session and the handler it called are done, and neither then nor at any later state does a node, stack entry or prev refer to them |
| Sessions.SweptSocketsAreFree | include/bc/network/server.hpp:19-22 | over every run on which nothing was destroyed unfinished: if since the accept only the session and what hangs on it suspended on the client's descriptor, the sweep that closes it finds nothing waiting there |
| Sessions.AddedIsListed | include/bc/network/server.hpp:62-65 | adding a client starts its session's body and puts task and socket at the end of the list |
| Sessions.SessionCalledHandler | include/bc/network/server.hpp:67-72 | over every run, a session that is done called its handler, on its own stack, and that call is done |
| Sessions.SweepUnsubscribes | include/bc/network/server.hpp:48-58 | a sweep drops the interest in the descriptors of finished clients and leaves every other descriptor's as it is |
| Sessions.ReturnDestroys | include/bc/async/task.hpp:126-130 | over every run, a returning frame destroys exactly the frames reached from it by one or more tasks held |
| Sessions.SweepDestroys | include/bc/network/server.hpp:48-58 | over every run, a sweep destroys exactly the frames reached from the finished clients' sessions by tasks held |
| LogFormat.PiecesCover | src/log/formatter.cpp:25-64 | raw text and placeholder spans cover the format: nothing lost, shared or out of place |
| LogFormat.NamesAreKnown | src/log/formatter.cpp:38-55 | each field's printed name is recognised as that field, and contains no closing brace |
| LogFormat.Scan | src/log/formatter.cpp:18-65 | the index-and-state scanner computes the grammar's segments on every string, unknown and unterminated placeholders included |
| LogFormat.ReprOf | src/log/formatter.cpp:67-84 | repr is the fold of the segments with each field's spelling |
| LogFormat.Format | include/bc/log/formatter.hpp:34-74 | format is the same fold with each field's text, without its trailing newlines |
| LogFormat.StrippedIsMaximal | include/bc/log/formatter.hpp:70-72 | all trailing newlines go, and nothing else |
| LogFormat.HasTextExactly | include/bc/log/formatter.hpp:36-72 | format has a result for a record if and only if some segment shows a character besides newlines |
| LogFormat.AlwaysHasTextExactly | include/bc/log/formatter.hpp:36-72 | format has a result for every record if and only if the format has literal text with a character besides newlines, or a date, level, thread or location |
| LogFormat.DefaultFormatHasText | include/bc/log/logger.hpp:28-31 | the default format is such a format, the empty one is not |
| LogFormat.DefaultSegments | include/bc/log/logger.hpp:28-31 | the default format's segments, one by one |
| LogFormat.FieldsAreNamed | include/bc/log/formatter.hpp:40-67 | what each of the six placeholders is replaced by, each level by its name, thread and line in decimal |
| LogFormat.ReprRestoresFormat | src/log/formatter.cpp:67-84 | repr of the parsed format is the format if and only if every placeholder is known and closed |
| LogFormat.ParseRestoresSegments | src/log/formatter.cpp:18-84 | parsing the printed form of a segment list gives the list back if and only if raws are non-empty, free of an opening and never adjacent |
| LogFormat.PlaceholderIsSubstituted | include/bc/log/formatter.hpp:34-74 | behind any closed prefix and before any rest, a known placeholder is replaced where it stands |
| LogFormat.UnknownIsDropped | src/log/formatter.cpp:38-57 | behind any closed prefix and before any rest, a placeholder of any other name contributes nothing |
| LogFormat.UnclosedIsDropped | src/log/formatter.cpp:61-64 | a tail that opens a placeholder and never closes it contributes nothing |
| LogFormat.LiteralIsKept | src/log/formatter.cpp:61-64 | text without an opening is one raw segment |
| LogMachine.HeldAfter | src/log/worker.cpp:58-71 | exactly which steps change how many references to a logger are out |
| LogMachine.StepKeepsRefs | include/bc/log/logger.hpp:67-72 | every step of producer or worker keeps ref_ equal to the references out |
| LogMachine.StepKeepsText | src/log/worker.cpp:58-71 | every step keeps written, grouped and ungrouped text together equal to the lines swapped out |
| LogMachine.StepKeepsFlush | src/log/worker.cpp:72-75 | every step keeps the promise of the flags raised |
| LogWorker.RunCountsReferences | include/bc/log/logger.hpp:45-59 | in every interleaving ref_ is the records counted, those in logs_, those in the batch not released, and one while the buffer exists |
| LogWorker.WorkerTouchesTheLiving | src/log/worker.cpp:58-71 | the loggers whose records and buffers the worker has exist, and no decrement underflows |
| LogWorker.WorkerGoesOn | src/log/worker.cpp:41-76 | the worker can always take a step until it has ended |
| LogWorker.RunRefinesSynchronousLogger | src/log/worker.cpp:11-76 | in every state of every interleaving, output, then grouped text, then pending lines, are the lines of all records appended, in order; at the end everything is output |
| LogWorker.LinesAreTerminated | src/log/worker.cpp:64-65 | the lines of a logger's records are, record by record in order, the rendering without its trailing newlines and then one newline |
| LogWorker.EndedOutput | src/log/worker.cpp:58-71 | over every run, when the worker ended, a backend's text is that of the records appended, in order; if not empty it ends in a newline; if no text has a newline inside, splitting it gives the texts back |
| LogWorker.DestroyedOnlyWhenWritten | include/bc/log/logger.hpp:36-43 | ~logger passes its wait only when every record of the logger is written and no record, buffer or count of it is left |
| LogWorker.GoneBeforeNotified | include/bc/log/logger.hpp:68-72 | whatever the formats, a run after which the worker's next step is to notify a destroyed logger |
| LogWorker.NotifiedExistsExactly | include/bc/log/logger.hpp:68-72 | over every run, while the notification of a counter brought to zero is due, its logger exists if and only if it was not destroyed in between |
| LogWorker.DestroyIsSafeExactly | include/bc/log/logger.hpp:36-43 | a logger's destruction is never followed by a notification of it if and only if none is due at that moment |
| LogWorker.ConsiderateOwnersAreSafe | include/bc/log/logger.hpp:36-43 | over every run on which loggers are destroyed only after a flush behind their last record, or after the worker ended, the logger to notify exists |
| LogWorker.LeaveIsSafeExactly | src/log/worker.cpp:72-75 | over every run, a flush's return is never followed by a notification of its condition variable if and only if none is due at that moment |
| LogWorker.CalledIsInsideExactly | src/log/worker.cpp:36-38 | between a flag and the notification of its condition variable, the flush that owns it is there if and only if it did not return in between |
| LogWorker.RegisteredAs | src/log/worker.cpp:29-32 | over every run, the flush whose flag is up is the one that registered under its id, with the length of the history then |
| LogWorker.ReturnedBeforeNotified | src/log/worker.cpp:24-39 | a run on which one is |
| LogWorker.FlushedRecordsAreWritten | src/log/worker.cpp:24-39 | over every run, when the flag of a flush, known by its id, is up, every record appended before it registered is written |
| LogWorker.Worker.Log | include/bc/log/logger.hpp:46-50 | a record that passes the level check is counted before it is appended |
| LogWorker.Worker.Append | src/log/worker.cpp:14-18 | the record goes to the end of logs_ |
| LogWorker.Worker.Flush | src/log/worker.cpp:29-32 | the waiter is registered |
| LogWorker.Worker.Destruct | include/bc/log/logger.hpp:36-43 | a logger goes only with ref_ zero, and the invariant survives it |
| LogWorker.Worker.AddReference | include/bc/log/logger.hpp:67 | the counter goes up by one |
| LogWorker.Worker.DropReference | include/bc/log/logger.hpp:68-72 | the counter goes down by one, and a notification is due exactly if it reached zero |
| LogWorker.Worker.NotifyLogger | include/bc/log/logger.hpp:70 | the notification, a step of its own |
| LogWorker.Worker.OpenBuffer | src/log/worker.cpp:61-63 | a reference is taken exactly when the buffer is new |
| LogWorker.Worker.AbsorbRecord | src/log/worker.cpp:64-65 | the record, formatted, and a newline go to the end of its logger's buffer |
| LogWorker.Worker.ReleaseRecord | src/log/worker.cpp:66 | the record's own reference is released |
| LogWorker.Worker.GiveToBackend | src/log/worker.cpp:69 | the backend gets the whole buffer |
| LogWorker.Worker.CloseBuffer | src/log/worker.cpp:70 | the buffer's reference is dropped only after the write |
| LogWorker.Worker.RaiseFlag | src/log/worker.cpp:73 | the flag goes up |
| LogWorker.Worker.NotifyFlush | src/log/worker.cpp:74 | the notification, a step of its own |
| LogWorker.Worker.Drain | src/log/worker.cpp:58-76 | whatever other threads do between its steps, afterwards each backend has exactly the lines of all records swapped out, and the waiters taken are flagged in order |
| LogWorker.Worker.SwapOut | src/log/worker.cpp:45-52 | records and waiters are taken together |
| LogWorker.Worker.TakeRest | src/log/worker.cpp:55 | the final drain takes what is left |
| LogWorker.Worker.Loop | src/log/worker.cpp:41-56 | when the worker ends every record ever appended is written, once and in order per logger, and every counter is zero |
| Text.SplitJoin | include/bc/network/address.hpp:44 | splitting joined pieces gives them back if and only if they are not one empty piece |
| Text.JoinSplit | include/bc/network/address.hpp:84 | the pieces of a split contain no delimiter and joined are the text again |
| Text.FromCharsWhole | include/bc/network/address.hpp:53-56 | on text made of digits from_chars consumes everything, and fails exactly when it is empty or too large |
| Text.FromCharsStopsEarly | include/bc/network/address.hpp:53 | without the character filter it would accept trailing text |
| Text.PrintValue | include/bc/network/address.hpp:198 | a printed number consists of digits and denotes the number |
| Text.PrintIsShortest | include/bc/network/address.hpp:208 | no digits with the same value are fewer |
| Text.DigitsInOrder | include/bc/network/address.hpp:53 | the sixteen digits in their order, read in either case and printed in lower case; no other character is one |
| Text.ValueFromLeft | include/bc/network/address.hpp:53 | a first digit adds its value times the base to the power of the number of digits behind it |
| ByteOrder.SwappedInMemory | include/bc/network/address.hpp:154 | htonl puts the most significant byte first in memory |
| ByteOrder.SwappedTwice | include/bc/network/address.hpp:205-207 | the conversions undo themselves at every width |
| ByteOrder.NetworkOrderCancels | include/bc/network/address.hpp:153 | htons and ntohs cancel, both ways |
| ByteOrder.TwoBytes | include/bc/network/address.hpp:153 | the layout of sixteen bits in memory, and htons and ntohs as arithmetic |
| ByteOrder.FourBytesInMemory | include/bc/network/address.hpp:154 | an address in network order lies in memory with its most significant byte first |
| Ipv4.ParseIpv4 | include/bc/network/address.hpp:35-65 | the parser that fills the bytes of an integer computes the four-octet reading of the text |
| Ipv4.ReadIsOctet | include/bc/network/address.hpp:53-56 | after the character filter not looking at the end pointer loses nothing |
| Ipv4.DottedQuadRead | include/bc/network/address.hpp:35-65 | four octets of any length joined by dots give their big-endian positional value |
| Ipv4.ReadExactly | include/bc/network/address.hpp:35-65 | accepted with an address if and only if the text is four octets joined by dots with that value |
| Ipv6.ReadHead | include/bc/network/address.hpp:88-106 | the first loop stays in bounds and reads the groups before an empty piece, the end or the ninth |
| Ipv6.ReadTail | include/bc/network/address.hpp:108-123 | the second loop stays in bounds and reads the groups after the empty piece |
| Ipv6.PlaceTail | include/bc/network/address.hpp:130-132 | the copy ends exactly at the end of the address |
| Ipv6.ReadPieces | include/bc/network/address.hpp:84-134 | both loops together compute the reading of the pieces, rejections included |
| Ipv6.ParseIpv6 | include/bc/network/address.hpp:67-139 | the parser computes the reading of the text, each group in network order |
| Ipv6Forms.ReadCompressed | include/bc/network/address.hpp:67-139 | for every list of fewer than eight groups, then a double colon, then any text: the expansion of RFC 4291 if the text is groups, at most seven in all and not none, and a rejection otherwise |
| Ipv6Forms.TwoCompressionsRejected | include/bc/network/address.hpp:111-113 | a second double colon is rejected |
| Ipv6Forms.FormRead | include/bc/network/address.hpp:67-139 | every form listed is accepted and means its groups with zeros in the gap |
| Ipv6Forms.ExpandedAt | include/bc/network/address.hpp:130-132 | group by group: the head's values, zeros, the tail's values at the end |
| Ipv6Forms.ReadExactly | include/bc/network/address.hpp:67-139 | accepted with these groups if and only if the text is of one of the forms that denote them |
| Address.From | include/bc/network/address.hpp:147-166 | computes the outcome that `Address.InvalidExactly`, `Address.V4Exactly` and `Address.V6Exactly` describe: IPv4 text first, then IPv6 text, otherwise invalid_address |
| Address.InvalidExactly | include/bc/network/address.hpp:147-166 | invalid_address if and only if the text is no four octets joined by dots and of none of the IPv6 forms |
| Address.V4Exactly | include/bc/network/address.hpp:149-156 | an IPv4 address if and only if the text is four octets joined by dots whose values are, in this order, the address's bytes in memory, the port's most significant byte first |
| Address.V6Exactly | include/bc/network/address.hpp:157-164 | an IPv6 address if and only if the text denotes eight groups that lie in memory most significant byte first, as does the port; flow information and scope are zero |
| Address.FamiliesDisjoint | include/bc/network/address.hpp:149-157 | no text is accepted by both parsers, so the order of trying does not matter |
| Address.Expr | include/bc/network/address.hpp:195-210 | prints host and port, from the bytes in memory or the groups in host order |
| Address.V4Prints | include/bc/network/address.hpp:195-200 | the octets in decimal, most significant first, joined by dots; a colon and the port |
| Address.V6Prints | include/bc/network/address.hpp:201-209 | the eight groups in lower-case hexadecimal joined by colons, in brackets; a colon and the port; nothing else of the address |
| Address.HostPartRestoresAddress | include/bc/network/address.hpp:147-210 | printing the host and parsing it back with the same port gives the same address if and only if flow information and scope are zero |
| Address.PrintedAlike | include/bc/network/address.hpp:195-210 | two addresses print alike if and only if they differ at most in flow information and scope |

## Left out

- Growth.Adjusted: models the repaired `bit_ceil(index + 1)`; what the source's form does is stated by `Growth.LiteralFormMissesPowersOfTwo` and `Growth.LiteralFormExactly`.
- Growth.Grown: is the resize to the repaired size, for the same reason.
- Growth.GrowthIsLinear: counts the resizes of the repaired growth.
- Scheduling.Poller.AdjustSize: grows by the repaired form, since with the source's the next access may be out of range.
- Scheduling.Scheduler.AwaitTask: passes over a task index that was never created, which no program of the source can name; results of non-void tasks and `task::operator()` are not modelled.
- Scheduling.Scheduler.Resume: goes on with a frame destroyed while suspended as if it were alive; the source's behaviour is undefined there, and `dangling` says so.
- Scheduling.Scheduler.HandleList: gives each proxy a finite number of refusals per event, as the source would otherwise loop for ever.
- Scheduling.Scheduler.Poll: iterates over a snapshot, where the source iterates over `evs_`, which a post may resize; exactly when it does not is `Interest.BufferStaysExactly`; failures of `epoll_wait` are not modelled.
- Scheduling.Scheduler.Run: ends after `patience` polls with descriptors still waited on, standing for an environment that goes silent; nothing is promised about when events arrive.
- Scheduling.Poller.EpollCtl: never fails, so exceptions out of the loop are not modelled.
- LogFormat.Format: requires a rendering with some character other than a newline, since the source looks at the last character of an empty string otherwise.
- LogWorker.Worker.Flush: stops before the wait; the wait is on a variable the worker does not signal (src/log/worker.cpp:36 and 74), so what a set flag means is proved, not that the wait ends.
- LogWorker.Worker.Destruct: says when `~logger` may pass, not that its wait ends.
- LogWorker.ConsiderateOwnersAreSafe: goes one way; the exact condition, that no notification is due, is `LogWorker.DestroyIsSafeExactly`, and an owner cannot see it.
- LogWorker.Worker.Log: starts after the level check, a comparison of two enumerators.
- Rendering of timestamps by `fmt`: a date is any text that is not just newlines; thread and line numbers are printed in decimal.
- The server's accept loop as one program: it does not end, so it is covered by its pieces (accept proxy, call of a session, sweep) in any order and number; `~server`, which destroys clients and the loop's own frame while suspended, is not modelled.
- Reading, writing, accepting and connecting on sockets, and their error codes.
- `backend`, `client`, `expected`, `overload` and `select`: thin wrappers and templates.
- Start and destruction order of the worker's fields.
- The memory layout of `sockaddr` beyond port, address, flow information and scope; `domain`, `socklen` and `sockaddr` are case tables.
