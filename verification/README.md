# Batonlib: a verified model of its coroutine scheduler

Batonlib is a single-threaded cooperative coroutine library: coroutines with their own stacks, an event
loop over epoll, a hashed time wheel for timeouts, condition variables and bounded channels. This project
models that core in Dafny and proves what it promises over whole runs. Nothing here is executed: the
statements are checked by the Dafny verifier (`dafny verify dfyconfig.toml`).

## How the project is laid out

Code that changes linked structures or fields in place is modelled by classes whose methods are proved
against functions on values; the properties of whole runs are proved about those functions.

| part | classes (in place) | values and theorems |
|---|---|---|
| intrusive lists | `IntrusiveLists` (`TimeItem`, `TimeLink`, `RemoveItem`) | `Sequences` |
| time wheel | `TimeWheels.TimeWheel` | `WheelModel` (one call), `WheelRuns` (runs), `DeadlineQueue` (the reference) |
| event loop, conditions | `EventLoops.EventLoop`, `EventLoops.CoCondition`, together `WaitLists.WaitLists` | `Runtime`, `RuntimeInvariant`, `RuntimeTheorems` |
| coroutines and call stack | `CallStacks.CallStack` | `Runtime`, `RuntimeTheorems` |
| scheduler | `Schedulers.Scheduler`, on the call stack and the wait lists | `Runtime`, `RuntimeTheorems` |
| channel | `Channels.Channel`, on the scheduler | `ChannelModel` (the channel alone), `ChannelSteps` (inside the scheduler), `ChannelAnswers` (what each call is answered) |
| stack switch | `ContextSwitch.Cpu` | `ContextRuns` |
| partial writes | `PartialWrite.CoWrite`, `PartialWrite.CoSend`, over `PartialWrite.Kernel` | `PartialWrite.Over` and the lemmas about it |

**Time wheel.** `WheelModel` writes out the C++ arithmetic: the 64-bit difference that wraps for a deadline
in the past, the `int` the gap is truncated to, the cap, the cursor. The wheel read from its cursor on
(`Flat`) is shown to be a queue sorted by deadline, ties in insertion order: adding is stable insertion,
removing takes one entry out, taking hands out exactly the due prefix, over every run of the three
(`WheelRefinesQueue`). Two claims one might expect are false in the code, and the exact conditions are
proved: a deadline exactly one wheel size ahead is accepted but fires at the next take
(`AddKeepsExactIff`), and a gap whose low 32 bits do not pass for a large enough `int` takes too few slots
(`TakeExactIff`, `LongSilenceCutsShort`). In seconds mode nothing fires a full second early
(`SecondsNeverEarly`), except after gaps just below a multiple of 2^32 ms: there the count is 0 and the
cursor steps back. `NeverEarlyIff` says exactly when that is harmless: the wheel reaches no further than the
gap, and the cursor is not at 0 or the wheel size divides 2^64. Otherwise an entry can fire early, because
the last slot comes under the cursor (`StepBackFiresEarly`) or because the cursor wraps to 2^64 - 1 and two
offsets share a slot (`WrappedCursorFiresEarly`).

**Scheduler.** `Runtime` is the scheduler as a transition system: spawn, resume, yield, register_event,
condition wait, signal and broadcast, the end of a coroutine, and the phases of the event loop, for any
number of coroutines, items, descriptors and conditions. Items are numbered as they are created.
`RuntimeTheorems` shows, for every reachable state or every run: each coroutine is in exactly one place and
none is lost; freed are exactly the coroutines that ended, at the latest before the next poll; every wait is resumed at most once and is never
forgotten; a round of the event loop gives every wait the right answer, readiness winning over the deadline;
coroutines resume in the order they became active; resume and yield nest like calls.

The code checks little of what its callers do, so the obligations are stated and shown to be exact: a
coroutine may be resumed just when it is new or parked by a bare yield (`ResumeSafeIff`, with the misuse
`ResumedWaiter`), only coroutines and not main may yield or wait (`YieldSafeIff`), and `RegisterSafeIff` says
which calls of register_event keep the invariant. Under the first two, and whatever the callers of
register_event do, coroutines are conserved, freed only after their end, and resumed in order.

The linked structures are tied to these states. `WaitLists.Shows(s)` says that the wheel, the active list,
epoll, the condition deques and the records of the waits hold what state s says, `Scheduler.At(s)` adds the
call stack and that s can be reached from a new scheduler. Every method of `Scheduler` takes `At(s)` to
`At(Apply(s, step))` for its step, so the theorems above speak about the pointers. In particular the ready
loop meets every record the kernel reports where it expects it, and its error exit is dead code
(`WatchedIsReady`).

**Channel.** Over every interleaving of producers and consumers no value is lost or reordered and no wakeup
is lost, although a signal only moves a waiter to the active list and a later caller may overtake it
(`ChannelModel`). `ChannelSteps` puts the channel inside the scheduler: put, get and close are condition
waits, signals and broadcasts, every other step of the scheduler leaves the channel undisturbed
(`ForeignSeen`), and so the promises hold among everything else the scheduler does (`ChannelAmongOthers`).
`Channels.Channel` makes these moves on the scheduler's linked structures. `ChannelAnswers` keeps a record of
every call and its outcome, from the moves alone: what the gets returned, in order, and then the queue are the
arguments of the accepted puts, in order (`ReturnedWasStored`), and which call is refused, waits or succeeds,
and whom it wakes, is fixed after every run (`EveryCallIsAnswered`).

**Stack switch.** Any number of coroutines with separate stacks may switch among each other; each sees
every call of context_swap return as an ordinary call would.

**Partial writes.** `Kernel` answers writes and waits as it likes and records what it was asked. The record of
one call of co_write or co_send (`Over`) is such that every write offers exactly the bytes not yet taken, a
failed wait is reported at once, and the result counts what the kernel got; it leaves the call no choice
(`AnswersDecide`).

Conventions of the model:

- Times are below 2^63 and wheel sizes below 2^31. The 64-bit sums of the wheel wrap as in C++
  (`SlotIndex`, `Moved`); that they do not, or do so harmlessly, is part of the invariant (`Ranged`).
- Coroutines are numbers, and their flags a map of the call stack.
- `Open`, `Deep`, `Inside`, `Seen` and `Told` are always true; they keep definitions folded in proofs that need not
  look inside.
- `add_timeout` falls off its end without a return value when it succeeds; the model returns 0.
- The signed increment of the count at exactly 2^31 - 1 is undefined in C++; the value model wraps it, the
  linked wheel excludes it (`TakeDefined`), and no guarantee relies on it.
- The remainder in the slot arithmetic is defined by repeated subtraction; `WrapIsRemainder` equates it
  with `%`.
- A method of the source that yields in the middle is modelled from one suspension to the next: for
  instance `put` up to its return or its wait, and again from its resumption.
- What the source's comments in README.md:204-242 show of the switch is an older push/pop version; the model
  follows `context_swap.S`.

## Model

| member | source | states |
|---|---|---|
| DeadlineQueue.InsertIsStable | Batonlib/time_wheel.cpp:54-70 | insertion into the reference queue keeps deadline order, goes behind equal deadlines and disturbs nothing else |
| DeadlineQueue.TakeIsPrefix | Batonlib/time_wheel.cpp:96-121 | taking from the reference queue splits it into the due prefix and the later rest |
| WheelModel.WrapIsRemainder | Batonlib/time_wheel.cpp:54 | the slot index is the sum modulo the wheel size |
| WheelModel.AcceptsWindow | Batonlib/time_wheel.cpp:39-47 | in both modes add_timeout accepts a deadline iff it is not past and at most one wheel size ahead in whole slots, wrap-around included |
| WheelModel.AddRefinesInsert | Batonlib/time_wheel.cpp:37-71 | adding inside the window is stable insertion by deadline and keeps every entry at its exact offset |
| WheelModel.AddKeepsExactIff | Batonlib/time_wheel.cpp:44-54 | adding keeps offsets exact iff the deadline is not exactly one wheel size ahead; such an entry is taken at once |
| WheelModel.TakeCounted | Batonlib/time_wheel.cpp:83-123 | a take whose count reaches the gap or the cap hands out exactly the due entries in order and keeps the rest |
| WheelModel.TakeBackwards | Batonlib/time_wheel.cpp:75-76 | when the clock went backwards nothing is taken and nothing was due |
| WheelModel.TakeExactIff | Batonlib/time_wheel.cpp:83-94 | for every wheel size n and gap: all takes are exact iff the gap is below n or its low 32 bits lie from n - 1 up to 2^31 - 2 |
| WheelModel.ReachingCount | Batonlib/time_wheel.cpp:83-90 | those are just the gaps whose truncated, incremented and capped count is the smaller of gap + 1 and n |
| WheelModel.LongSilenceCutsShort | Batonlib/time_wheel.cpp:83 | a gap of 2^32 ms is counted as one slot |
| WheelRuns.RemoveRefines | Batonlib/time_wheel.cpp:126-150 | removing takes exactly that entry out of the queue |
| WheelRuns.WheelRefinesQueue | Batonlib/time_wheel.cpp:37-150 | over every run of add, remove and take in millisecond mode, for every gap whose count reaches, the wheel hands out what the deadline queue hands out and keeps what it keeps |
| WheelRuns.QueueStepKeeps | Batonlib/time_wheel.cpp:37-150 | the queue stays sorted and inside the window; a take hands out all due entries and only those, in deadline order |
| WheelRuns.WheelRunKeeps | Batonlib/time_wheel.cpp:37-150 | over every run the wheel stays sorted and inside its window and each take hands out due entries only, in deadline order |
| WheelRuns.SecondsNeverEarly | Batonlib/time_wheel.cpp:41-124 | over every run in seconds mode, truncated counts included, whose takes satisfy the condition of NeverEarlyIff, an entry handed out at now has its deadline at most at now + 999 |
| WheelRuns.NeverEarlyIff | Batonlib/time_wheel.cpp:41-124 | for every start, time, wheel size and cursor: a take, any add and another take at that time hand out nothing a second early on all wheels iff the count is not 0, or the wheel reaches no further than the gap and the cursor is not at 0 or the size divides 2^64 |
| WheelRuns.StepBackFiresEarly | Batonlib/time_wheel.cpp:83-123 | on a wheel that reaches further than a gap of count 0, a wheel whose next take hands out an entry a second or more early |
| WheelRuns.WrappedCursorFiresEarly | Batonlib/time_wheel.cpp:54-123 | with the cursor at 0 and a size that does not divide 2^64, after a gap of count 0 an entry added in the future is handed out at once |
| IntrusiveLists.TimeLink.Append | Batonlib/time_wheel.cpp:58-70 | the node becomes the last of a list that stays well formed in both directions |
| IntrusiveLists.TimeLink.PopHead | Batonlib/scheduler.cpp:195-206 | the first node leaves the list unlinked, the rest stays well formed |
| IntrusiveLists.TimeLink.Splice | Batonlib/time_wheel.cpp:105-120 | a whole list moves behind another, relabelled, in order, leaving the first empty |
| IntrusiveLists.RemoveItem | Batonlib/time_wheel.cpp:126-150 | the node leaves the list it names, whose other nodes keep their order |
| TimeWheels.TimeWheel.constructor | Batonlib/time_wheel.cpp:18-28 | an empty wheel, every slot list well formed, offsets exact |
| TimeWheels.TimeWheel.AddTimeout | Batonlib/time_wheel.cpp:37-71 | the linked wheel does what the value model says; the node names its slot, or no list when refused |
| TimeWheels.TimeWheel.TakeAllTimeout | Batonlib/time_wheel.cpp:73-124 | the linked wheel does what the value model says, appending to the caller's list; every node stays in the list it names |
| TimeWheels.TimeWheel.Remove | Batonlib/time_wheel.cpp:126-150 | removal from the linked wheel is removal from the value model |
| EventLoops.EventLoop.AddReady | Batonlib/scheduler.cpp:126-158 | all reported items, found where `WatchedIsReady` shows them to be, leave the wheel and follow the active list in report order |
| EventLoops.EventLoop.MergeTimeouts | Batonlib/scheduler.cpp:161-189 | the due items, in deadline order, are marked timed out and follow the active list; no other flag changes |
| EventLoops.EventLoop.PollRound | Batonlib/scheduler.cpp:118-189 | a round up to its drain: active items, then ready items, then due items; every linked node in exactly the list it names |
| EventLoops.EventLoop.PopActive | Batonlib/scheduler.cpp:192-206 | the head of the active list is popped unlinked, everything else stays |
| EventLoops.EventLoop.EpollAdd | Batonlib/co_epoll.cpp:19-31 | a descriptor already registered is refused, any other is mapped to its item; the kernel watches what the map holds |
| EventLoops.EventLoop.EpollDel | Batonlib/co_epoll.cpp:33-44 | a descriptor leaves the map and the kernel's set, or is refused when it is in neither |
| EventLoops.EventLoop.RegisterEvent | Batonlib/scheduler.cpp:61-98 | the three ways register_event goes: refused without effect, refused with the descriptor left behind, or a new item in epoll and, with a timeout, in the wheel |
| EventLoops.EventLoop.RegisterDone | Batonlib/scheduler.cpp:100-111 | the descriptor leaves epoll, the item is gone, the caller gets its timeout flag |
| EventLoops.CoCondition.Wait | Batonlib/co_condition.cpp:18-33 | a new unlinked item is queued behind the other waiters |
| EventLoops.CoCondition.Signal | Batonlib/co_condition.cpp:42-64 | the longest waiting item, if any, becomes the last of the active list |
| EventLoops.CoCondition.Broadcast | Batonlib/co_condition.cpp:66-88 | the whole deque follows the active list in waiting order and is empty afterwards |
| RuntimeInvariant.StepKeeps | Batonlib/scheduler.cpp:61-236 | every step of the scheduler keeps the invariant: one place per coroutine, one list per item, nothing forgotten, nothing dangling |
| RuntimeTheorems.ReachableInv | Batonlib/scheduler.cpp:12-236 | the invariant holds in every reachable state |
| RuntimeInvariant.PlacesKept | Batonlib/coroutine.cpp:65-90 | every step, whatever the callers of register_event do, if only new or parked coroutines are resumed and only coroutines wait or yield, keeps each coroutine in one place and loses or invents none |
| RuntimeTheorems.ExactlyOnePlace | Batonlib/coroutine.cpp:12-90 | over every run, whatever the callers of register_event do, if only new or parked coroutines are resumed and only coroutines wait or yield, main and each spawned coroutine are new, on the stack, parked, waiting on one item, queued for destruction or freed, never two of these, and nothing else is anywhere |
| RuntimeTheorems.NothingDangles | Batonlib/scheduler.cpp:229-236 | in every reachable state no list leads to a deleted item, to an ended coroutine or to a freed one |
| RuntimeTheorems.FreedOnlyAfterFinish | Batonlib/scheduler.cpp:229-236 | over any run, whatever the callers of register_event do, if only new or parked coroutines are resumed and only coroutines wait or yield, a coroutine queued for destruction or freed ended its function while it was running |
| RuntimeTheorems.FreedIffFinished | Batonlib/scheduler.cpp:229-236 | after any run of a new scheduler that ends with clear_co nobody is queued for destruction, and freed are exactly those whose function returned during the run |
| RuntimeTheorems.FreedBeforeNextPoll | Batonlib/scheduler.cpp:215-226 | in a loop that is not left, whoever ended since the last poll or was queued before is freed when the loop comes to its next poll |
| RuntimeTheorems.LoopGoesOn | Batonlib/scheduler.cpp:114-227 | control back in the loop never sticks: the poll is possible, active coroutines are resumed until none is left, then the hook and clear_co follow, which frees all who are queued |
| RuntimeTheorems.PhasesInOrder | Batonlib/scheduler.cpp:114-227 | poll, drain, hook and clear_co follow each other in this order, and the drain ends only with an empty active list |
| RuntimeTheorems.WokenExactlyOnce | Batonlib/scheduler.cpp:61-214 | every item ever created still waits or was resumed exactly once |
| RuntimeTheorems.AnswerNeverChanges | Batonlib/scheduler.cpp:106-111 | over every run the timeout flag a wait returned stays as it was |
| RuntimeTheorems.RoundAnswers | Batonlib/scheduler.cpp:114-214 | after a round every reported wait was resumed with false, every other due one with true, and all others still wait |
| RuntimeTheorems.PollOrder | Batonlib/scheduler.cpp:121-189 | a poll appends the reported items in report order, then exactly the other due items in deadline order, ties in the order of registration |
| RuntimeTheorems.ResumeOrder | Batonlib/scheduler.cpp:191-214 | over any run, whatever the callers of register_event do, if only new or parked coroutines are resumed and only coroutines wait or yield, coroutines resume in the order their items became active |
| RuntimeTheorems.WakingIsFifo | Batonlib/co_condition.cpp:42-88 | a signal wakes the longest waiter of its condition, a broadcast all of them in waiting order, and everyone waiting on it is in its deque |
| RuntimeTheorems.ReadyItemsAreLinkedRight | Batonlib/scheduler.cpp:126-145 | at every poll a reported item is in the wheel if it has a deadline and in no list otherwise |
| RuntimeTheorems.RegisterSafeIff | Batonlib/scheduler.cpp:61-98 | register_event keeps the invariant iff the descriptor is not already waited on, the deadline lies inside the wheel's window, and a refused timeout leaves no descriptor behind |
| RuntimeTheorems.LeftoverDescriptor | Batonlib/scheduler.cpp:76-94 | a first call with timeout 0 leaves an epoll entry without an item |
| RuntimeTheorems.ResumeSafeIff | Batonlib/coroutine.cpp:65-80 | resume keeps the invariant iff the coroutine is new or parked by a bare yield |
| RuntimeTheorems.YieldSafeIff | Batonlib/coroutine.cpp:82-90 | yield keeps the invariant iff it is not main that yields |
| RuntimeTheorems.ResumedWaiter | Batonlib/coroutine.cpp:65-80 | main resumes a coroutine that waits on a descriptor: it is then on the stack and still waiting |
| RuntimeTheorems.ResumeIsStackLike | Batonlib/coroutine.cpp:65-90 | when control first returns to the depth of a resume, the call stack is the one before it; the event loop sees exactly main |
| CallStacks.CallStack.Resume | Batonlib/coroutine.cpp:65-80 | a coroutine that has not ended and is not on the stack, as ResumeSafeIff requires, is started and on top of a stack without repetitions |
| CallStacks.CallStack.Yield | Batonlib/coroutine.cpp:82-90 | the running coroutine leaves the stack and its resumer is on top |
| CallStacks.CallStack.FinishRunning | Batonlib/coroutine.cpp:12-24 | the ended coroutine is queued for destruction once and is off the stack |
| CallStacks.CallStack.ClearCo | Batonlib/scheduler.cpp:229-236 | exactly the queued coroutines are freed, none twice and none on the stack |
| WaitLists.WaitLists.WatchedIsReady | Batonlib/scheduler.cpp:126-145 | in every reachable state at a poll, the node of a record the kernel watches is linked in the wheel if it has a deadline and in no list otherwise: the error return is dead code and removeitem finds its list |
| WaitLists.WaitLists.WatchedHasNode | Batonlib/co_epoll.cpp:25-29 | every record the kernel watches belongs to a wait that has not ended |
| Schedulers.Scheduler.constructor | Batonlib/scheduler.cpp:12-34 | a new scheduler is in the initial state |
| Schedulers.Scheduler.Spawn | Batonlib/coroutine.cpp:40-54 | creating a coroutine is the spawn step |
| Schedulers.Scheduler.Resume | Batonlib/coroutine.cpp:65-80 | resume of a new or parked coroutine is the resume step, from a reachable state to a reachable state |
| Schedulers.Scheduler.Yield | Batonlib/coroutine.cpp:82-90 | a bare yield is the yield step |
| Schedulers.Scheduler.Finish | Batonlib/coroutine.cpp:12-24 | the end of a coroutine's function is the finish step |
| Schedulers.Scheduler.ClearCo | Batonlib/scheduler.cpp:229-236 | clear_co is the clearing step: nobody is queued any more and exactly those who were are freed |
| Schedulers.Scheduler.RegisterEvent | Batonlib/scheduler.cpp:61-98 | register_event on epoll, the linked wheel and the call stack is the register step; it says whether its caller yielded |
| Schedulers.Scheduler.CondWait | Batonlib/co_condition.cpp:18-33 | co_cond_wait up to its switch is the waiting step |
| Schedulers.Scheduler.Signal | Batonlib/co_condition.cpp:42-64 | co_cond_signal on the linked active list is the signal step |
| Schedulers.Scheduler.Broadcast | Batonlib/co_condition.cpp:66-88 | co_cond_broadcast is the broadcast step |
| Schedulers.Scheduler.Poll | Batonlib/scheduler.cpp:118-189 | for any records the kernel watches, each reported once, a round of the event loop on the linked lists is the poll step |
| Schedulers.Scheduler.PopResume | Batonlib/scheduler.cpp:192-213 | the pop of the drain, the resumption and the release of the wait's resources are the resuming step, and the coroutine gets the flag the history records |
| ChannelModel.StepKeeps | Batonlib/channel.h:103-179 | every put, get, resumption, close and outside signal keeps conservation and the wakeup counts |
| ChannelModel.EveryRun | Batonlib/channel.h:103-170 | over every interleaving: delivered then queued is accepted, size is the queue length within the capacity, no wakeup is lost |
| ChannelModel.NoDeadlock | Batonlib/scheduler.cpp:191-214 | once the active list holds none of its waiters, getters wait only on an empty and putters only on a full queue, never both |
| ChannelModel.CloseIsFinal | Batonlib/channel.h:105-179 | after close nothing is accepted or delivered, nobody waits, every put, get and resumption of one is refused |
| ChannelModel.CloseWakesAll | Batonlib/channel.h:172-179 | after close the next resumptions are of those already signalled, then the putters, then the getters, each in waiting order, and every one of them is refused |
| ChannelModel.DrainSettles | Batonlib/scheduler.cpp:191-214 | draining the waiters of a channel ends in a state where nobody waits in vain |
| ChannelSteps.PutSeen | Batonlib/channel.h:125-146 | put as a condition wait or a signal of the scheduler is the put of the channel model |
| ChannelSteps.GetSeen | Batonlib/channel.h:148-170 | likewise get |
| ChannelSteps.CloseSeen | Batonlib/channel.h:172-179 | the two broadcasts of close are the close of the channel model |
| ChannelSteps.ResumeSeen | Batonlib/scheduler.cpp:192-213 | the resumption of a coroutine inside the channel and the rest of its call are the resumption of the channel model |
| ChannelSteps.ForeignSeen | Batonlib/scheduler.cpp:61-236 | no step of anybody else disturbs the channel: to it, others come to the end of the active list or leave its head |
| ChannelSteps.ChannelAmongOthers | Batonlib/channel.h:103-179 | over every run of the scheduler with its calls and everybody else's steps: values are conserved in order and never more than the given capacity, no wakeup is lost, and with none of its coroutines active nobody waits in vain |
| ChannelAnswers.ReturnedWasStored | Batonlib/channel.h:103-170 | over every such run, fresh calls and resumptions alike: the arguments of the accepted puts, in order, are the values the gets returned, in order, and then the queue |
| ChannelAnswers.EveryCallIsAnswered | Batonlib/channel.h:103-170 | after every such run a put or get is refused iff the channel is closed and waits iff an open one is full, or empty; an accepted put has its argument at the end of the queue, a get its head; a waiter joins its condition, success signals the other one; who goes on had made a call that waited |
| Channels.Channel.constructor | Batonlib/channel.h:69-93 | a new channel with its two conditions is empty and sound in the current state of the scheduler |
| Channels.Channel.Put | Batonlib/channel.h:125-146 | refused iff closed; waits on full_ iff open and at capacity; otherwise its argument is behind the queue and one getter is signalled; all on the scheduler's linked structures, as the move PutMove, from a sound reachable state to another; main may call it when it need not wait |
| Channels.Channel.Get | Batonlib/channel.h:148-170 | refused iff closed; waits on empty_ iff open and empty; otherwise it answers the head of the queue, which is removed, and one putter is signalled; likewise on the linked structures, as GetMove |
| Channels.Channel.Close | Batonlib/channel.h:172-179 | likewise close |
| Channels.Channel.ResumeHead | Batonlib/channel.h:130-135 | the drain pops the head of the linked active list, resumes its coroutine, and its put or get goes on and is answered like a fresh one: the move ResumeMove |
| Channels.Channel.DrainActive | Batonlib/scheduler.cpp:191-214 | the drain loop over the channel's coroutines, each ending after its call, ends in the state the model drains to, with nobody waiting in vain |
| ContextSwitch.Cpu.ContextSwap | Batonlib/context_swap.S:4-39 | the caller's registers and return address are saved in its block, the other block's are loaded and returned to, no other memory changes but the pushed return address |
| ContextSwitch.Cpu.ContextMake | Batonlib/co_context.cpp:32-48 | the function is written to the highest 16-aligned word inside the stack; the block is zeroed but for that stack top, the function and the arguments; no other memory changes |
| ContextSwitch.StackTopIsHighest | Batonlib/co_context.cpp:34-35 | no aligned word inside the stack is higher, and less than 24 bytes lie from it to the end |
| ContextSwitch.MakeStaysInside | Batonlib/co_context.cpp:34-41 | the word written lies inside the stack for every base iff the stack has at least 23 bytes |
| ContextRuns.SwitchesAreInvisible | Batonlib/context_swap.S:4-39 | over any run a coroutine that is entered again has the registers it left with, continues at its return address with rsp 8 higher, and finds its stack unchanged |
| ContextRuns.MadeContextStarts | Batonlib/co_context.cpp:32-48 | the first entry of a made context is at its function with its arguments, all other registers 0, rsp + 8 a multiple of 16, and all of the stack but 15 bytes at most below rsp |
| PartialWrite.CoWrite | Batonlib/co_sys_call.cpp:127-166 | whatever the kernel answers, what it was asked during the call is one finished exchange in the sense of `Over`: a write, then waits and writes in turn, each write offering what the one before left |
| PartialWrite.CoSend | Batonlib/co_sys_call.cpp:168-205 | likewise, a first send of -1 with bytes to send being followed by a wait and another send |
| PartialWrite.HowItEnds | Batonlib/co_sys_call.cpp:138-165 | a wait ends the call iff it failed, a write iff it took nothing or all (for co_send not a failed first one); TIME_OUT iff the last wait failed, and then bytes are left; otherwise the bytes taken, or the last answer if there are none |
| PartialWrite.CountIsReceived | Batonlib/co_sys_call.cpp:145-165 | every write offers just what the kernel has not got; it gets a gap-free prefix of the buffer; a count is its length, -1 means it got nothing, a timeout that it did not get all |
| PartialWrite.AnswersDecide | Batonlib/co_sys_call.cpp:127-205 | two exchanges in which kernel and scheduler answer alike are the same and have the same result |

## Left out

- TimeWheels.TimeWheel.TakeAllTimeout: excludes the gaps at which `count++` overflows, which is undefined in C++; all others, truncated ones and a cursor that wraps included, are in. The null check of the caller's list is not modelled.
- EventLoops.EventLoop.AddReady: takes nodes that are where the ready loop expects them; that the reported ones always are is `WaitLists.WatchedIsReady`. `PollRound` and `MergeTimeouts` share this and the condition on the gap.
- Schedulers.Scheduler.Poll: asks for a gap whose count reaches, which `TakeExactIff` shows to be necessary.
- Schedulers.Scheduler.Resume: asks for a new or parked coroutine, which `ResumeSafeIff` shows to be necessary; `CallStacks.CallStack.Resume` likewise. What a misused coroutine does next is not modelled.
- RuntimeInvariant.PlacesKept: and the other results over every run suppose the obligations of `ResumeSafeIff` and `YieldSafeIff`.
- Schedulers.Scheduler.RegisterEvent: asks for the caller's obligations, which `RegisterSafeIff` shows to be necessary.
- RuntimeTheorems.RoundAnswers: speaks of rounds whose drain ends; coroutines may signal each other forever.
- WheelRuns.SecondsNeverEarly: gives no bound on lateness, because polling more than once a second stalls the cursor.
- Channels.Channel.DrainActive: every active coroutine is inside this channel and ends after its operation; other waits and arbitrary further code are covered by `ChannelSteps.ChannelAmongOthers`.
- EventLoops.EventLoop.RegisterEvent: allocation failure and the leaked item of a refused timeout are not modelled.
- ContextSwitch.Cpu.ContextSwap: memory is a map of aligned words, registers are unbounded integers; r10, r11, flags and floating-point state, which the code does not save, are absent.
- PartialWrite.CoSend: the socket table, the timeout lookup and the flags are not modelled; `co_read`, `co_recv`, `co_accept`, `co_connect` would only add single calls of `register_event`.
- Real system calls (epoll_wait, write, gettimeofday) are parameters, or methods free to answer anything within the constraints stated at their use.
- `co_epoll::mod`, the event mask of a descriptor, and destructors: single-branch updates without further properties.
- `is_yield_` of the channel: overwritten by every completing operation, it tracks nothing.
- `net/`, `base/`, `coroutine_pool`, the stackless macros and coroutine-local variables: thin layers over the modelled core or unrelated to it.
- Stack allocation and guard pages, and resuming a coroutine of another thread.
