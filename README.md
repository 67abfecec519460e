# Coroutine stacks and the Linux event watcher, in Dafny

This project models two small, sequential pieces of the RethinkDB runtime and
proves properties of them.

- **The coroutine stack ring** (`src/coroutine/Coro.cc`), in `coro.dfy`.
  Each thread owns a ring of 10000 fixed 16 KiB stacks. `get_stack` hands them
  out round-robin through a cursor and has no free list. `initialize_stacks`
  and `destroy_stacks` set up and release a thread's ring.
  - The `Coro` record's bookkeeping is the class `Coro.Coro`: `Coro_new`,
    `Coro_allocStack`, `Coro_free`, `Coro_stackSize`/`Coro_setStackSize_` and
    `Coro_initializeMainCoro`.
  - The `allocators[]` table is the class `Coro.StackAllocators`. It holds one
    array with the state of each thread's ring and one with its cursor.
  - The cursor behaviour is also written as the pure function `Coro.Acquire`.
    The lemmas about whole runs of acquisitions are stated over that function.
  - The stack headroom check (`Coro_bytesLeftOnStack`,
    `Coro_stackSpaceAlmostGone`) is a function of the current position, the
    stack start, the requested size and the growth direction.
  - The x86-64 trick that passes a pointer to `makecontext` as two 32-bit
    halves is modelled on `bv64`.
- **The file-descriptor watcher** (`src/arch/linux/event_queue.cc`), in
  `event_queue.dfy`.
  - `linux_event_watcher_guts_t` has two one-shot waiters (read and write).
    `remask` keeps the thread-pool queue's registration in step with them,
    and `on_event` dispatches callbacks. A pin (`dont_destroy_yet`) and a
    pending flag (`should_destroy`) defer deletion while callbacks run.
  - The watcher is modelled twice:
    - as a pure state machine over `GutsState`, whose transitions are the
      `After...` functions and about which the lemmas are proved;
    - as the classes `EventWatcherGuts`, `EventWatcher` and `Multicond`,
      whose methods update fields step by step as the source does and whose
      contracts say the new `State()` is the matching transition of the old
      one.
  - The calls the watcher makes to code it does not own are appended to a
    ghost log, in order. These are the queue's
    `watch_resource`/`adjust_resource`/`forget_resource`, the error handler's
    `on_event`, and `multicond_t`'s `add_waiter` and `pulse`.
  - The log is checked against an independent replay of the queue's side
    (`RegisteredMask`, `QueueProtocolOk`).
  - What the code behind a callback does with the watcher is a `Reaction`
    parameter: nothing, watch again, or destroy the handle.

The source's `rassert`s become preconditions. The id of the calling thread is
a parameter; the source reads it from `get_thread_id()` or
`linux_thread_pool_t::thread_id`.

## Model

| member | source | states |
|---|---|---|
| Coro.Acquire | src/coroutine/Coro.cc:58-63 | one `get_stack` step hands out a slot below 10000 and leaves the cursor in [1, 10000], just past the slot; from a reachable cursor the slot is the cursor modulo the ring size |
| Coro.Acquisitions | src/coroutine/Coro.cc:58-63 | k consecutive `get_stack` calls hand out exactly k slots |
| Coro.AcquisitionsCycle | src/coroutine/Coro.cc:61-62 | from any reachable cursor, acquisition number j hands out slot (cursor + j) mod 10000 |
| Coro.FreshRingHandsOutConsecutiveSlots | src/coroutine/Coro.cc:61-66 | a freshly initialised ring hands out slots 0, 1, 2, … in order for its first 10000 acquisitions |
| Coro.RingWindowSlotsDistinct | src/coroutine/Coro.cc:61-62 | any 10000 consecutive acquisitions hand out pairwise distinct slots |
| Coro.RingReissuesSlotAfterFullTurn | src/coroutine/Coro.cc:61-62 | with no free list, the acquisition after a full turn reissues the first slot of that turn |
| Coro.FreshRingWrapsToFirstSlot | src/coroutine/Coro.cc:61-66 | on a fresh ring, acquisition number 10001 returns slot 0 again |
| Coro.StackAllocators.constructor | src/coroutine/Coro.cc:52-56 | the static table starts with no ring and a zero cursor for each of the 50 threads |
| Coro.StackAllocators.GetStack | src/coroutine/Coro.cc:58-63 | needs a thread id below 50 and a live ring for that thread, neither of which the source checks; returns a slot in [0, 10000), leaves the cursor in [1, 10000] as `Acquire` prescribes, and changes no other thread's cursor |
| Coro.StackAllocators.InitializeStacks | src/coroutine/Coro.cc:65-67 | gives the calling thread a live ring with its cursor at the base; other threads are unchanged |
| Coro.StackAllocators.DestroyStacks | src/coroutine/Coro.cc:69-71 | releases the calling thread's live ring; releasing the null base of a thread without a ring does nothing; other threads are unchanged |
| Coro.Coro.constructor | src/coroutine/Coro.cc:107-119 | a new record requests the default stack size, has allocated nothing, has no stack and is not the main coroutine |
| Coro.Coro.AllocStack | src/coroutine/Coro.cc:121-126 | the record gets the next slot of its thread's ring and its allocated size becomes the requested size; every other field and every other thread's cursor is unchanged |
| Coro.Coro.Free | src/coroutine/Coro.cc:128-149 | the thread's ring is released if and only if the record is the main coroutine; no other thread's ring changes |
| Coro.Coro.SetStackSize | src/coroutine/Coro.cc:158-168 | changes only the requested size, which `StackSize` (`Coro_stackSize`) then returns |
| Coro.Coro.InitializeMainCoro | src/coroutine/Coro.cc:205-219 | marks the record as main and resets the thread's ring to a live one with its cursor at the base; the other fields are unchanged |
| Coro.ToSizeT | src/coroutine/Coro.cc:181-198 | a pointer difference returned as `size_t` is reduced modulo 2^64, so a small negative one becomes 2^64 plus it |
| Coro.BytesLeftOnStack | src/coroutine/Coro.cc:181-198 | the result is a 64-bit count and equals the signed headroom whenever that headroom is representable |
| Coro.StackSpaceAlmostGone | src/coroutine/Coro.cc:200-203 | while the position lies within the stack, the check as written agrees with the signed-headroom check |
| Coro.BytesLeftWithinStack | src/coroutine/Coro.cc:181-203 | within the stack the result is `start + size - p` when the stack grows up and `p - start` otherwise, at most the requested size; the space is almost gone exactly when that is below `CORO_STACK_SIZE_MIN` |
| Coro.HeadroomAlmostGoneStaysSet | src/coroutine/Coro.cc:200-203 | the corrected check is monotone: once almost gone, it stays so as the stack grows further, overrun included |
| Coro.AlmostGoneClearsOnOverrun | src/coroutine/Coro.cc:181-203 | the check as written reports "almost gone" one byte inside the end an upward or a downward stack grows towards, but not one byte past it, where the count wraps to 2^64 - 1 |
| Coro.SignedShiftRight32 | src/coroutine/Coro.cc:354 | `(long long)arg >> 32` keeps the upper half in the low 32 bits and fills the upper 32 bits with the sign |
| Coro.JoinPointer | src/coroutine/Coro.cc:236-238 | the rebuilt pointer's upper half is `hiArg` and its lower half is `loArg` |
| Coro.SplitPointer | src/coroutine/Coro.cc:353-356 | rebuilding the two halves gives back the original pointer |
| Coro.SplitJoinRoundTrip | src/coroutine/Coro.cc:353-356 | splitting a rebuilt pointer gives back the same two halves |
| EventQueue.InterestMask | src/arch/linux/event_queue.cc:120-122 | the new mask has the in bit iff the read waiter is attached, the out bit iff the write waiter is attached, no other bit, and is 0 iff both are detached |
| EventQueue.NewGutsAsWritten | src/arch/linux/event_queue.cc:38-42 | a new guts has no attachment, mask 0, no registration thread, no queue call yet, and is owned by its handle, whatever the two uninitialised flags hold |
| EventQueue.NewGuts | src/arch/linux/event_queue.cc:38-42 | the constructor with both flags assumed false: unpinned, nothing pending, both waiters detached, unregistered, no outside call yet |
| EventQueue.NewGutsIsWellFormed | src/arch/linux/event_queue.cc:38-42 | with both flags starting false, a new guts is consistent with the queue and idle |
| EventQueue.AfterRemask | src/arch/linux/event_queue.cc:116-143 | `remask` ends with `old_mask` equal to the interest mask, keeps the registration asserts, changes only the mask, the registration thread and the log, and makes at most one queue call |
| EventQueue.RemaskTransitions | src/arch/linux/event_queue.cc:124-140 | the four outcomes: forget and unregister, adjust to the new mask, watch and register on this thread, or no queue call when the mask is unchanged |
| EventQueue.RemaskKeepsRegistrationConsistent | src/arch/linux/event_queue.cc:124-142 | after `remask` the registration thread is -1 exactly when the mask is 0, and otherwise the calling thread |
| EventQueue.RemaskIdempotent | src/arch/linux/event_queue.cc:116-143 | a second `remask` with the same attachments changes nothing |
| EventQueue.RemaskKeepsQueueInSync | src/arch/linux/event_queue.cc:116-143 | each queue call `remask` makes is legal for the queue, the queue then holds the watcher's mask, and no callback is made |
| EventQueue.AfterWaiterWatch | src/arch/linux/event_queue.cc:62-67 | watching needs a free waiter; that waiter gets the multicond, `add_waiter` is called before the remask, the other waiter is untouched, and the mask follows |
| EventQueue.AfterWatch | src/arch/linux/event_queue.cc:110-114 | only in or out may be watched, and only the matching waiter changes |
| EventQueue.AfterPulsed | src/arch/linux/event_queue.cc:72-76 | being pulsed needs an attachment; it is cleared, the other waiter is untouched, and the mask follows |
| EventQueue.AfterPulse | src/arch/linux/event_queue.cc:68-71 | the pulse is logged first, then the waiter is detached through `on_multicond_pulsed` |
| EventQueue.AfterDelete | src/arch/linux/event_queue.cc:44-47 | the guts can be deleted only with both waiters detached |
| EventQueue.AfterDestroyHandle | src/arch/linux/event_queue.cc:149-155 | destroying the handle deletes the guts at once when it is not pinned, and otherwise only sets `should_destroy`; pin and log are unchanged |
| EventQueue.AfterReaction | src/arch/linux/event_queue.cc:146-159 | what a callback does through the handle never deletes a pinned guts and sets `should_destroy` exactly when it destroys the pinned handle |
| EventQueue.BeginEvent | src/arch/linux/event_queue.cc:91 | `on_event` first pins the guts; nothing else changes |
| EventQueue.ErrorStage | src/arch/linux/event_queue.cc:93-96 | without error bits the error step changes nothing; it never touches the pin (what it does when called is stated by `ErrorStagePreservesWf` and `ErrorStageKeepsPinned`) |
| EventQueue.PulseStage | src/arch/linux/event_queue.cc:98-104 | without its bit a pulse step changes nothing; with it the waiter ends detached unless the callback watched it again; the pin is untouched (see `PulseStagePreservesWf` and `PulseStageKeepsPinned`) |
| EventQueue.EndEvent | src/arch/linux/event_queue.cc:106-107 | the unpin clears `dont_destroy_yet` and deletes the guts exactly when `should_destroy` is set; owner and log are unchanged |
| EventQueue.AfterOnEvent | src/arch/linux/event_queue.cc:89-108 | `on_event` ends unpinned with no destruction left pending; its callback order and consistency are `OnEventCallbackOrder`, its deferred delete `OnEventNeverDeletesMidCallback` and `OnEventDeletesExactlyWhenClosed` |
| EventQueue.WaiterWatchPreservesWf | src/arch/linux/event_queue.cc:62-67 | watching keeps the watcher consistent with the queue and makes no callback |
| EventQueue.PulsePreservesWf | src/arch/linux/event_queue.cc:68-76 | a pulse keeps the watcher consistent with the queue and adds exactly one pulse to the callbacks |
| EventQueue.DestroyHandlePreservesWf | src/arch/linux/event_queue.cc:149-155 | destroying the handle keeps the watcher consistent and an idle watcher idle |
| EventQueue.ReactionPreservesWf | src/arch/linux/event_queue.cc:146-159 | anything a callback does through the handle keeps the watcher consistent and makes no callback |
| EventQueue.ErrorStagePreservesWf | src/arch/linux/event_queue.cc:93-96 | the error step keeps the watcher consistent and calls the error handler once, with the error bits, exactly when there are any |
| EventQueue.PulseStagePreservesWf | src/arch/linux/event_queue.cc:98-104 | a pulse step keeps the watcher consistent and pulses its waiter exactly when its bit is set |
| EventQueue.OnEventCallbackOrder | src/arch/linux/event_queue.cc:89-108 | `on_event` keeps the watcher consistent, ends unpinned, and makes its callbacks in the fixed order error handler, read pulse, write pulse |
| EventQueue.ErrorStageKeepsPinned | src/arch/linux/event_queue.cc:91-96 | during the error step the guts stays pinned and undeleted, and a destroyed handle is recorded as pending |
| EventQueue.PulseStageKeepsPinned | src/arch/linux/event_queue.cc:98-104 | during a pulse step the guts stays pinned and undeleted, and a destroyed handle is recorded as pending |
| EventQueue.EndEventCarriesOutPending | src/arch/linux/event_queue.cc:106-107 | unpinning deletes the guts exactly when a destruction is pending, and leaves it idle |
| EventQueue.OnEventNeverDeletesMidCallback | src/arch/linux/event_queue.cc:89-104 | the guts is never freed while the callbacks run; afterwards a deletion is pending exactly when some callback destroyed the handle |
| EventQueue.OnEventDeletesExactlyWhenClosed | src/arch/linux/event_queue.cc:89-108 | `on_event` deletes the guts exactly when one of its callbacks destroyed the handle, and leaves it idle |
| EventQueue.WfDeletedOnlyWhenUnowned | src/arch/linux/event_queue.cc:44-47 | a consistent guts is deleted only once its handle is gone and neither waiter is attached |
| EventQueue.WatchReadThenWriteThenDetach | src/arch/linux/event_queue.cc:110-143 | read then write on a new watcher logs exactly add_waiter, watch(in), add_waiter, adjust(in\|out); detaching both logs adjust(out) and a single forget |
| EventQueue.EventOnBothWaitersForgetsOnce | src/arch/linux/event_queue.cc:89-143 | an in\|out event on a watcher waiting both ways logs read pulse, adjust(out), write pulse, forget |
| EventQueue.CloseFromReadPulseIsDeferred | src/arch/linux/event_queue.cc:89-155 | a handle destroyed from the read pulse leaves the guts only marked until `on_event` ends, which then deletes it |
| EventQueue.UninitialisedFlagFreesOwnedGuts | src/arch/linux/event_queue.cc:87-108 | when the uninitialised `should_destroy` happens to be true, the first event deletes a guts that its live handle still owns |
| EventQueue.UninitialisedPinLeaksGuts | src/arch/linux/event_queue.cc:149-155 | when the uninitialised `dont_destroy_yet` happens to be true, destroying the handle of a detached watcher only marks the guts, which is unregistered and so is never deleted |
| EventQueue.NewGutsDestroyedAtOnce | src/arch/linux/event_queue.cc:149-155 | with both flags starting false, destroying the handle of a new watcher deletes its guts at once and leaves it consistent and idle |
| EventQueue.Multicond.Pulse | src/arch/linux/event_queue.cc:68-71 | pulsing the multicond calls back `on_multicond_pulsed` of the attached waiter |
| EventQueue.EventWatcherGuts.constructor | src/arch/linux/event_queue.cc:38-42 | the fields start as `NewGuts`, with the two flags set false as an explicit assumption |
| EventQueue.EventWatcherGuts.Remask | src/arch/linux/event_queue.cc:116-143 | the field updates and queue calls are the `AfterRemask` transition |
| EventQueue.EventWatcherGuts.WaiterWatch | src/arch/linux/event_queue.cc:62-67 | the field updates are the `AfterWaiterWatch` transition |
| EventQueue.EventWatcherGuts.WaiterPulse | src/arch/linux/event_queue.cc:68-71 | the field updates are the `AfterPulse` transition |
| EventQueue.EventWatcherGuts.OnMulticondPulsed | src/arch/linux/event_queue.cc:72-76 | the field updates are the `AfterPulsed` transition |
| EventQueue.EventWatcherGuts.Watch | src/arch/linux/event_queue.cc:110-114 | the field updates are the `AfterWatch` transition |
| EventQueue.EventWatcherGuts.Delete | src/arch/linux/event_queue.cc:44-47 | deletion needs both waiters detached and is the `AfterDelete` transition |
| EventQueue.EventWatcherGuts.RunReaction | src/arch/linux/event_queue.cc:146-159 | a callback's use of the handle is the `AfterReaction` transition |
| EventQueue.EventWatcherGuts.ErrorCallbackStep | src/arch/linux/event_queue.cc:93-96 | the error step is the `ErrorStage` transition |
| EventQueue.EventWatcherGuts.PulseStep | src/arch/linux/event_queue.cc:98-104 | a pulse step is the `PulseStage` transition |
| EventQueue.EventWatcherGuts.EndEventStep | src/arch/linux/event_queue.cc:106-107 | unpinning and the deferred delete are the `EndEvent` transition |
| EventQueue.EventWatcherGuts.OnEvent | src/arch/linux/event_queue.cc:89-108 | the whole of `on_event` is the `AfterOnEvent` transition |
| EventQueue.EventWatcher.constructor | src/arch/linux/event_queue.cc:146-147 | the handle owns a new guts in the `NewGuts` state |
| EventQueue.EventWatcher.Destroy | src/arch/linux/event_queue.cc:149-155 | the handle's destructor is the `AfterDestroyHandle` transition |
| EventQueue.EventWatcher.Watch | src/arch/linux/event_queue.cc:157-159 | the handle's `watch` is the guts' `AfterWatch` transition |

## Left out

- Context switching and its setup (`Coro_switchTo_`, every `Coro_setup` variant, `Coro_Start`, the call through the rebuilt pointer in `Coro_StartWithArg`). These manipulate raw CPU state; only the split and rejoin of the pointer are modelled.
- `Coro_CurrentStackPointer` and the growth-direction probe in `Coro_bytesLeftOnStack` take addresses of locals. The current position and the direction are parameters instead.
- `Coro_stack`, which only returns a field, has no member of its own; the field is `Coro.Coro.stack`.
- `Coro_stackSize` is the field read `Coro.Coro.StackSize`; what it promises, that it reports the requested size and not the allocated one, is stated by `Coro.Coro.SetStackSize`'s ensures.
- The memory of the ring and of the `Coro` record (`calloc`, `free`) is not modelled. A ring is `NoRing`, `Live` or `Freed`; a slot is an index into it. `calloc` failure is not modelled.
- Coro.StackAllocators.GetStack: requires the calling thread's ring to be live. The source checks nothing: before `initialize_stacks` it does pointer arithmetic on a null base, and after `destroy_stacks` it hands out slots of freed memory. Both are undefined behaviour, so the model does not describe them.
- Coro.Coro.AllocStack: requires a live ring for the same reason, since it calls `get_stack`.
- Coro.StackAllocators.DestroyStacks: requires that the ring was not already released, because a second `free` of the same pointer is undefined behaviour.
- Coro.Coro.Free: for a main coroutine, requires the same of the thread's ring, for the same reason; releasing the record itself is not modelled.
- The valgrind stack registration macros, `exit`/`printf` on fatal paths and the fiber-based Windows backend are left out.
- Coro.StackAllocators.InitializeStacks: a second call on the same thread overwrites the ring, leaking the first one, and nothing stops it. The model follows that code; it does not treat the second call as fatal.
- Coro.Coro.AllocStack: also, like the source, it does not check that the requested size fits the 16 KiB slot.
- `CORO_DEFAULT_STACK_SIZE` and `CORO_STACK_SIZE_MIN` are defined in `Coro.hpp`, which is not part of this model. The model takes 32768 and 8192. These are the values in the libcoroutine code this file derives from, unconfirmed for this repository. No property depends on them beyond the concrete counterexample.
- The poll bit values in `EventQueue` (in 0x1, out 0x4, err 0x8, hup 0x10, rdhup 0x2000) are Linux's epoll values; the header that defines them is not part of this model.
- Coro.SplitPointer: models `(long long)arg >> 32` as the arithmetic shift that x86-64 compilers emit; for negative values the C++ standard leaves the result implementation-defined.
- Coro.JoinPointer: takes the two's-complement bit pattern for `(long long)hiArg << 32`; when the shift overflows, the C++ standard leaves it undefined.
- `event_queue_base_t::signal_handler` and `watch_signal` install POSIX signal handlers; this is operating-system plumbing. `forget_signal` does nothing.
- The internals of the thread pool's queue and of `multicond_t` are not visible. Queue calls are appended to the ghost log. A multicond's `pulse` calls back only the waiter it is attached to; its other waiters are not modelled.
- EventQueue.Multicond.Pulse: the model does not stop one multicond being attached to both waiters of a watcher. In the source, its `pulse` calls back both waiters and detaches both. In the model, a read pulse detaches only the read waiter and leaves the write waiter attached. An event with both bits would then make the source's write pulse fail `rassert(mc)`, while the model pulses the write waiter normally.
- The callbacks run from `on_event` are reduced to what they may do with this watcher (`Reaction`): nothing, watch again, or destroy the handle. A pulse's reaction runs after the watcher's own `on_multicond_pulsed` has detached the waiter and remasked. In the source, the order in which `mc->pulse()` notifies its waiters belongs to `multicond_t`, which is not part of this model.
- The code relies on every watcher being used from one thread only; concurrency is not modelled.

## Findings

| source | as written | input that shows it | evidently intended | confidence | as-written member | corrected member |
|---|---|---|---|---|---|---|
| src/coroutine/Coro.cc:181-203 | `Coro_bytesLeftOnStack` returns the signed headroom as `size_t`, so once the stack has run past its end the count wraps to nearly 2^64 and `Coro_stackSpaceAlmostGone` turns false | a 32768-byte stack starting at 0x1000_0000: growing up, one byte past the top; growing down (the branch the direction probe selects on x86-64), one byte below the start. In both the count is 2^64 - 1 | the check stays true once the headroom falls below `CORO_STACK_SIZE_MIN`, overrun included | medium, not executed | Coro.AlmostGoneClearsOnOverrun | Coro.HeadroomAlmostGoneStaysSet |
| src/arch/linux/event_queue.cc:38-42 | the constructor never initialises `dont_destroy_yet` and `should_destroy`, so `on_event` tests a `should_destroy` that may hold garbage | a new watcher whose `should_destroy` memory reads true, watching read, then an in event: `on_event` deletes the guts while its handle still owns it | both flags start false, and a new watcher is consistent and idle | medium, not executed | EventQueue.UninitialisedFlagFreesOwnedGuts | EventQueue.NewGutsIsWellFormed |
| src/arch/linux/event_queue.cc:149-155 | the same uninitialised `dont_destroy_yet` is read by the handle's destructor, so a garbage true value only marks the guts for destruction | a new watcher whose `dont_destroy_yet` memory reads true, destroyed before anything is watched: the guts is marked, unregistered and never deleted | destroying the handle of an unpinned, detached watcher deletes the guts at once | medium, not executed | EventQueue.UninitialisedPinLeaksGuts | EventQueue.NewGutsDestroyedAtOnce |
