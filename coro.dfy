/**
 * The per-thread coroutine stack ring and the bookkeeping of Coro records
 * (src/coroutine/Coro.cc).
 *
 * A thread's ring is an array of StacksPerThread fixed-size stacks; a stack is
 * modelled by its slot index in that ring. The id of the calling thread
 * (get_thread_id() in the source) is an explicit parameter, and so are the
 * current stack position and the growth direction that Coro_bytesLeftOnStack
 * probes for at run time.
 */
module Coro {
  import opened Wrappers

  /** Bytes in one stack slot (coro_stack_t). */
  const StackSlotBytes: nat := 16 * 1024
  /** Entries of the allocators table: thread ids must stay below this. */
  const MaxThreads: nat := 50
  /** Slots in every thread's ring. */
  const StacksPerThread: nat := 10000
  /** CORO_DEFAULT_STACK_SIZE, the requested size of a new coroutine. */
  const DefaultStackSize: nat := 32768
  /** CORO_STACK_SIZE_MIN, the low-water mark of Coro_stackSpaceAlmostGone. */
  const StackSizeMin: nat := 8192
  /** Number of values of a 64-bit size_t. */
  const SizeTModulus: int := 0x1_0000_0000_0000_0000

  // ---------------------------------------------------------------------
  // The ring allocator as a function of the cursor

  /** What one get_stack call hands out and where it leaves the cursor. */
  datatype Grant = Grant(slot: nat, cursor: nat)

  /**
   * One get_stack step. `cursor` is allocator->current as an offset from
   * allocator->base, counted in slots: once it has reached the end of the ring
   * it goes back to the base; the slot under it is handed out and it moves on.
   */
  function Acquire(cursor: nat): (g: Grant)
    ensures g.slot < StacksPerThread
    ensures 1 <= g.cursor <= StacksPerThread
    ensures g.cursor == g.slot + 1
    ensures cursor <= StacksPerThread ==> g.slot == cursor % StacksPerThread
  {
    var c := if StacksPerThread <= cursor then 0 else cursor;
    Grant(c, c + 1)
  }

  /** The slots handed out by `k` consecutive get_stack calls starting at `cursor`. */
  function Acquisitions(cursor: nat, k: nat): (slots: seq<nat>)
    ensures |slots| == k
    decreases k
  {
    if k == 0 then []
    else
      var g := Acquire(cursor);
      [g.slot] + Acquisitions(g.cursor, k - 1)
  }

  /** Moving the cursor by one step moves the slot sequence by one, modulo the ring size. */
  lemma CursorStepShiftsSlot(cursor: nat, j: nat)
    requires cursor <= StacksPerThread && 0 < j
    ensures (Acquire(cursor).cursor + (j - 1)) % StacksPerThread == (cursor + j) % StacksPerThread
  {
    if cursor == StacksPerThread {
      assert Acquire(cursor).cursor + (j - 1) == j;
      assert (StacksPerThread + j) % StacksPerThread == j % StacksPerThread;
    }
  }

  /**
   * The ring never frees anything: from any reachable cursor, acquisition
   * number j hands out slot (cursor + j) mod StacksPerThread.
   */
  lemma {:induction false} AcquisitionsCycle(cursor: nat, k: nat)
    requires cursor <= StacksPerThread
    ensures forall j :: 0 <= j < k ==> Acquisitions(cursor, k)[j] == (cursor + j) % StacksPerThread
    decreases k
  {
    if k > 0 {
      var g := Acquire(cursor);
      AcquisitionsCycle(g.cursor, k - 1);
      forall j | 0 <= j < k
        ensures Acquisitions(cursor, k)[j] == (cursor + j) % StacksPerThread
      {
        if j > 0 {
          assert Acquisitions(cursor, k)[j] == Acquisitions(g.cursor, k - 1)[j - 1];
          CursorStepShiftsSlot(cursor, j);
        }
      }
    }
  }

  /** A freshly initialised ring hands out slots 0, 1, 2, ... in order. */
  lemma FreshRingHandsOutConsecutiveSlots(k: nat)
    requires k <= StacksPerThread
    ensures forall j :: 0 <= j < k ==> Acquisitions(0, k)[j] == j
  {
    AcquisitionsCycle(0, k);
  }

  /** Any StacksPerThread consecutive acquisitions hand out pairwise distinct slots. */
  lemma RingWindowSlotsDistinct(cursor: nat, k: nat)
    requires cursor <= StacksPerThread && k <= StacksPerThread
    ensures forall i, j :: 0 <= i < j < k ==> Acquisitions(cursor, k)[i] != Acquisitions(cursor, k)[j]
  {
    AcquisitionsCycle(cursor, k);
  }

  /**
   * The next acquisition after a full turn of the ring hands out the first slot
   * of that turn again, whether or not its coroutine is still using it.
   */
  lemma RingReissuesSlotAfterFullTurn(cursor: nat)
    requires cursor <= StacksPerThread
    ensures Acquisitions(cursor, StacksPerThread + 1)[StacksPerThread]
         == Acquisitions(cursor, StacksPerThread + 1)[0]
  {
    AcquisitionsCycle(cursor, StacksPerThread + 1);
  }

  /** On a fresh ring, acquisition number StacksPerThread + 1 returns slot 0 again. */
  lemma FreshRingWrapsToFirstSlot()
    ensures Acquisitions(0, StacksPerThread + 1)[StacksPerThread] == 0
  {
    AcquisitionsCycle(0, StacksPerThread + 1);
  }

  // ---------------------------------------------------------------------
  // The allocators table

  /** What a thread's `base` pointer refers to. */
  datatype RingState =
    | NoRing   // null: the static table is zero-initialised
    | Live     // a ring allocated by initialize_stacks
    | Freed    // a ring already released by destroy_stacks

  /**
   * allocators[max_threads]: for each thread, what its `base` refers to and its
   * `current` cursor as an offset from `base`, in slots.
   */
  class StackAllocators {
    const ring: array<RingState>
    const current: array<nat>

    ghost predicate Valid()
      reads current
    {
      && ring.Length == MaxThreads
      && current.Length == MaxThreads
      && forall t :: 0 <= t < MaxThreads ==> current[t] <= StacksPerThread
    }

    /** The zero-initialised static table: no thread has a ring yet. */
    constructor ()
      ensures Valid() && fresh(ring) && fresh(current)
      ensures forall t :: 0 <= t < MaxThreads ==> ring[t] == NoRing && current[t] == 0
    {
      ring := new RingState[MaxThreads](_ => NoRing);
      current := new nat[MaxThreads](_ => 0);
    }

    /**
     * get_stack: on the calling thread's ring, goes back to the base once the
     * cursor has reached the end, then hands out the slot under the cursor and
     * moves the cursor past it. Nothing checks that `tid` is in range.
     */
    method GetStack(tid: nat) returns (slot: nat)
      requires Valid() && tid < MaxThreads && ring[tid] == Live
      modifies current
      ensures Valid()
      ensures slot < StacksPerThread && 1 <= current[tid] <= StacksPerThread
      ensures Grant(slot, current[tid]) == Acquire(old(current[tid]))
      ensures forall t :: 0 <= t < MaxThreads && t != tid ==> current[t] == old(current[t])
    {
      if StacksPerThread <= current[tid] {
        current[tid] := 0;
      }
      slot := current[tid];
      current[tid] := current[tid] + 1;
    }

    /**
     * initialize_stacks: points the calling thread's base and cursor at a new
     * ring. A ring it already had is overwritten, not released.
     */
    method InitializeStacks(tid: nat)
      requires Valid() && tid < MaxThreads
      modifies ring, current
      ensures Valid()
      ensures ring[tid] == Live && current[tid] == 0
      ensures forall t :: 0 <= t < MaxThreads && t != tid ==>
                ring[t] == old(ring[t]) && current[t] == old(current[t])
    {
      ring[tid] := Live;
      current[tid] := 0;
    }

    /**
     * destroy_stacks: releases the calling thread's ring. Releasing the null
     * base of a thread that never had one does nothing; releasing a ring twice
     * is not allowed. The cursor is left as it was.
     */
    method DestroyStacks(tid: nat)
      requires Valid() && tid < MaxThreads && ring[tid] != Freed
      modifies ring
      ensures Valid()
      ensures ring[tid] == if old(ring[tid]) == NoRing then NoRing else Freed
      ensures forall t :: 0 <= t < MaxThreads && t != tid ==> ring[t] == old(ring[t])
    {
      if ring[tid] == Live {
        ring[tid] := Freed;
      }
    }
  }

  // ---------------------------------------------------------------------
  // Coro records

  /** A stack: slot `index` of thread `thread`'s ring. */
  datatype StackSlot = StackSlot(thread: nat, index: nat)

  /** The fields of a Coro record that this model keeps. */
  class Coro {
    var requestedStackSize: nat
    var allocatedStackSize: nat
    var stack: Option<StackSlot>
    var isMain: bool

    /** Coro_new: a zeroed record with the default requested size and no stack. */
    constructor ()
      ensures requestedStackSize == DefaultStackSize && allocatedStackSize == 0
      ensures stack == None && !isMain
    {
      requestedStackSize := DefaultStackSize;
      allocatedStackSize := 0;
      stack := None;
      isMain := false;
    }

    /**
     * Coro_allocStack: takes the next slot of the calling thread's ring and
     * records the requested size as the allocated size.
     */
    method AllocStack(pool: StackAllocators, tid: nat)
      requires pool.Valid() && tid < MaxThreads && pool.ring[tid] == Live
      modifies this, pool.current
      ensures pool.Valid()
      ensures stack == Some(StackSlot(tid, Acquire(old(pool.current[tid])).slot))
      ensures pool.current[tid] == Acquire(old(pool.current[tid])).cursor
      ensures forall t :: 0 <= t < MaxThreads && t != tid ==> pool.current[t] == old(pool.current[t])
      ensures allocatedStackSize == requestedStackSize == old(requestedStackSize)
      ensures isMain == old(isMain)
    {
      var slot := pool.GetStack(tid);
      stack := Some(StackSlot(tid, slot));
      allocatedStackSize := requestedStackSize;
    }

    /**
     * Coro_free: a main coroutine tears down its thread's whole ring; any other
     * coroutine's slot is not given back, since the ring has no free list.
     */
    method Free(pool: StackAllocators, tid: nat)
      requires pool.Valid() && tid < MaxThreads
      requires isMain ==> pool.ring[tid] != Freed
      modifies pool.ring
      ensures pool.Valid()
      ensures pool.ring[tid] == if isMain && old(pool.ring[tid]) == Live then Freed else old(pool.ring[tid])
      ensures forall t :: 0 <= t < MaxThreads && t != tid ==> pool.ring[t] == old(pool.ring[t])
    {
      if isMain {
        pool.DestroyStacks(tid);
      }
    }

    /** Coro_stackSize: the requested stack size. */
    function StackSize(): nat
      reads this
    {
      requestedStackSize
    }

    /** Coro_setStackSize_: changes the requested size and nothing else. */
    method SetStackSize(sizeInBytes: nat)
      modifies this
      ensures requestedStackSize == sizeInBytes && StackSize() == sizeInBytes
      ensures allocatedStackSize == old(allocatedStackSize)
      ensures stack == old(stack) && isMain == old(isMain)
    {
      requestedStackSize := sizeInBytes;
    }

    /**
     * Coro_initializeMainCoro: marks this coroutine as the thread's main one
     * and gives the thread a fresh ring with its cursor at the base.
     */
    method InitializeMainCoro(pool: StackAllocators, tid: nat)
      requires pool.Valid() && tid < MaxThreads
      modifies this, pool.ring, pool.current
      ensures pool.Valid()
      ensures isMain
      ensures requestedStackSize == old(requestedStackSize)
      ensures allocatedStackSize == old(allocatedStackSize) && stack == old(stack)
      ensures pool.ring[tid] == Live && pool.current[tid] == 0
      ensures forall t :: 0 <= t < MaxThreads && t != tid ==>
                pool.ring[t] == old(pool.ring[t]) && pool.current[t] == old(pool.current[t])
    {
      isMain := true;
      pool.InitializeStacks(tid);
    }
  }

  // ---------------------------------------------------------------------
  // Stack headroom

  /** Conversion of a pointer difference to size_t: reduction modulo 2^64. */
  function ToSizeT(d: int): (r: nat)
    ensures r < SizeTModulus
    ensures 0 <= d < SizeTModulus ==> r == d
    ensures d < 0 && -SizeTModulus <= d ==> r == d + SizeTModulus
  {
    d % SizeTModulus
  }

  /**
   * The signed distance from the current position `p` to the end of the stack
   * it grows towards: the top (start + requestedStackSize) when it grows up,
   * the start when it grows down. Negative once `p` has run past that end.
   */
  function Headroom(p: int, start: int, requestedStackSize: nat, stackMovesUp: bool): int
  {
    if stackMovesUp then start + requestedStackSize - p else p - start
  }

  /**
   * Coro_bytesLeftOnStack as written: the headroom, returned as a size_t, so a
   * negative headroom comes back as a huge count.
   */
  function BytesLeftOnStack(p: int, start: int, requestedStackSize: nat, stackMovesUp: bool): (r: nat)
    ensures r < SizeTModulus
    ensures var h := Headroom(p, start, requestedStackSize, stackMovesUp);
            0 <= h < SizeTModulus ==> r == h
  {
    if stackMovesUp then ToSizeT(start + requestedStackSize - p) else ToSizeT(p - start)
  }

  /** Coro_stackSpaceAlmostGone as written: the size_t count is below the low-water mark. */
  predicate StackSpaceAlmostGone(p: int, start: int, requestedStackSize: nat, stackMovesUp: bool)
    ensures start <= p <= start + requestedStackSize && requestedStackSize < SizeTModulus ==>
      (StackSpaceAlmostGone(p, start, requestedStackSize, stackMovesUp)
       <==> HeadroomAlmostGone(p, start, requestedStackSize, stackMovesUp))
  {
    BytesLeftOnStack(p, start, requestedStackSize, stackMovesUp) < StackSizeMin
  }

  /** The check as evidently intended: the signed headroom is below the low-water mark. */
  predicate HeadroomAlmostGone(p: int, start: int, requestedStackSize: nat, stackMovesUp: bool)
  {
    Headroom(p, start, requestedStackSize, stackMovesUp) < StackSizeMin
  }

  /**
   * While the position lies within the stack both versions agree: the bytes
   * left are the distance to the end the stack grows towards, at most the
   * requested size, and the space is almost gone exactly when fewer than
   * StackSizeMin of them are left.
   */
  lemma BytesLeftWithinStack(p: int, start: int, requestedStackSize: nat, stackMovesUp: bool)
    requires start <= p <= start + requestedStackSize
    requires requestedStackSize < SizeTModulus
    ensures BytesLeftOnStack(p, start, requestedStackSize, stackMovesUp)
         == Headroom(p, start, requestedStackSize, stackMovesUp)
    ensures BytesLeftOnStack(p, start, requestedStackSize, stackMovesUp) <= requestedStackSize
    ensures stackMovesUp ==> BytesLeftOnStack(p, start, requestedStackSize, stackMovesUp) == start + requestedStackSize - p
    ensures !stackMovesUp ==> BytesLeftOnStack(p, start, requestedStackSize, stackMovesUp) == p - start
    ensures StackSpaceAlmostGone(p, start, requestedStackSize, stackMovesUp)
        <==> HeadroomAlmostGone(p, start, requestedStackSize, stackMovesUp)
  {
  }

  /**
   * The intended check is monotone: once the space is almost gone it stays so
   * while the stack keeps growing, including past its end.
   */
  lemma HeadroomAlmostGoneStaysSet(p: int, q: int, start: int, requestedStackSize: nat, stackMovesUp: bool)
    requires if stackMovesUp then p <= q else q <= p
    requires HeadroomAlmostGone(p, start, requestedStackSize, stackMovesUp)
    ensures HeadroomAlmostGone(q, start, requestedStackSize, stackMovesUp)
    ensures Headroom(q, start, requestedStackSize, stackMovesUp) <= Headroom(p, start, requestedStackSize, stackMovesUp)
  {
  }

  /**
   * The check as written is not: on an upward-growing stack, one byte below the
   * top the space is almost gone, yet one byte past the top the wrapped count
   * reports ample room; on a downward-growing one the same happens one byte
   * below the start.
   */
  lemma AlmostGoneClearsOnOverrun()
    ensures var start, size := 0x1000_0000, DefaultStackSize;
            && StackSpaceAlmostGone(start + size - 1, start, size, true)
            && !StackSpaceAlmostGone(start + size + 1, start, size, true)
            && BytesLeftOnStack(start + size + 1, start, size, true) == SizeTModulus - 1
            && HeadroomAlmostGone(start + size + 1, start, size, true)
    // the same on a downward-growing stack, the branch x86-64 takes
    ensures var start, size := 0x1000_0000, DefaultStackSize;
            && StackSpaceAlmostGone(start + 1, start, size, false)
            && !StackSpaceAlmostGone(start - 1, start, size, false)
            && BytesLeftOnStack(start - 1, start, size, false) == SizeTModulus - 1
            && HeadroomAlmostGone(start - 1, start, size, false)
  {
  }

  // ---------------------------------------------------------------------
  // Passing a pointer through makecontext as two 32-bit arguments (x86-64)

  /** (long long)x >> 32: an arithmetic right shift of a signed 64-bit value. */
  function SignedShiftRight32(x: bv64): (r: bv64)
    ensures r & 0xFFFF_FFFF == x >> 32
    ensures x & 0x8000_0000_0000_0000 != 0 ==> r >> 32 == 0xFFFF_FFFF
    ensures x & 0x8000_0000_0000_0000 == 0 ==> r >> 32 == 0
  {
    if x & 0x8000_0000_0000_0000 == 0 then x >> 32 else (x >> 32) | 0xFFFF_FFFF_0000_0000
  }

  /**
   * Coro_StartWithArg: rebuilds the pointer as ((long long)hiArg << 32) |
   * (long long)loArg, both arguments zero-extended.
   */
  function JoinPointer(hiArg: bv32, loArg: bv32): (arg: bv64)
    ensures (arg >> 32) as bv32 == hiArg
    ensures (arg & 0xFFFF_FFFF) as bv32 == loArg
  {
    ((hiArg as bv64) << 32) | (loArg as bv64)
  }

  /**
   * Coro_setup with ucontext on x86-64: hiArg is the upper half of the
   * pointer (the signed shift truncated to unsigned int), loArg the lower half.
   * Rebuilding them gives the pointer back.
   */
  function SplitPointer(arg: bv64): (halves: (bv32, bv32))
    ensures JoinPointer(halves.0, halves.1) == arg
  {
    ((SignedShiftRight32(arg) & 0xFFFF_FFFF) as bv32, (arg & 0xFFFF_FFFF) as bv32)
  }

  /** The other direction: splitting a rebuilt pointer gives back the two arguments. */
  lemma SplitJoinRoundTrip(hiArg: bv32, loArg: bv32)
    ensures SplitPointer(JoinPointer(hiArg, loArg)) == (hiArg, loArg)
  {
  }
}
