/**
 * The file-descriptor event watcher (src/arch/linux/event_queue.cc).
 *
 * linux_event_watcher_guts_t is modelled twice: as a pure state machine over
 * GutsState, whose transitions are the functions After..., and as the class
 * EventWatcherGuts, whose methods do what the source does step by step and
 * promise that the new State() is the matching transition of the old one.
 * The lemmas are about the state machine.
 *
 * The calls the watcher makes to code it does not own are recorded, in order,
 * in a log: the thread-pool queue's watch_resource, adjust_resource and
 * forget_resource, the error handler's on_event, and multicond_t's add_waiter
 * and pulse. The
 * id of the calling thread (linux_thread_pool_t::thread_id) is a parameter.
 */
module EventQueue {
  import opened Wrappers

  /** The poll event bits (the Linux epoll values). */
  const PollIn: bv32 := 0x001
  const PollOut: bv32 := 0x004
  const PollErr: bv32 := 0x008
  const PollHup: bv32 := 0x010
  const PollRdHup: bv32 := 0x2000
  /** The bits on_event hands to the error handler. */
  const ErrorMask: bv32 := PollErr | PollHup | PollRdHup
  /** registration_thread of a watcher that is not registered with any queue. */
  const Unregistered: int := -1

  /** The two one-shot waiters of a watcher: read_handler and write_handler. */
  datatype Direction = Read | Write

  function Other(d: Direction): Direction {
    if d == Read then Write else Read
  }

  /** The poll bit a direction waits for. */
  function Bit(d: Direction): bv32 {
    if d == Read then PollIn else PollOut
  }

  /** The waiter that guts.watch picks for an event. */
  function DirectionOf(event: bv32): Direction {
    if event == PollIn then Read else Write
  }

  /** A call the watcher makes to code outside it. */
  datatype Effect =
    | WatchResource(fd: int, mask: bv32)
    | AdjustResource(fd: int, mask: bv32)
    | ForgetResource(fd: int)
    | ErrorCallback(bits: bv32)
    | MulticondPulse(dir: Direction)
    | AddWaiter(dir: Direction)         // multicond_t::add_waiter for the waiter of `dir`

  /** The error handler: a callback object the watcher only calls. */
  class EventCallback {
    constructor () { }
  }

  /**
   * The fields of linux_event_watcher_guts_t. `read` and `write` are the `mc`
   * attachments of the two waiters (each waiter is embedded in the guts).
   * `deleted` says that `delete` has run on the guts, `ownerAlive` that the
   * linux_event_watcher_t handle owning it still exists, and `log` holds the
   * outside calls made so far.
   */
  datatype GutsState = GutsState(
    fd: int,
    read: Option<Multicond>,
    write: Option<Multicond>,
    oldMask: bv32,
    registrationThread: int,
    dontDestroyYet: bool,
    shouldDestroy: bool,
    deleted: bool,
    ownerAlive: bool,
    log: seq<Effect>)

  function Waiter(s: GutsState, d: Direction): Option<Multicond> {
    if d == Read then s.read else s.write
  }

  function WithWaiter(s: GutsState, d: Direction, m: Option<Multicond>): (r: GutsState)
    ensures Waiter(r, d) == m && Waiter(r, Other(d)) == Waiter(s, Other(d))
  {
    if d == Read then s.(read := m) else s.(write := m)
  }

  predicate Detached(s: GutsState) {
    s.read.None? && s.write.None?
  }

  /** The mask remask computes: in for an attached read waiter, out for an attached write waiter. */
  function InterestMask(s: GutsState): (mask: bv32)
    ensures mask & PollIn != 0 <==> s.read.Some?
    ensures mask & PollOut != 0 <==> s.write.Some?
    ensures mask & !(PollIn | PollOut) == 0
    ensures mask == 0 <==> Detached(s)
  {
    (if s.read.Some? then PollIn else 0) | (if s.write.Some? then PollOut else 0)
  }

  /**
   * What remask asserts: a registered watcher was registered by the calling
   * thread, and an unregistered one records no thread.
   */
  predicate RegistrationOk(s: GutsState, thread: nat) {
    s.registrationThread == if s.oldMask == 0 then Unregistered else thread
  }

  // ---------------------------------------------------------------------
  // The queue's side of the log, as an independent reference

  /** The mask the queue holds for the descriptor after replaying the log's queue calls. */
  function RegisteredMask(log: seq<Effect>): bv32
    decreases |log|
  {
    if log == [] then 0 as bv32
    else
      match log[|log| - 1]
      case WatchResource(_, m) => m
      case AdjustResource(_, m) => m
      case ForgetResource(_) => 0 as bv32
      case _ => RegisteredMask(log[..|log| - 1])
  }

  /**
   * Every queue call in the log is legal for the queue: on descriptor `fd`,
   * watch only when unregistered, adjust to a different nonzero mask and
   * forget only when registered.
   */
  predicate QueueProtocolOk(fd: int, log: seq<Effect>)
    decreases |log|
  {
    log == [] ||
    (QueueProtocolOk(fd, log[..|log| - 1]) &&
     var before := RegisteredMask(log[..|log| - 1]);
     match log[|log| - 1]
     case WatchResource(f, m) => f == fd && before == 0 && m != 0
     case AdjustResource(f, m) => f == fd && before != 0 && m != 0 && m != before
     case ForgetResource(f) => f == fd && before != 0
     case _ => true)
  }

  /** The callbacks in the log, in order: error handler calls and multicond pulses. */
  function Callbacks(log: seq<Effect>): seq<Effect>
    decreases |log|
  {
    if log == [] then []
    else
      var e := log[|log| - 1];
      if e.ErrorCallback? || e.MulticondPulse? then Callbacks(log[..|log| - 1]) + [e]
      else Callbacks(log[..|log| - 1])
  }

  /**
   * Appending a call that is not a queue call leaves the queue's view as it
   * was; only the error handler's calls and the pulses are callbacks.
   */
  lemma AppendOutsideCall(fd: int, log: seq<Effect>, e: Effect)
    requires !e.WatchResource? && !e.AdjustResource? && !e.ForgetResource?
    ensures RegisteredMask(log + [e]) == RegisteredMask(log)
    ensures QueueProtocolOk(fd, log) ==> QueueProtocolOk(fd, log + [e])
    ensures Callbacks(log + [e]) == Callbacks(log) + (if e.AddWaiter? then [] else [e])
  {
    assert (log + [e])[..|log|] == log;
  }

  /** The consistency the watcher keeps between its own fields and the queue. */
  predicate Wf(s: GutsState, thread: nat) {
    && s.oldMask == InterestMask(s)
    && RegistrationOk(s, thread)
    && RegisteredMask(s.log) == s.oldMask
    && QueueProtocolOk(s.fd, s.log)
    && (s.ownerAlive <==> !s.shouldDestroy && !s.deleted)
    && (s.deleted ==> Detached(s))
  }

  /** Outside on_event: not pinned, and a requested destruction has been carried out. */
  predicate Idle(s: GutsState) {
    !s.dontDestroyYet && (s.shouldDestroy ==> s.deleted)
  }

  // ---------------------------------------------------------------------
  // Construction

  /**
   * The constructor as written: dont_destroy_yet and should_destroy are not
   * initialised, so they start with whatever the memory held.
   */
  function NewGutsAsWritten(fd: int, pinned: bool, pending: bool): (s: GutsState)
    ensures Detached(s) && s.oldMask == 0 && s.registrationThread == Unregistered
    ensures s.ownerAlive && !s.deleted && s.log == []
  {
    GutsState(fd, None, None, 0, Unregistered, pinned, pending, false, true, [])
  }

  /** The constructor with both flags starting false, as the rest of the code assumes. */
  function NewGuts(fd: int): (s: GutsState)
    ensures !s.dontDestroyYet && !s.shouldDestroy
    ensures Detached(s) && s.oldMask == 0 && s.registrationThread == Unregistered && s.log == []
  {
    NewGutsAsWritten(fd, false, false)
  }

  /** A new watcher is consistent and idle. */
  lemma NewGutsIsWellFormed(fd: int, thread: nat)
    ensures Wf(NewGuts(fd), thread) && Idle(NewGuts(fd))
  {
  }

  // ---------------------------------------------------------------------
  // Transitions

  /** remask: recomputes the mask and registers, adjusts or forgets accordingly. */
  function AfterRemask(s: GutsState, thread: nat): (r: GutsState)
    requires !s.deleted && RegistrationOk(s, thread)
    ensures r.oldMask == InterestMask(s)
    ensures RegistrationOk(r, thread)
    ensures r == s.(oldMask := r.oldMask, registrationThread := r.registrationThread, log := r.log)
    ensures s.log <= r.log && |r.log| <= |s.log| + 1
  {
    var newMask := InterestMask(s);
    if s.oldMask != 0 then
      if newMask == 0 then
        s.(log := s.log + [ForgetResource(s.fd)], registrationThread := Unregistered, oldMask := newMask)
      else if newMask != s.oldMask then
        s.(log := s.log + [AdjustResource(s.fd, newMask)], oldMask := newMask)
      else
        s.(oldMask := newMask)
    else if newMask == 0 then
      s.(oldMask := newMask)
    else
      s.(log := s.log + [WatchResource(s.fd, newMask)], registrationThread := thread, oldMask := newMask)
  }

  predicate WaiterWatchPre(s: GutsState, d: Direction, thread: nat) {
    !s.deleted && Waiter(s, d).None? && RegistrationOk(s, thread)
  }

  /**
   * waiter_t::watch: attaches the multicond to a free waiter, adds the waiter
   * to the multicond, and remasks.
   */
  function AfterWaiterWatch(s: GutsState, d: Direction, m: Multicond, thread: nat): (r: GutsState)
    requires WaiterWatchPre(s, d, thread)
    ensures Waiter(r, d) == Some(m) && Waiter(r, Other(d)) == Waiter(s, Other(d))
    ensures r.oldMask == InterestMask(r)
    ensures s.log + [AddWaiter(d)] <= r.log
  {
    AfterRemask(WithWaiter(s, d, Some(m)).(log := s.log + [AddWaiter(d)]), thread)
  }

  /** guts.watch: only in or out may be watched, and only the matching waiter changes. */
  function AfterWatch(s: GutsState, event: bv32, m: Multicond, thread: nat): (r: GutsState)
    requires event == PollIn || event == PollOut
    requires WaiterWatchPre(s, DirectionOf(event), thread)
    ensures event == PollIn ==> r.read == Some(m) && r.write == s.write
    ensures event == PollOut ==> r.write == Some(m) && r.read == s.read
  {
    AfterWaiterWatch(s, DirectionOf(event), m, thread)
  }

  predicate PulsedPre(s: GutsState, d: Direction, thread: nat) {
    !s.deleted && Waiter(s, d).Some? && RegistrationOk(s, thread)
  }

  /** waiter_t::on_multicond_pulsed: detaches the waiter and remasks. */
  function AfterPulsed(s: GutsState, d: Direction, thread: nat): (r: GutsState)
    requires PulsedPre(s, d, thread)
    ensures Waiter(r, d).None? && Waiter(r, Other(d)) == Waiter(s, Other(d))
    ensures r.oldMask == InterestMask(r)
  {
    AfterRemask(WithWaiter(s, d, None), thread)
  }

  /** waiter_t::pulse: pulses the attached multicond, which calls back on_multicond_pulsed. */
  function AfterPulse(s: GutsState, d: Direction, thread: nat): (r: GutsState)
    requires PulsedPre(s, d, thread)
    ensures Waiter(r, d).None? && Waiter(r, Other(d)) == Waiter(s, Other(d))
    ensures s.log + [MulticondPulse(d)] <= r.log
  {
    AfterPulsed(s.(log := s.log + [MulticondPulse(d)]), d, thread)
  }

  /** ~linux_event_watcher_guts_t asserts that neither waiter is attached. */
  predicate DeletePre(s: GutsState) {
    !s.deleted && Detached(s)
  }

  function AfterDelete(s: GutsState): (r: GutsState)
    requires DeletePre(s)
    ensures r.deleted && Detached(r)
  {
    s.(deleted := true)
  }

  /** The handle can be destroyed once; deleting at once needs both waiters detached. */
  predicate DestroyHandlePre(s: GutsState) {
    s.ownerAlive && !s.deleted && (s.dontDestroyYet || Detached(s))
  }

  /**
   * ~linux_event_watcher_t: while the guts is pinned only marks it for
   * destruction; otherwise deletes it at once.
   */
  function AfterDestroyHandle(s: GutsState): (r: GutsState)
    requires DestroyHandlePre(s)
    ensures !r.ownerAlive
    ensures r.deleted <==> !s.dontDestroyYet
    ensures r.shouldDestroy <==> s.shouldDestroy || s.dontDestroyYet
    ensures r.dontDestroyYet == s.dontDestroyYet && r.log == s.log
  {
    var u := s.(ownerAlive := false);
    if s.dontDestroyYet then u.(shouldDestroy := true) else AfterDelete(u)
  }

  // ---------------------------------------------------------------------
  // Event delivery

  /**
   * What the code run from a callback does with this watcher before it
   * returns: nothing, watch a direction again through the handle, or destroy
   * the handle.
   */
  datatype Reaction = Continue | Rewatch(dir: Direction, mc: Multicond) | CloseWatcher

  /** The reactions of the error handler, the read waiter's and the write waiter's pulse. */
  datatype Reactions = Reactions(onError: Reaction, onRead: Reaction, onWrite: Reaction)

  predicate ReactPre(s: GutsState, r: Reaction, thread: nat) {
    match r
    case Continue => true
    case Rewatch(d, _) => s.ownerAlive && WaiterWatchPre(s, d, thread)
    case CloseWatcher => DestroyHandlePre(s)
  }

  /** A reaction while the guts is pinned never deletes it. */
  function AfterReaction(s: GutsState, r: Reaction, thread: nat): (t: GutsState)
    requires ReactPre(s, r, thread)
    ensures s.dontDestroyYet ==> !t.deleted || s.deleted
    ensures t.dontDestroyYet == s.dontDestroyYet
    ensures t.shouldDestroy == (s.shouldDestroy || (r.CloseWatcher? && s.dontDestroyYet))
    ensures !r.CloseWatcher? ==> t.deleted == s.deleted && t.ownerAlive == s.ownerAlive
  {
    match r
    case Continue => s
    case Rewatch(d, m) => AfterWatch(s, Bit(d), m, thread)
    case CloseWatcher => AfterDestroyHandle(s)
  }

  /** on_event's first step: pin the guts. */
  function BeginEvent(s: GutsState): (r: GutsState)
    requires !s.deleted
    ensures r.dontDestroyYet && !r.deleted
    ensures r.(dontDestroyYet := s.dontDestroyYet) == s
  {
    s.(dontDestroyYet := true)
  }

  predicate ErrorStagePre(s: GutsState, event: bv32, r: Reaction, thread: nat) {
    event & ErrorMask != 0 ==> ReactPre(s.(log := s.log + [ErrorCallback(event & ErrorMask)]), r, thread)
  }

  /** Calls the error handler with the error bits, if there are any. */
  function ErrorStage(s: GutsState, event: bv32, r: Reaction, thread: nat): (t: GutsState)
    requires ErrorStagePre(s, event, r, thread)
    ensures event & ErrorMask == 0 ==> t == s
    ensures t.dontDestroyYet == s.dontDestroyYet
  {
    var bits := event & ErrorMask;
    if bits != 0 then AfterReaction(s.(log := s.log + [ErrorCallback(bits)]), r, thread) else s
  }

  predicate PulseStagePre(s: GutsState, d: Direction, event: bv32, r: Reaction, thread: nat) {
    event & Bit(d) != 0 ==> PulsedPre(s, d, thread) && ReactPre(AfterPulse(s, d, thread), r, thread)
  }

  /** Pulses the waiter of direction `d`, if its bit is set. */
  function PulseStage(s: GutsState, d: Direction, event: bv32, r: Reaction, thread: nat): (t: GutsState)
    requires PulseStagePre(s, d, event, r, thread)
    ensures event & Bit(d) == 0 ==> t == s
    ensures event & Bit(d) != 0 && !(r.Rewatch? && r.dir == d) ==> Waiter(t, d).None?
    ensures t.dontDestroyYet == s.dontDestroyYet
  {
    if event & Bit(d) != 0 then AfterReaction(AfterPulse(s, d, thread), r, thread) else s
  }

  predicate EndEventPre(s: GutsState) {
    s.shouldDestroy ==> DeletePre(s)
  }

  /** on_event's last step: unpin, then carry out a destruction requested meanwhile. */
  function EndEvent(s: GutsState): (r: GutsState)
    requires EndEventPre(s)
    ensures !r.dontDestroyYet
    ensures r.deleted == (s.deleted || s.shouldDestroy)
    ensures r.shouldDestroy == s.shouldDestroy && r.ownerAlive == s.ownerAlive && r.log == s.log
  {
    var u := s.(dontDestroyYet := false);
    if u.shouldDestroy then AfterDelete(u) else u
  }

  predicate ErrorPhasePre(s: GutsState, event: bv32, thread: nat, rs: Reactions) {
    !s.deleted && ErrorStagePre(BeginEvent(s), event, rs.onError, thread)
  }

  /** The state once the error handler (if called) has returned. */
  function AfterErrorPhase(s: GutsState, event: bv32, thread: nat, rs: Reactions): GutsState
    requires ErrorPhasePre(s, event, thread, rs)
  {
    ErrorStage(BeginEvent(s), event, rs.onError, thread)
  }

  predicate ReadPhasePre(s: GutsState, event: bv32, thread: nat, rs: Reactions) {
    ErrorPhasePre(s, event, thread, rs) &&
    PulseStagePre(AfterErrorPhase(s, event, thread, rs), Read, event, rs.onRead, thread)
  }

  /** The state once the read waiter's pulse (if any) has returned. */
  function AfterReadPhase(s: GutsState, event: bv32, thread: nat, rs: Reactions): GutsState
    requires ReadPhasePre(s, event, thread, rs)
  {
    PulseStage(AfterErrorPhase(s, event, thread, rs), Read, event, rs.onRead, thread)
  }

  predicate WritePhasePre(s: GutsState, event: bv32, thread: nat, rs: Reactions) {
    ReadPhasePre(s, event, thread, rs) &&
    PulseStagePre(AfterReadPhase(s, event, thread, rs), Write, event, rs.onWrite, thread)
  }

  /** The state once the write waiter's pulse (if any) has returned. */
  function AfterWritePhase(s: GutsState, event: bv32, thread: nat, rs: Reactions): GutsState
    requires WritePhasePre(s, event, thread, rs)
  {
    PulseStage(AfterReadPhase(s, event, thread, rs), Write, event, rs.onWrite, thread)
  }

  /** Everything on_event and the code it calls back require. */
  predicate OnEventPre(s: GutsState, event: bv32, thread: nat, rs: Reactions) {
    WritePhasePre(s, event, thread, rs) && EndEventPre(AfterWritePhase(s, event, thread, rs))
  }

  /** on_event: pin, error handler, read pulse, write pulse, unpin, deferred delete. */
  function AfterOnEvent(s: GutsState, event: bv32, thread: nat, rs: Reactions): (r: GutsState)
    requires OnEventPre(s, event, thread, rs)
    ensures !r.dontDestroyYet && (r.shouldDestroy ==> r.deleted)
  {
    EndEvent(AfterWritePhase(s, event, thread, rs))
  }

  /** Whether some callback that on_event ran destroyed the handle. */
  predicate ClosedDuring(event: bv32, rs: Reactions) {
    || (event & ErrorMask != 0 && rs.onError.CloseWatcher?)
    || (event & PollIn != 0 && rs.onRead.CloseWatcher?)
    || (event & PollOut != 0 && rs.onWrite.CloseWatcher?)
  }

  // ---------------------------------------------------------------------
  // Properties of remask

  /** The four outcomes of remask, by old and new mask. */
  lemma RemaskTransitions(s: GutsState, thread: nat)
    requires !s.deleted && RegistrationOk(s, thread)
    ensures var r, n := AfterRemask(s, thread), InterestMask(s);
      && r.oldMask == n
      && (s.oldMask != 0 && n == 0 ==>
            r.log == s.log + [ForgetResource(s.fd)] && r.registrationThread == Unregistered)
      && (s.oldMask != 0 && n != 0 && n != s.oldMask ==>
            r.log == s.log + [AdjustResource(s.fd, n)] && r.registrationThread == thread)
      && (s.oldMask == 0 && n != 0 ==>
            r.log == s.log + [WatchResource(s.fd, n)] && r.registrationThread == thread)
      && (n == s.oldMask ==> r.log == s.log && r.registrationThread == s.registrationThread)
  {
  }

  /** After remask, queue registration and thread agree: unregistered exactly when the mask is 0. */
  lemma RemaskKeepsRegistrationConsistent(s: GutsState, thread: nat)
    requires !s.deleted && RegistrationOk(s, thread)
    ensures var r := AfterRemask(s, thread);
      (r.registrationThread == Unregistered <==> r.oldMask == 0) &&
      (r.oldMask != 0 ==> r.registrationThread == thread)
  {
  }

  /** Remasking again without a change of attachments calls the queue no more. */
  lemma RemaskIdempotent(s: GutsState, thread: nat)
    requires !s.deleted && RegistrationOk(s, thread)
    ensures AfterRemask(AfterRemask(s, thread), thread) == AfterRemask(s, thread)
  {
  }

  /**
   * remask keeps the queue in step with the watcher: its calls are legal for
   * the queue, the queue then holds the new mask, and no callback is made.
   */
  lemma RemaskKeepsQueueInSync(s: GutsState, thread: nat)
    requires !s.deleted && RegistrationOk(s, thread)
    requires RegisteredMask(s.log) == s.oldMask && QueueProtocolOk(s.fd, s.log)
    ensures var r := AfterRemask(s, thread);
      && RegisteredMask(r.log) == r.oldMask
      && QueueProtocolOk(s.fd, r.log)
      && Callbacks(r.log) == Callbacks(s.log)
  {
    var r := AfterRemask(s, thread);
    if r.log != s.log {
      assert r.log[..|r.log| - 1] == s.log;
    }
  }

  // ---------------------------------------------------------------------
  // Invariant preservation

  lemma WaiterWatchPreservesWf(s: GutsState, d: Direction, m: Multicond, thread: nat)
    requires Wf(s, thread) && WaiterWatchPre(s, d, thread)
    ensures Wf(AfterWaiterWatch(s, d, m, thread), thread)
    ensures Callbacks(AfterWaiterWatch(s, d, m, thread).log) == Callbacks(s.log)
  {
    AppendOutsideCall(s.fd, s.log, AddWaiter(d));
    RemaskKeepsQueueInSync(WithWaiter(s, d, Some(m)).(log := s.log + [AddWaiter(d)]), thread);
  }

  lemma PulsePreservesWf(s: GutsState, d: Direction, thread: nat)
    requires Wf(s, thread) && PulsedPre(s, d, thread)
    ensures Wf(AfterPulse(s, d, thread), thread)
    ensures Callbacks(AfterPulse(s, d, thread).log) == Callbacks(s.log) + [MulticondPulse(d)]
  {
    AppendOutsideCall(s.fd, s.log, MulticondPulse(d));
    RemaskKeepsQueueInSync(WithWaiter(s.(log := s.log + [MulticondPulse(d)]), d, None), thread);
  }

  lemma DestroyHandlePreservesWf(s: GutsState, thread: nat)
    requires Wf(s, thread) && DestroyHandlePre(s)
    ensures Wf(AfterDestroyHandle(s), thread)
    ensures Idle(s) ==> Idle(AfterDestroyHandle(s))
  {
  }

  lemma ReactionPreservesWf(s: GutsState, r: Reaction, thread: nat)
    requires Wf(s, thread) && ReactPre(s, r, thread)
    ensures Wf(AfterReaction(s, r, thread), thread)
    ensures Callbacks(AfterReaction(s, r, thread).log) == Callbacks(s.log)
  {
    match r
    case Continue =>
    case Rewatch(d, m) => WaiterWatchPreservesWf(s, d, m, thread);
    case CloseWatcher => DestroyHandlePreservesWf(s, thread);
  }

  lemma ErrorStagePreservesWf(s: GutsState, event: bv32, r: Reaction, thread: nat)
    requires Wf(s, thread) && ErrorStagePre(s, event, r, thread)
    ensures Wf(ErrorStage(s, event, r, thread), thread)
    ensures Callbacks(ErrorStage(s, event, r, thread).log)
         == Callbacks(s.log) + (if event & ErrorMask != 0 then [ErrorCallback(event & ErrorMask)] else [])
  {
    if event & ErrorMask != 0 {
      AppendOutsideCall(s.fd, s.log, ErrorCallback(event & ErrorMask));
      ReactionPreservesWf(s.(log := s.log + [ErrorCallback(event & ErrorMask)]), r, thread);
    }
  }

  lemma PulseStagePreservesWf(s: GutsState, d: Direction, event: bv32, r: Reaction, thread: nat)
    requires Wf(s, thread) && PulseStagePre(s, d, event, r, thread)
    ensures Wf(PulseStage(s, d, event, r, thread), thread)
    ensures Callbacks(PulseStage(s, d, event, r, thread).log)
         == Callbacks(s.log) + (if event & Bit(d) != 0 then [MulticondPulse(d)] else [])
  {
    if event & Bit(d) != 0 {
      PulsePreservesWf(s, d, thread);
      ReactionPreservesWf(AfterPulse(s, d, thread), r, thread);
    }
  }

  /**
   * on_event keeps the watcher consistent with the queue and leaves it idle,
   * and the callbacks it makes come in the fixed order: the error handler with
   * the error bits, then the read waiter's pulse, then the write waiter's.
   */
  lemma OnEventCallbackOrder(s: GutsState, event: bv32, thread: nat, rs: Reactions)
    requires Wf(s, thread) && OnEventPre(s, event, thread, rs)
    ensures var r := AfterOnEvent(s, event, thread, rs);
      && Wf(r, thread)
      && !r.dontDestroyYet
      && Callbacks(r.log) == Callbacks(s.log)
           + (if event & ErrorMask != 0 then [ErrorCallback(event & ErrorMask)] else [])
           + (if event & PollIn != 0 then [MulticondPulse(Read)] else [])
           + (if event & PollOut != 0 then [MulticondPulse(Write)] else [])
  {
    var s1 := BeginEvent(s);
    ErrorStagePreservesWf(s1, event, rs.onError, thread);
    var s2 := AfterErrorPhase(s, event, thread, rs);
    PulseStagePreservesWf(s2, Read, event, rs.onRead, thread);
    var s3 := AfterReadPhase(s, event, thread, rs);
    PulseStagePreservesWf(s3, Write, event, rs.onWrite, thread);
  }

  /** While pinned, the error stage keeps the guts alive and records a close as pending. */
  lemma ErrorStageKeepsPinned(s: GutsState, event: bv32, r: Reaction, thread: nat)
    requires s.dontDestroyYet && !s.deleted && ErrorStagePre(s, event, r, thread)
    ensures var t := ErrorStage(s, event, r, thread);
      && t.dontDestroyYet && !t.deleted
      && t.shouldDestroy == (s.shouldDestroy || (event & ErrorMask != 0 && r.CloseWatcher?))
  {
  }

  /** While pinned, a pulse stage keeps the guts alive and records a close as pending. */
  lemma PulseStageKeepsPinned(s: GutsState, d: Direction, event: bv32, r: Reaction, thread: nat)
    requires s.dontDestroyYet && !s.deleted && PulseStagePre(s, d, event, r, thread)
    ensures var t := PulseStage(s, d, event, r, thread);
      && t.dontDestroyYet && !t.deleted
      && t.shouldDestroy == (s.shouldDestroy || (event & Bit(d) != 0 && r.CloseWatcher?))
  {
  }

  /** Unpinning deletes the guts exactly when a destruction is pending, and leaves it idle. */
  lemma EndEventCarriesOutPending(s: GutsState)
    requires !s.deleted && EndEventPre(s)
    ensures EndEvent(s).deleted == s.shouldDestroy && Idle(EndEvent(s))
  {
  }

  /**
   * Deferred destruction, during the callbacks: the guts stays pinned and is
   * never deleted, even when one of them destroys the handle; once they are
   * done a destruction is pending exactly when some callback destroyed it.
   */
  lemma OnEventNeverDeletesMidCallback(s: GutsState, event: bv32, thread: nat, rs: Reactions)
    requires Idle(s) && OnEventPre(s, event, thread, rs)
    ensures var s2 := AfterErrorPhase(s, event, thread, rs);
      s2.dontDestroyYet && !s2.deleted
    ensures var s3 := AfterReadPhase(s, event, thread, rs);
      s3.dontDestroyYet && !s3.deleted
    ensures var s4 := AfterWritePhase(s, event, thread, rs);
      s4.dontDestroyYet && !s4.deleted && (s4.shouldDestroy <==> ClosedDuring(event, rs))
  {
    ErrorStageKeepsPinned(BeginEvent(s), event, rs.onError, thread);
    var s2 := AfterErrorPhase(s, event, thread, rs);
    PulseStageKeepsPinned(s2, Read, event, rs.onRead, thread);
    var s3 := AfterReadPhase(s, event, thread, rs);
    PulseStageKeepsPinned(s3, Write, event, rs.onWrite, thread);
  }

  /**
   * Deferred destruction, afterwards: on_event deletes the guts exactly when
   * some callback destroyed the handle, and leaves it idle.
   */
  lemma OnEventDeletesExactlyWhenClosed(s: GutsState, event: bv32, thread: nat, rs: Reactions)
    requires Idle(s) && OnEventPre(s, event, thread, rs)
    ensures var r := AfterOnEvent(s, event, thread, rs);
      (r.deleted <==> ClosedDuring(event, rs)) && Idle(r)
  {
    OnEventNeverDeletesMidCallback(s, event, thread, rs);
    EndEventCarriesOutPending(AfterWritePhase(s, event, thread, rs));
  }

  /** A consistent watcher is never deleted while its handle still owns it. */
  lemma WfDeletedOnlyWhenUnowned(s: GutsState, thread: nat)
    requires Wf(s, thread)
    ensures s.deleted ==> !s.ownerAlive && Detached(s)
  {
  }

  // ---------------------------------------------------------------------
  // Scenarios

  /**
   * Watching read then write on a new watcher registers for in and then
   * widens the registration to in|out; detaching both then narrows it to out
   * and forgets it, with a single forget.
   */
  lemma WatchReadThenWriteThenDetach(fd: int, thread: nat, m1: Multicond, m2: Multicond)
    ensures var s1 := AfterWatch(NewGuts(fd), PollIn, m1, thread);
      var s2 := AfterWatch(s1, PollOut, m2, thread);
      && s2.log == [AddWaiter(Read), WatchResource(fd, PollIn), AddWaiter(Write), AdjustResource(fd, PollIn | PollOut)]
      && s2.registrationThread == thread
      && (var s3 := AfterPulsed(AfterPulsed(s2, Read, thread), Write, thread);
          && s3.log == s2.log + [AdjustResource(fd, PollOut), ForgetResource(fd)]
          && s3.registrationThread == Unregistered && s3.oldMask == 0)
  {
  }

  /**
   * One event with both bits on a watcher waiting in both directions pulses
   * read, narrows the registration, pulses write and forgets it.
   */
  lemma EventOnBothWaitersForgetsOnce(fd: int, thread: nat, m1: Multicond, m2: Multicond)
    ensures var s := AfterWatch(AfterWatch(NewGuts(fd), PollIn, m1, thread), PollOut, m2, thread);
      var rs := Reactions(Continue, Continue, Continue);
      && OnEventPre(s, PollIn | PollOut, thread, rs)
      && AfterOnEvent(s, PollIn | PollOut, thread, rs).log
         == s.log + [MulticondPulse(Read), AdjustResource(fd, PollOut), MulticondPulse(Write), ForgetResource(fd)]
  {
  }

  /**
   * The read waiter's pulse destroys the handle: the guts is only marked
   * while the callback runs, and deleted once on_event is done.
   */
  lemma CloseFromReadPulseIsDeferred(fd: int, thread: nat, m: Multicond)
    ensures var s := AfterWatch(NewGuts(fd), PollIn, m, thread);
      var rs := Reactions(Continue, CloseWatcher, Continue);
      && OnEventPre(s, PollIn, thread, rs)
      && (var s3 := AfterReadPhase(s, PollIn, thread, rs);
          s3.shouldDestroy && !s3.deleted && !s3.ownerAlive)
      && (var r := AfterOnEvent(s, PollIn, thread, rs);
          r.deleted && r.log == [AddWaiter(Read), WatchResource(fd, PollIn), MulticondPulse(Read), ForgetResource(fd)])
  {
  }

  /**
   * With the flags left uninitialised, memory that happened to hold a set
   * should_destroy makes the first event delete the guts while its handle
   * still owns it.
   */
  lemma UninitialisedFlagFreesOwnedGuts(fd: int, thread: nat, m: Multicond)
    ensures var s := AfterWatch(NewGutsAsWritten(fd, false, true), PollIn, m, thread);
      var rs := Reactions(Continue, Continue, Continue);
      && OnEventPre(s, PollIn, thread, rs)
      && (var r := AfterOnEvent(s, PollIn, thread, rs);
          r.deleted && r.ownerAlive && !Wf(r, thread))
  {
  }

  /**
   * With the flags left uninitialised, memory that happened to hold a set
   * dont_destroy_yet makes destroying the handle of a detached watcher only
   * mark the guts: it is never deleted, since no longer registered with the
   * queue it receives no event that could carry out the pending delete.
   */
  lemma UninitialisedPinLeaksGuts(fd: int)
    ensures var r := AfterDestroyHandle(NewGutsAsWritten(fd, true, false));
      && !r.deleted && !r.ownerAlive && r.shouldDestroy
      && r.oldMask == 0 && RegisteredMask(r.log) == 0
  {
  }

  /** With both flags starting false, destroying a new watcher's handle deletes the guts at once. */
  lemma NewGutsDestroyedAtOnce(fd: int, thread: nat)
    ensures var r := AfterDestroyHandle(NewGuts(fd));
      r.deleted && !r.ownerAlive && Wf(r, thread) && Idle(r)
  {
    NewGutsIsWellFormed(fd, thread);
    DestroyHandlePreservesWf(NewGuts(fd), thread);
  }

  // ---------------------------------------------------------------------
  // The objects

  /** multicond_t, as far as the watcher sees it: pulsing calls back the attached waiter. */
  class Multicond {
    constructor () { }

    method Pulse(w: EventWatcherGuts, d: Direction, thread: nat)
      requires PulsedPre(w.State(), d, thread) && Waiter(w.State(), d) == Some(this)
      modifies w
      ensures w.State() == AfterPulsed(old(w.State()), d, thread)
    {
      w.OnMulticondPulsed(d, thread);
    }
  }

  /** linux_event_watcher_guts_t. */
  class EventWatcherGuts {
    const fd: int
    const errorHandler: EventCallback
    var readMc: Option<Multicond>
    var writeMc: Option<Multicond>
    var oldMask: bv32
    var registrationThread: int
    var dontDestroyYet: bool
    var shouldDestroy: bool
    ghost var deleted: bool
    ghost var ownerAlive: bool
    ghost var log: seq<Effect>

    ghost function State(): GutsState
      reads this
    {
      GutsState(fd, readMc, writeMc, oldMask, registrationThread,
                dontDestroyYet, shouldDestroy, deleted, ownerAlive, log)
    }

    /**
     * The constructor. The source leaves dont_destroy_yet and should_destroy
     * uninitialised; this model assumes they start false.
     */
    constructor (f: int, eh: EventCallback)
      ensures State() == NewGuts(f) && errorHandler == eh
    {
      fd := f;
      errorHandler := eh;
      readMc := None;
      writeMc := None;
      oldMask := 0;
      registrationThread := Unregistered;
      dontDestroyYet := false;
      shouldDestroy := false;
      deleted := false;
      ownerAlive := true;
      log := [];
    }

    method Remask(thread: nat)
      requires !deleted && RegistrationOk(State(), thread)
      modifies this
      ensures State() == AfterRemask(old(State()), thread)
    {
      var newMask: bv32 := 0;
      if readMc.Some? {
        newMask := newMask | PollIn;
      }
      if writeMc.Some? {
        newMask := newMask | PollOut;
      }
      if oldMask != 0 {
        if newMask == 0 {
          log := log + [ForgetResource(fd)];
          registrationThread := Unregistered;
        } else if newMask != oldMask {
          log := log + [AdjustResource(fd, newMask)];
        }
      } else {
        if newMask != 0 {
          log := log + [WatchResource(fd, newMask)];
          registrationThread := thread;
        }
      }
      oldMask := newMask;
    }

    /** waiter_t::watch of the waiter for direction `d`. */
    method WaiterWatch(d: Direction, m: Multicond, thread: nat)
      requires WaiterWatchPre(State(), d, thread)
      modifies this
      ensures State() == AfterWaiterWatch(old(State()), d, m, thread)
    {
      if d == Read {
        readMc := Some(m);
      } else {
        writeMc := Some(m);
      }
      log := log + [AddWaiter(d)];
      Remask(thread);
    }

    /** waiter_t::pulse of the waiter for direction `d`. */
    method WaiterPulse(d: Direction, thread: nat)
      requires PulsedPre(State(), d, thread)
      modifies this
      ensures State() == AfterPulse(old(State()), d, thread)
    {
      var mc := if d == Read then readMc.value else writeMc.value;
      log := log + [MulticondPulse(d)];
      mc.Pulse(this, d, thread);
    }

    /** waiter_t::on_multicond_pulsed of the waiter for direction `d`. */
    method OnMulticondPulsed(d: Direction, thread: nat)
      requires PulsedPre(State(), d, thread)
      modifies this
      ensures State() == AfterPulsed(old(State()), d, thread)
    {
      if d == Read {
        readMc := None;
      } else {
        writeMc := None;
      }
      Remask(thread);
    }

    /** watch: picks the waiter for `event`, which must be in or out. */
    method Watch(event: bv32, m: Multicond, thread: nat)
      requires event == PollIn || event == PollOut
      requires WaiterWatchPre(State(), DirectionOf(event), thread)
      modifies this
      ensures State() == AfterWatch(old(State()), event, m, thread)
    {
      var d := if event == PollIn then Read else Write;
      WaiterWatch(d, m, thread);
    }

    /** delete of the guts; its destructor asserts that no waiter is attached. */
    method Delete()
      requires DeletePre(State())
      modifies this
      ensures State() == AfterDelete(old(State()))
    {
      deleted := true;
    }

    /** What the code behind a callback does with the watcher `owner` before returning. */
    method RunReaction(r: Reaction, thread: nat, owner: EventWatcher)
      requires owner.guts == this && ReactPre(State(), r, thread)
      modifies this
      ensures State() == AfterReaction(old(State()), r, thread)
    {
      match r
      case Continue =>
      case Rewatch(d, m) =>
        owner.Watch(Bit(d), m, thread);
      case CloseWatcher =>
        owner.Destroy();
    }

    /** on_event's error step: calls the error handler with the error bits, if any. */
    method ErrorCallbackStep(event: bv32, thread: nat, r: Reaction, owner: EventWatcher)
      requires owner.guts == this && ErrorStagePre(State(), event, r, thread)
      modifies this
      ensures State() == ErrorStage(old(State()), event, r, thread)
    {
      var errorBits := event & ErrorMask;
      if errorBits != 0 {
        log := log + [ErrorCallback(errorBits)];
        RunReaction(r, thread, owner);
      }
    }

    /** on_event's read or write step: pulses the waiter of `d`, if its bit is set. */
    method PulseStep(d: Direction, event: bv32, thread: nat, r: Reaction, owner: EventWatcher)
      requires owner.guts == this && PulseStagePre(State(), d, event, r, thread)
      modifies this
      ensures State() == PulseStage(old(State()), d, event, r, thread)
    {
      if event & Bit(d) != 0 {
        WaiterPulse(d, thread);
        RunReaction(r, thread, owner);
      }
    }

    /** on_event's last step: unpin, then delete if the handle was destroyed meanwhile. */
    method EndEventStep()
      requires EndEventPre(State())
      modifies this
      ensures State() == EndEvent(old(State()))
    {
      dontDestroyYet := false;
      if shouldDestroy {
        Delete();
      }
    }

    /** on_event, delivered by the queue; `rs` is what the callbacks it runs do. */
    method OnEvent(event: bv32, thread: nat, rs: Reactions, owner: EventWatcher)
      requires owner.guts == this && OnEventPre(State(), event, thread, rs)
      modifies this
      ensures State() == AfterOnEvent(old(State()), event, thread, rs)
    {
      ghost var s0 := State();
      dontDestroyYet := true;
      ErrorCallbackStep(event, thread, rs.onError, owner);
      assert State() == AfterErrorPhase(s0, event, thread, rs);
      PulseStep(Read, event, thread, rs.onRead, owner);
      assert State() == AfterReadPhase(s0, event, thread, rs);
      PulseStep(Write, event, thread, rs.onWrite, owner);
      assert State() == AfterWritePhase(s0, event, thread, rs);
      EndEventStep();
    }
  }

  /** linux_event_watcher_t: the handle that owns the guts. */
  class EventWatcher {
    const guts: EventWatcherGuts

    constructor (f: int, eh: EventCallback)
      ensures fresh(guts) && guts.State() == NewGuts(f)
    {
      guts := new EventWatcherGuts(f, eh);
    }

    /** ~linux_event_watcher_t: defers deletion while the guts is pinned. */
    method Destroy()
      requires DestroyHandlePre(guts.State())
      modifies guts
      ensures guts.State() == AfterDestroyHandle(old(guts.State()))
    {
      guts.ownerAlive := false;
      if guts.dontDestroyYet {
        guts.shouldDestroy := true;
      } else {
        guts.Delete();
      }
    }

    /** linux_event_watcher_t::watch: forwards to the guts. */
    method Watch(event: bv32, m: Multicond, thread: nat)
      requires guts.ownerAlive
      requires event == PollIn || event == PollOut
      requires WaiterWatchPre(guts.State(), DirectionOf(event), thread)
      modifies guts
      ensures guts.State() == AfterWatch(old(guts.State()), event, m, thread)
    {
      guts.Watch(event, m, thread);
    }
  }
}
