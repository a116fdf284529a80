/** Any number of threads running libusb_handle_events_timeout_completed and libusb_close,
    one atomic step for each shared access or critical section, in every interleaving. */
module EventLoop {
  import opened EventSignals
  import opened Options

  type Tid = nat

  datatype Pc =
    | Idle
      // libusb_try_lock_events
    | ReadClose | TryLock | MarkActive
      // handle_events
    | Refresh | Polling | PipeReady | Draining | Backend
      // libusb_unlock_events
    | Unmark | Release | Broadcast
      // event waiters
    | LockWaiters | CheckDone | RecheckClose | RecheckActive | GoToSleep | Asleep | Rewake | LeaveWaiters
      // libusb_close, whose last two steps are those of libusb_unlock_events
    | CloseBegin | CloseLock | CloseMark
    | InnerLock | InnerMark | InnerUnmark | InnerRelease | InnerBroadcast
    | CloseEnd | CloseUnmark

  /** What the threads share. */
  datatype Context = Context(
    data: Signals,
    active: bool,             // event_handler_active
    owner: Option<Tid>,       // events_lock, recursive
    depth: nat,
    waiters: Option<Tid>)     // event_waiters_lock

  datatype State = State(ctx: Context, pc: map<Tid, Pc>)

  /** usbi_io_init has registered the pipe itself, and nobody has called in yet. */
  ghost predicate Init(s: State) {
    && s.ctx == Context(Signals(0, true, [], [], 1), false, None, 0, None)
    && forall t :: t in s.pc ==> s.pc[t] == Idle
  }

  // ---------------------------------------------------------------- steps of one thread

  /** Leaves a section that ends by clearing the pipe when nothing is pending any more. */
  predicate Cleared(c: Context, c': Context, d: Signals) {
    !d.ClearBlocks() && c' == c.(data := d.ClearIfIdle())
  }

  /** One round of the drain loop: pop a completion and run it with the lock released, or finish. */
  predicate Drain(c: Context, p': Pc, c': Context, d: Signals) {
    if d.completed != [] then p' == Draining && c' == c.(data := d.TakeCompletion())
    else p' == Backend && Cleared(c, c', d)
  }

  predicate LockStep(t: Tid, c: Context, p: Pc, c': Context, p': Pc) {
    match p
    case Idle => (p' == ReadClose || p' == CloseBegin) && c' == c
    case ReadClose => p' == (if c.data.deviceClose != 0 then LockWaiters else TryLock) && c' == c
    case TryLock =>
      if c.owner == None then p' == MarkActive && c' == c.(owner := Some(t), depth := 1)
      else p' == LockWaiters && c' == c
    case MarkActive => (p' == Refresh || p' == Unmark) && c' == c.(active := true)
    case Unmark => p' == Release && c' == c.(active := false)
    case Release => p' == Broadcast && c' == c.(owner := None, depth := 0)
    case Broadcast => c.waiters == None && p' == Idle && c' == c
    case _ => false
  }

  predicate HandlerStep(c: Context, p: Pc, c': Context, p': Pc) {
    match p
    case Refresh =>
      if !c.data.pollfdsModified then p' == Polling && c' == c
      else (p' == Polling && Cleared(c, c', c.data.DropModified()))
           || (p' == Unmark && c' == c)                                      // out of memory
    case Polling =>
      // the pipe; another descriptor; or a timeout, a signal, a failure
      ((p' == PipeReady && c.data.pipe >= 1) || p' == Backend || p' == Unmark) && c' == c
    case PipeReady => Drain(c, p', c', c.data.TakeMessage())
    case Draining =>
      || Drain(c, p', c', c.data)
      || (p' == Backend && Cleared(c, c', c.data))                           // the backend failed
    case Backend => (p' == Polling || p' == Unmark) && c' == c
    case _ => false
  }

  predicate WaiterStep(t: Tid, c: Context, p: Pc, c': Context, p': Pc) {
    match p
    case LockWaiters => c.waiters == None && p' == CheckDone && c' == c.(waiters := Some(t))
    case CheckDone => (p' == LeaveWaiters || p' == RecheckClose) && c' == c
    case RecheckClose => p' == (if c.data.deviceClose != 0 then GoToSleep else RecheckActive) && c' == c
    case RecheckActive =>
      if c.active then p' == GoToSleep && c' == c
      else p' == ReadClose && c' == c.(waiters := None)                      // the handler went away: retry
    case GoToSleep => p' == Asleep && c' == c.(waiters := None)
    case Asleep => p' == Rewake && c' == c                                   // timeout or spurious wake-up
    case Rewake => c.waiters == None && p' == LeaveWaiters && c' == c.(waiters := Some(t))
    case LeaveWaiters => p' == Idle && c' == c.(waiters := None)
    case _ => false
  }

  predicate CloserStep(t: Tid, c: Context, p: Pc, c': Context, p': Pc) {
    match p
    case CloseBegin => p' == CloseLock && c' == c.(data := c.data.BeginClose())
    case CloseLock => c.owner == None && p' == CloseMark && c' == c.(owner := Some(t), depth := 1)
    case CloseMark => p' == InnerLock && c' == c.(active := true)
    case InnerLock => c.owner == Some(t) && p' == InnerMark && c' == c.(depth := c.depth + 1)
    case InnerMark => p' == InnerUnmark && c' == c.(active := true)
    case InnerUnmark => p' == InnerRelease && c' == c.(active := false)
    case InnerRelease => c.depth > 0 && p' == InnerBroadcast && c' == c.(depth := c.depth - 1)
    case InnerBroadcast => c.waiters == None && p' == CloseEnd && c' == c
    case CloseEnd => c.data.deviceClose > 0 && p' == CloseUnmark && Cleared(c, c', c.data.DropClose())
    case CloseUnmark => p' == Release && c' == c.(active := false)
    case _ => false
  }

  predicate ThreadStep(t: Tid, c: Context, p: Pc, c': Context, p': Pc) {
    LockStep(t, c, p, c', p') || HandlerStep(c, p, c', p') || WaiterStep(t, c, p, c', p') || CloserStep(t, c, p, c', p')
  }

  // ---------------------------------------------------------------- steps of the whole system

  /** pthread_cond_broadcast: every sleeper has to reacquire the waiters lock. */
  predicate Broadcasts(p: Pc) {
    p == Broadcast || p == InnerBroadcast
  }

  function WakeAll(pc: map<Tid, Pc>): map<Tid, Pc> {
    map t | t in pc :: if pc[t] == Asleep then Rewake else pc[t]
  }

  function Moved(pc: map<Tid, Pc>, t: Tid, p': Pc): map<Tid, Pc>
    requires t in pc
  {
    (if Broadcasts(pc[t]) then WakeAll(pc) else pc)[t := p']
  }

  /** Other parties: a backend thread queues a completion, hotplug reports a device, a
      descriptor is added or removed. Each is one section under event_data_lock. */
  datatype Producer = Completion(t: TransferId) | Hotplug(m: Message) | FdChange

  function Produced(d: Signals, e: Producer): Signals {
    match e
    case Completion(t) => d.AddCompletion(t)
    case Hotplug(m) => d.AddMessage(m)
    case FdChange => d.NotifyFd()
  }

  ghost predicate Produces(s: State, s': State, e: Producer) {
    s' == s.(ctx := s.ctx.(data := Produced(s.ctx.data, e)))
  }

  ghost predicate Acts(s: State, s': State, t: Tid, p': Pc) {
    t in s.pc && ThreadStep(t, s.ctx, s.pc[t], s'.ctx, p') && s'.pc == Moved(s.pc, t, p')
  }

  ghost predicate Step(s: State, s': State) {
    (exists e :: Produces(s, s', e)) || (exists t, p' :: Acts(s, s', t, p'))
  }

  ghost predicate StepAt(r: seq<State>, i: nat) {
    i + 1 < |r| && Step(r[i], r[i + 1])
  }

  ghost predicate Run(r: seq<State>) {
    |r| > 0 && Init(r[0]) && forall i :: 0 <= i < |r| - 1 ==> StepAt(r, i)
  }

  // ---------------------------------------------------------------- what a pc says

  predicate HoldsEvents(p: Pc) {
    match p
    case MarkActive | Refresh | Polling | PipeReady | Draining | Backend | Unmark | Release => true
    case CloseMark | InnerLock | InnerMark | InnerUnmark | InnerRelease | InnerBroadcast => true
    case CloseEnd | CloseUnmark => true
    case _ => false
  }

  function Depth(p: Pc): nat {
    match p
    case InnerMark | InnerUnmark | InnerRelease => 2
    case _ => if HoldsEvents(p) then 1 else 0
  }

  /** Where the holder of events_lock shows itself through event_handler_active. */
  predicate ShowsActive(p: Pc) {
    match p
    case Refresh | Polling | PipeReady | Draining | Backend | Unmark => true
    case InnerLock | InnerMark | InnerUnmark => true
    case _ => false
  }

  predicate HoldsWaiters(p: Pc) {
    match p
    case CheckDone | RecheckClose | RecheckActive | GoToSleep | LeaveWaiters => true
    case _ => false
  }

  /** Between the two sections of libusb_close. */
  predicate Closing(p: Pc) {
    match p
    case CloseLock | CloseMark | InnerLock | InnerMark | InnerUnmark | InnerRelease | InnerBroadcast | CloseEnd => true
    case _ => false
  }

  predicate Drains(p: Pc) {
    p == PipeReady || p == Draining
  }

  /** A broadcast on event_waiters_cond is still ahead of this thread. */
  predicate WillBroadcast(p: Pc) {
    HoldsEvents(p) || p == Broadcast || Closing(p)
  }

  predicate NeedsBroadcast(p: Pc) {
    p == GoToSleep || p == Asleep
  }

  // ---------------------------------------------------------------- invariant

  ghost function Closers(pc: map<Tid, Pc>): set<Tid> {
    set t | t in pc && Closing(pc[t])
  }

  /** Each lock is held by exactly the thread whose pc says so. */
  ghost predicate LocksOk(s: State) {
    EventsLockOk(s) && WaitersLockOk(s)
  }

  ghost predicate EventsLockOk(s: State) {
    && (forall t :: t in s.pc && HoldsEvents(s.pc[t]) ==> s.ctx.owner == Some(t))
    && (s.ctx.owner.Some? ==> s.ctx.owner.value in s.pc && HoldsEvents(s.pc[s.ctx.owner.value]))
  }

  ghost predicate WaitersLockOk(s: State) {
    && (forall t :: t in s.pc && HoldsWaiters(s.pc[t]) ==> s.ctx.waiters == Some(t))
    && (s.ctx.waiters.Some? ==> s.ctx.waiters.value in s.pc && HoldsWaiters(s.pc[s.ctx.waiters.value]))
  }

  /** The lock depth and event_handler_active are functions of where the holder is. */
  predicate OwnerOk(c: Context, p: Pc) {
    c.depth == Depth(p) && c.active == ShowsActive(p)
  }

  ghost predicate ActiveOk(s: State)
    requires LocksOk(s)
  {
    OwnerOk(s.ctx, if s.ctx.owner.Some? then s.pc[s.ctx.owner.value] else Idle)
  }

  ghost predicate PipeOk(s: State) {
    && s.ctx.data.Signalled()
    && (forall t :: t in s.pc && Drains(s.pc[t]) ==> s.ctx.data.pipe >= 1)
  }

  ghost predicate Wakeable(s: State) {
    forall t :: t in s.pc && NeedsBroadcast(s.pc[t]) ==> exists u :: u in s.pc && WillBroadcast(s.pc[u])
  }

  ghost predicate Inv(s: State) {
    && LocksOk(s)
    && ActiveOk(s)
    && s.ctx.data.deviceClose == |Closers(s.pc)|
    && PipeOk(s)
    && Wakeable(s)
  }

  // ---------------------------------------------------------------- what one step does

  /** The invariant as the moving thread sees it. */
  predicate Local(t: Tid, c: Context, p: Pc) {
    LocalLocks(t, c, p) && LocalData(c, p)
  }

  predicate LocalLocks(t: Tid, c: Context, p: Pc) {
    && HoldsEvents(p) == (c.owner == Some(t))
    && (HoldsEvents(p) || c.owner == None ==> OwnerOk(c, p))
    && HoldsWaiters(p) == (c.waiters == Some(t))
  }

  predicate LocalData(c: Context, p: Pc) {
    && c.data.Signalled()
    && (Drains(p) ==> c.data.pipe >= 1)
    && (Closing(p) ==> c.data.deviceClose > 0)
  }

  /** What the other threads see: no lock is taken from them, and a shorter pipe means that
      the moving thread holds events_lock. */
  predicate Seen(t: Tid, c: Context, p: Pc, c': Context, p': Pc) {
    && (c'.owner != c.owner ==> c'.owner in {None, Some(t)} && c.owner in {None, Some(t)})
    && (c.owner != Some(t) && c'.owner == c.owner ==> c'.depth == c.depth && c'.active == c.active)
    && (c'.waiters != c.waiters ==> c'.waiters in {None, Some(t)} && c.waiters in {None, Some(t)})
    && (c'.data.pipe < c.data.pipe ==> c.owner == Some(t))
    && c'.data.deviceClose + (if Closing(p) then 1 else 0) == c.data.deviceClose + (if Closing(p') then 1 else 0)
  }

  lemma LocalLock(t: Tid, c: Context, p: Pc, c': Context, p': Pc)
    requires Local(t, c, p) && LockStep(t, c, p, c', p')
    ensures Local(t, c', p') && Seen(t, c, p, c', p')
  {
    LockLocks(t, c, p, c', p');
    LockData(t, c, p, c', p');
    OwnerIsMover(t, c, p);
    hide OwnerOk, HoldsWaiters, LocalLocks, LocalData, Drains, Closing;
  }

  lemma OwnerIsMover(t: Tid, c: Context, p: Pc)
    requires LocalLocks(t, c, p)
    ensures c.owner == Some(t) <==> HoldsEvents(p)
  {
  }

  lemma LockLocks(t: Tid, c: Context, p: Pc, c': Context, p': Pc)
    requires LocalLocks(t, c, p) && LockStep(t, c, p, c', p')
    ensures LocalLocks(t, c', p')
  {
    LockNeverWaits(t, c, p, c', p');
    hide HoldsWaiters;
  }

  lemma LockNeverWaits(t: Tid, c: Context, p: Pc, c': Context, p': Pc)
    requires LockStep(t, c, p, c', p')
    ensures !HoldsWaiters(p) && !HoldsWaiters(p') && c'.waiters == c.waiters
  {
  }

  lemma LockData(t: Tid, c: Context, p: Pc, c': Context, p': Pc)
    requires LocalData(c, p) && LockStep(t, c, p, c', p')
    ensures LocalData(c', p') && c'.data == c.data && Closing(p') == Closing(p) == false
  {
  }

  lemma LocalHandler(t: Tid, c: Context, p: Pc, c': Context, p': Pc)
    requires Local(t, c, p) && HandlerStep(c, p, c', p')
    ensures Local(t, c', p') && Seen(t, c, p, c', p')
  {
    HandlerKeeps(c, p, c', p');
    HandlerData(c, p, c', p');
    hide HandlerStep, LocalData, HoldsEvents, HoldsWaiters, Depth, ShowsActive, Closing;
  }

  /** The handler holds events_lock and leaves everything but the event data alone. */
  lemma HandlerKeeps(c: Context, p: Pc, c': Context, p': Pc)
    requires HandlerStep(c, p, c', p')
    ensures c' == c.(data := c'.data)
    ensures HoldsEvents(p) && HoldsEvents(p') && Depth(p) == Depth(p') && ShowsActive(p) && ShowsActive(p')
    ensures !HoldsWaiters(p) && !HoldsWaiters(p') && !Closing(p) && !Closing(p')
  {
  }

  lemma HandlerData(c: Context, p: Pc, c': Context, p': Pc)
    requires LocalData(c, p) && HandlerStep(c, p, c', p')
    ensures LocalData(c', p') && c'.data.deviceClose == c.data.deviceClose
  {
  }

  lemma LocalWaiter(t: Tid, c: Context, p: Pc, c': Context, p': Pc)
    requires Local(t, c, p) && WaiterStep(t, c, p, c', p')
    ensures Local(t, c', p') && Seen(t, c, p, c', p')
  {
  }

  lemma LocalCloser(t: Tid, c: Context, p: Pc, c': Context, p': Pc)
    requires Local(t, c, p) && CloserStep(t, c, p, c', p')
    ensures Local(t, c', p') && Seen(t, c, p, c', p')
  {
    CloserLocks(t, c, p, c', p');
    CloserData(t, c, p, c', p');
    CloserSeen(t, c, p, c', p');
  }

  lemma CloserLocks(t: Tid, c: Context, p: Pc, c': Context, p': Pc)
    requires LocalLocks(t, c, p) && CloserStep(t, c, p, c', p')
    ensures LocalLocks(t, c', p')
  {
    hide Cleared, HoldsWaiters;
    CloserNeverWaits(t, c, p, c', p');
    if p == CloseEnd {
      ClearedData(c, c', c.data.DropClose());
    }
  }

  lemma CloserNeverWaits(t: Tid, c: Context, p: Pc, c': Context, p': Pc)
    requires CloserStep(t, c, p, c', p')
    ensures !HoldsWaiters(p) && !HoldsWaiters(p') && c'.waiters == c.waiters
  {
    hide Cleared;
    if p == CloseEnd {
      ClearedData(c, c', c.data.DropClose());
    }
  }

  lemma ClearedData(c: Context, c': Context, d: Signals)
    requires Cleared(c, c', d)
    ensures c' == c.(data := c'.data)
  {
  }

  lemma CloserData(t: Tid, c: Context, p: Pc, c': Context, p': Pc)
    requires Local(t, c, p) && CloserStep(t, c, p, c', p')
    ensures LocalData(c', p')
  {
    if p == CloseEnd {
      ClearedKeeps(c, c', c.data.DropClose());
    }
    hide Cleared, LocalLocks;
  }

  lemma ClearedKeeps(c: Context, c': Context, d: Signals)
    requires Cleared(c, c', d) && d.Signalled()
    ensures c'.data.Signalled() && c' == c.(data := c'.data) && c'.data.deviceClose == d.deviceClose
  {
  }

  lemma CloserSeen(t: Tid, c: Context, p: Pc, c': Context, p': Pc)
    requires Local(t, c, p) && CloserStep(t, c, p, c', p')
    ensures Seen(t, c, p, c', p')
  {
    hide OwnerOk, Drains, HoldsWaiters;
  }

  /** Falling asleep needs a reason. */
  lemma LocalSleep(t: Tid, c: Context, p: Pc, c': Context, p': Pc)
    requires ThreadStep(t, c, p, c', p') && NeedsBroadcast(p') && !NeedsBroadcast(p)
    ensures c.data.deviceClose != 0 || c.active
  {
    hide LockStep, HandlerStep, WaiterStep, CloserStep, NeedsBroadcast;
    if LockStep(t, c, p, c', p') {
      LockSleeps(t, c, p, c', p');
    } else if HandlerStep(c, p, c', p') {
      HandlerSleeps(c, p, c', p');
    } else if WaiterStep(t, c, p, c', p') {
      WaiterSleeps(t, c, p, c', p');
    } else {
      CloserSleeps(t, c, p, c', p');
    }
  }

  lemma LockSleeps(t: Tid, c: Context, p: Pc, c': Context, p': Pc)
    requires LockStep(t, c, p, c', p')
    ensures !NeedsBroadcast(p') && (WillBroadcast(p) && !WillBroadcast(p') ==> p == Broadcast)
  {
  }

  lemma HandlerSleeps(c: Context, p: Pc, c': Context, p': Pc)
    requires HandlerStep(c, p, c', p')
    ensures !NeedsBroadcast(p') && WillBroadcast(p')
  {
    hide Cleared;
  }

  lemma WaiterSleeps(t: Tid, c: Context, p: Pc, c': Context, p': Pc)
    requires WaiterStep(t, c, p, c', p')
    ensures NeedsBroadcast(p') && !NeedsBroadcast(p) ==> c.data.deviceClose != 0 || c.active
    ensures !WillBroadcast(p)
  {
  }

  lemma CloserSleeps(t: Tid, c: Context, p: Pc, c': Context, p': Pc)
    requires CloserStep(t, c, p, c', p')
    ensures !NeedsBroadcast(p') && WillBroadcast(p')
  {
    hide Cleared;
  }

  /** A thread stops owing a broadcast only by broadcasting. */
  lemma LocalOwes(t: Tid, c: Context, p: Pc, c': Context, p': Pc)
    requires ThreadStep(t, c, p, c', p') && WillBroadcast(p) && !WillBroadcast(p')
    ensures p == Broadcast
  {
    hide LockStep, HandlerStep, WaiterStep, CloserStep, WillBroadcast;
    if LockStep(t, c, p, c', p') {
      LockSleeps(t, c, p, c', p');
    } else if HandlerStep(c, p, c', p') {
      HandlerSleeps(c, p, c', p');
    } else if WaiterStep(t, c, p, c', p') {
      WaiterSleeps(t, c, p, c', p');
    } else {
      CloserSleeps(t, c, p, c', p');
    }
  }

  /** It broadcasts while nobody holds the waiters lock, that is, while nobody is about to sleep. */
  lemma LocalBroadcast(t: Tid, c: Context, p: Pc, c': Context, p': Pc)
    requires ThreadStep(t, c, p, c', p') && Broadcasts(p)
    ensures c.waiters == None && c' == c && p' == if p == Broadcast then Idle else CloseEnd
  {
  }

  // ---------------------------------------------------------------- the invariant holds in every run

  lemma InitInv(s: State)
    requires Init(s)
    ensures Inv(s)
  {
    assert Closers(s.pc) == {};
  }

  lemma ProduceInv(s: State, s': State, e: Producer)
    requires Inv(s) && Produces(s, s', e)
    ensures Inv(s')
  {
  }

  /** Moving one thread leaves the others where they were, or wakes them. */
  lemma MovedOthers(pc: map<Tid, Pc>, t: Tid, p': Pc)
    requires t in pc
    ensures var pc' := Moved(pc, t, p');
      pc'.Keys == pc.Keys && pc'[t] == p' &&
      forall u :: u in pc && u != t ==> pc'[u] == (if Broadcasts(pc[t]) && pc[u] == Asleep then Rewake else pc[u])
  {
  }

  lemma CloserCount(pc: map<Tid, Pc>, pc': map<Tid, Pc>, t: Tid)
    requires t in pc && pc'.Keys == pc.Keys
    requires forall u :: u in pc && u != t ==> Closing(pc'[u]) == Closing(pc[u])
    ensures |Closers(pc')| + (if Closing(pc[t]) then 1 else 0) == |Closers(pc)| + (if Closing(pc'[t]) then 1 else 0)
  {
    var rest := Closers(pc) - {t};
    assert Closers(pc) == if Closing(pc[t]) then rest + {t} else rest;
    assert Closers(pc') == if Closing(pc'[t]) then rest + {t} else rest;
  }

  lemma StepLocal(t: Tid, c: Context, p: Pc, c': Context, p': Pc)
    requires Local(t, c, p) && ThreadStep(t, c, p, c', p')
    ensures Local(t, c', p') && Seen(t, c, p, c', p')
  {
    if LockStep(t, c, p, c', p') {
      LocalLock(t, c, p, c', p');
    } else if HandlerStep(c, p, c', p') {
      LocalHandler(t, c, p, c', p');
    } else if WaiterStep(t, c, p, c', p') {
      LocalWaiter(t, c, p, c', p');
    } else {
      LocalCloser(t, c, p, c', p');
    }
  }

  lemma InvLocal(s: State, t: Tid)
    requires Inv(s) && t in s.pc
    ensures Local(t, s.ctx, s.pc[t])
  {
    if Closing(s.pc[t]) {
      assert t in Closers(s.pc);
    }
  }

  lemma NotHolding(p: Pc)
    ensures !HoldsEvents(p) ==> Depth(p) == 0 && !ShowsActive(p)
  {
  }

  lemma MovedLocks(s: State, s': State, t: Tid, p': Pc)
    requires LocksOk(s) && ActiveOk(s) && t in s.pc && s'.pc == Moved(s.pc, t, p')
    requires Local(t, s'.ctx, p') && Seen(t, s.ctx, s.pc[t], s'.ctx, p')
    ensures LocksOk(s') && ActiveOk(s')
  {
    MovedEventsLock(s, s', t, p');
    MovedWaitersLock(s, s', t, p');
    hide LocksOk, ActiveOk, Seen, LocalData, EventsLockOk, WaitersLockOk;
    assert LocksOk(s') by { BothLocks(s'); }
    MovedActive(s, s', t, p');
  }

  lemma BothLocks(s: State)
    requires EventsLockOk(s) && WaitersLockOk(s)
    ensures LocksOk(s)
  {
  }

  lemma MovedEventsLock(s: State, s': State, t: Tid, p': Pc)
    requires EventsLockOk(s) && t in s.pc && s'.pc == Moved(s.pc, t, p')
    requires LocalLocks(t, s'.ctx, p') && Seen(t, s.ctx, s.pc[t], s'.ctx, p')
    ensures EventsLockOk(s')
  {
    hide Moved, WakeAll, OwnerOk, HoldsWaiters;
    MovedOthers(s.pc, t, p');
  }

  lemma MovedWaitersLock(s: State, s': State, t: Tid, p': Pc)
    requires WaitersLockOk(s) && t in s.pc && s'.pc == Moved(s.pc, t, p')
    requires LocalLocks(t, s'.ctx, p') && Seen(t, s.ctx, s.pc[t], s'.ctx, p')
    ensures WaitersLockOk(s')
  {
    hide Moved, WakeAll, OwnerOk, HoldsEvents;
    MovedOthers(s.pc, t, p');
  }

  lemma MovedActive(s: State, s': State, t: Tid, p': Pc)
    requires LocksOk(s) && ActiveOk(s) && t in s.pc && s'.pc == Moved(s.pc, t, p') && LocksOk(s')
    requires LocalLocks(t, s'.ctx, p') && Seen(t, s.ctx, s.pc[t], s'.ctx, p')
    ensures ActiveOk(s')
  {
    hide Moved, WakeAll, Depth, ShowsActive;
    NotHolding(p');
    NotHolding(Idle);
    MovedOthers(s.pc, t, p');
  }

  lemma MovedPipe(s: State, s': State, t: Tid, p': Pc)
    requires Inv(s) && t in s.pc && s'.pc == Moved(s.pc, t, p')
    requires Local(t, s'.ctx, p') && Seen(t, s.ctx, s.pc[t], s'.ctx, p')
    ensures PipeOk(s') && s'.ctx.data.deviceClose == |Closers(s'.pc)|
  {
    MovedOthers(s.pc, t, p');
    CloserCount(s.pc, s'.pc, t);
  }

  /** Whoever will broadcast still will, unless he just has. */
  lemma PromiseKept(s: State, s': State, t: Tid, p': Pc, u: Tid)
    requires Acts(s, s', t, p') && u in s.pc && WillBroadcast(s.pc[u])
    ensures u in s'.pc && (WillBroadcast(s'.pc[u]) || (u == t && s.pc[t] == Broadcast))
  {
    hide ThreadStep, Moved, WakeAll;
    MovedOthers(s.pc, t, p');
    if u == t && !WillBroadcast(p') {
      LocalOwes(t, s.ctx, s.pc[t], s'.ctx, p');
    }
  }

  /** After a broadcast nobody needs one. */
  lemma NobodySleeps(s: State, s': State, t: Tid, p': Pc, v: Tid)
    requires LocksOk(s) && Acts(s, s', t, p') && Broadcasts(s.pc[t]) && v in s'.pc
    ensures !NeedsBroadcast(s'.pc[v])
  {
    hide ThreadStep, Moved, WakeAll;
    MovedOthers(s.pc, t, p');
    LocalBroadcast(t, s.ctx, s.pc[t], s'.ctx, p');
  }

  /** Whoever goes to sleep has seen a closer or an active handler. */
  lemma SomeoneWill(s: State)
    requires LocksOk(s) && ActiveOk(s) && s.ctx.data.deviceClose == |Closers(s.pc)|
    requires s.ctx.data.deviceClose != 0 || s.ctx.active
    ensures exists u :: u in s.pc && WillBroadcast(s.pc[u])
  {
    if s.ctx.data.deviceClose != 0 {
      var u :| u in Closers(s.pc);
      assert u in s.pc && WillBroadcast(s.pc[u]);
    } else {
      assert s.ctx.owner.value in s.pc && WillBroadcast(s.pc[s.ctx.owner.value]);
    }
  }

  lemma MovedWakeable(s: State, s': State, t: Tid, p': Pc)
    requires LocksOk(s) && ActiveOk(s) && Wakeable(s) && s.ctx.data.deviceClose == |Closers(s.pc)|
    requires Acts(s, s', t, p')
    ensures Wakeable(s')
  {
    hide ThreadStep, Moved, WakeAll, Closers, LocksOk, ActiveOk, WillBroadcast, NeedsBroadcast;
    MovedOthers(s.pc, t, p');
    forall v | v in s'.pc && NeedsBroadcast(s'.pc[v])
      ensures exists u :: u in s'.pc && WillBroadcast(s'.pc[u])
    {
      if Broadcasts(s.pc[t]) {
        NobodySleeps(s, s', t, p', v);
      }
      if v == t && !NeedsBroadcast(s.pc[t]) {
        LocalSleep(t, s.ctx, s.pc[t], s'.ctx, p');
        SomeoneWill(s);
      }
      var u :| u in s.pc && WillBroadcast(s.pc[u]);
      PromiseKept(s, s', t, p', u);
    }
  }

  lemma StepInv(s: State, s': State)
    requires Inv(s) && Step(s, s')
    ensures Inv(s')
  {
    if e :| Produces(s, s', e) {
      ProduceInv(s, s', e);
    } else {
      var t, p' :| Acts(s, s', t, p');
      InvLocal(s, t);
      StepLocal(t, s.ctx, s.pc[t], s'.ctx, p');
      MovedLocks(s, s', t, p');
      MovedPipe(s, s', t, p');
      MovedWakeable(s, s', t, p');
    }
  }

  lemma {:induction false} RunInv(r: seq<State>, i: nat)
    requires Run(r) && i < |r|
    ensures Inv(r[i])
  {
    if i == 0 {
      InitInv(r[0]);
    } else {
      RunInv(r, i - 1);
      assert StepAt(r, i - 1);
      StepInv(r[i - 1], r[i]);
    }
  }

  /** One step of a run, and the invariant before it. */
  lemma RunStep(r: seq<State>, i: nat)
    requires Run(r) && i + 1 < |r|
    ensures Inv(r[i]) && Step(r[i], r[i + 1])
  {
    RunInv(r, i);
    assert StepAt(r, i);
  }

  /** At the start the pipe is exact, something is pending, and no thread is inside the library. */
  lemma StartsExact(r: seq<State>)
    requires Run(r)
    ensures r[0].ctx.data.Exact() && r[0].ctx.data.Pending() && r[0].ctx.data.pipe == 1
    ensures forall t :: t in r[0].pc ==> r[0].pc[t] == Idle
  {
  }
}
