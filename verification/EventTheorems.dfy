/** What the invariant of EventLoop means for a caller of the library. */
module EventTheorems {
  import opened EventSignals
  import opened EventLoop
  import opened Options

  // ---------------------------------------------------------------- no lost wake-up

  /** A thread asleep in libusb_wait_for_event is owed a broadcast by another thread, which
      holds events_lock, has just released it, or is inside libusb_close. */
  lemma NoLostWakeup(r: seq<State>, i: nat, t: Tid)
    requires Run(r) && i < |r| && t in r[i].pc && r[i].pc[t] == Asleep
    ensures exists u :: u in r[i].pc && u != t && WillBroadcast(r[i].pc[u])
    ensures r[i].ctx.owner.Some? || r[i].ctx.data.deviceClose > 0 || exists u :: u in r[i].pc && r[i].pc[u] == Broadcast
  {
    var s := r[i];
    RunInv(r, i);
    var u :| u in s.pc && WillBroadcast(s.pc[u]);
    if Closing(s.pc[u]) {
      assert u in Closers(s.pc);
    }
  }

  /** The debt is paid: when the debtor no longer owes a broadcast, the sleeper has been woken. */
  lemma {:induction false} DebtIsPaid(r: seq<State>, i: nat, j: nat, t: Tid, u: Tid)
    requires Run(r) && i <= j < |r|
    requires t in r[i].pc && r[i].pc[t] == Asleep
    requires u in r[i].pc && WillBroadcast(r[i].pc[u])
    requires u in r[j].pc && !WillBroadcast(r[j].pc[u])
    ensures exists k :: i < k <= j && t in r[k].pc && r[k].pc[t] != Asleep
    decreases j - i
  {
    assert StepAt(r, i);
    StepKeepsDebt(r[i], r[i + 1], t, u);
    if r[i + 1].pc[t] == Asleep {
      DebtIsPaid(r, i + 1, j, t, u);
    }
  }

  lemma StepKeepsDebt(s: State, s': State, t: Tid, u: Tid)
    requires Step(s, s') && t in s.pc && s.pc[t] == Asleep && u in s.pc && WillBroadcast(s.pc[u])
    ensures t in s'.pc && u in s'.pc && (s'.pc[t] != Asleep || WillBroadcast(s'.pc[u]))
  {
    if e :| Produces(s, s', e) {
    } else {
      var v, p' :| Acts(s, s', v, p');
      MovedOthers(s.pc, v, p');
      if v == u && !WillBroadcast(p') {
        LocalOwes(v, s.ctx, s.pc[v], s'.ctx, p');
      }
    }
  }

  /** event_handler_active says that somebody handles events, but not the other way round: it
      reads 0 under the lock between the nested unlock of do_close and the end of libusb_close. */
  lemma ActiveMeansHeld(r: seq<State>, i: nat)
    requires Run(r) && i < |r|
    ensures r[i].ctx.active <==>
      r[i].ctx.owner.Some? && r[i].ctx.owner.value in r[i].pc && ShowsActive(r[i].pc[r[i].ctx.owner.value])
  {
    RunInv(r, i);
  }

  /** One thread at a time is between taking and releasing events_lock, however deep. */
  lemma OneHandler(r: seq<State>, i: nat, t: Tid, u: Tid)
    requires Run(r) && i < |r| && t in r[i].pc && u in r[i].pc
    requires HoldsEvents(r[i].pc[t]) && HoldsEvents(r[i].pc[u])
    ensures t == u && r[i].ctx.owner == Some(t) && r[i].ctx.depth == Depth(r[i].pc[t])
  {
    RunInv(r, i);
  }

  // ---------------------------------------------------------------- the event pipe

  /** The data a thread is about to look at when it decides whether to clear the pipe. */
  function AtClear(d: Signals, p: Pc): Option<Signals> {
    match p
    case Refresh => if d.pollfdsModified then Some(d.DropModified()) else None
    case PipeReady => if d.TakeMessage().completed == [] then Some(d.TakeMessage()) else None
    case Draining => Some(d)
    case CloseEnd => if d.deviceClose > 0 then Some(d.DropClose()) else None
    case _ => None
  }

  /** Pending work keeps the pipe readable, and no reader of the pipe finds it empty. */
  lemma PipeAgrees(r: seq<State>, i: nat, t: Tid)
    requires Run(r) && i < |r| && t in r[i].pc
    ensures r[i].ctx.data.Pending() ==> r[i].ctx.data.pipe >= 1
    ensures var c := AtClear(r[i].ctx.data, r[i].pc[t]); c.Some? ==> !c.value.ClearBlocks()
    ensures r[i].pc[t] == CloseEnd ==> r[i].ctx.data.deviceClose > 0
  {
    RunInv(r, i);
    InvLocal(r[i], t);
  }

  /** A drain has emptied the queue, nothing else is pending, and the byte is not read yet. */
  ghost predicate DrainGap(s: State) {
    !s.ctx.data.Pending() && exists t :: t in s.pc && s.pc[t] == Draining
  }

  ghost predicate ExactAfter(c: Context, p: Pc, c': Context, p': Pc) {
    && (if p' == Draining then c'.data.Exact() == c'.data.Pending() else c'.data.Exact())
    && (c.data.Pending() && !c'.data.Pending() ==> HoldsEvents(p))
  }

  lemma HandlerExact(c: Context, p: Pc, c': Context, p': Pc)
    requires HandlerStep(c, p, c', p') && c.data.Exact() && (Drains(p) ==> c.data.pipe >= 1)
    ensures ExactAfter(c, p, c', p')
  {
  }

  lemma CloserExact(t: Tid, c: Context, p: Pc, c': Context, p': Pc)
    requires CloserStep(t, c, p, c', p') && c.data.Exact()
    ensures ExactAfter(c, p, c', p')
  {
  }

  lemma OtherExact(t: Tid, c: Context, p: Pc, c': Context, p': Pc)
    requires (LockStep(t, c, p, c', p') || WaiterStep(t, c, p, c', p')) && c.data.Exact()
    ensures ExactAfter(c, p, c', p')
  {
  }

  /** Threads give way to a close: one goes for the event lock, or does not go to sleep, only when
      nobody is closing a device. */
  lemma GivesWay(r: seq<State>, i: nat, t: Tid, p': Pc)
    requires Run(r) && i + 1 < |r| && Acts(r[i], r[i + 1], t, p')
    ensures r[i].pc[t] == ReadClose ==> p' in {TryLock, LockWaiters} && (p' == TryLock <==> Closers(r[i].pc) == {})
    ensures r[i].pc[t] == RecheckClose ==>
      p' in {RecheckActive, GoToSleep} && (p' == RecheckActive <==> Closers(r[i].pc) == {})
  {
    RunInv(r, i);
    hide Run, LocksOk, ActiveOk, PipeOk, Wakeable, Moved, ThreadStep;
    StepGivesWay(t, r[i].ctx, r[i].pc[t], r[i + 1].ctx, p');
  }

  lemma StepGivesWay(t: Tid, c: Context, p: Pc, c': Context, p': Pc)
    requires ThreadStep(t, c, p, c', p')
    ensures p == ReadClose ==> p' == if c.data.deviceClose != 0 then LockWaiters else TryLock
    ensures p == RecheckClose ==> p' == if c.data.deviceClose != 0 then GoToSleep else RecheckActive
  {
    if p == ReadClose {
      assert LockStep(t, c, p, c', p');
    } else if p == RecheckClose {
      assert WaiterStep(t, c, p, c', p');
    }
  }

  /** From an exact pipe a step leads to an inexact one exactly when it opens a drain gap. */
  lemma ExactUnlessGap(s: State, s': State)
    requires Inv(s) && Step(s, s') && s.ctx.data.Exact()
    ensures s'.ctx.data.Exact() <==> !DrainGap(s')
  {
    StepInv(s, s');
    if e :| Produces(s, s', e) {
    } else {
      var t, p' :| Acts(s, s', t, p');
      MovedOthers(s.pc, t, p');
      InvLocal(s, t);
      if HandlerStep(s.ctx, s.pc[t], s'.ctx, p') {
        HandlerExact(s.ctx, s.pc[t], s'.ctx, p');
      } else if CloserStep(t, s.ctx, s.pc[t], s'.ctx, p') {
        CloserExact(t, s.ctx, s.pc[t], s'.ctx, p');
      } else {
        OtherExact(t, s.ctx, s.pc[t], s'.ctx, p');
      }
    }
  }

  /** Where completions are never queued, the pipe holds exactly one byte while something is
      pending and is empty otherwise. */
  lemma {:induction false} ExactWithoutCompletions(r: seq<State>, i: nat)
    requires Run(r) && i < |r|
    requires forall k :: 0 <= k <= i ==> r[k].ctx.data.completed == []
    ensures r[i].ctx.data.Exact()
    ensures forall t :: t in r[i].pc ==> r[i].pc[t] != Draining
  {
    hide Run, Inv, Step;
    StartsExact(r);
    if i > 0 {
      ExactWithoutCompletions(r, i - 1);
      RunStep(r, i - 1);
      NoDrain(r[i - 1], r[i]);
      ExactUnlessGap(r[i - 1], r[i]);
    }
  }

  lemma NoDrain(s: State, s': State)
    requires Step(s, s') && s.ctx.data.completed == []
    requires forall t :: t in s.pc ==> s.pc[t] != Draining
    ensures forall t :: t in s'.pc ==> s'.pc[t] != Draining
  {
    if e :| Produces(s, s', e) {
    } else {
      var t, p' :| Acts(s, s', t, p');
      MovedOthers(s.pc, t, p');
      LocalNoDrain(t, s.ctx, s.pc[t], s'.ctx, p');
    }
  }

  lemma LocalNoDrain(t: Tid, c: Context, p: Pc, c': Context, p': Pc)
    requires ThreadStep(t, c, p, c', p') && c.data.completed == [] && p != Draining
    ensures p' != Draining
  {
  }

  // ---------------------------------------------------------------- progress

  /** The thread waits for another thread, for input, or for its caller. */
  predicate Waits(c: Context, p: Pc) {
    match p
    case Idle | Asleep => true
    case LockWaiters | Rewake | Broadcast | InnerBroadcast => c.waiters.Some?
    case CloseLock => c.owner.Some?
    case Polling => c.data.pipe == 0
    case _ => false
  }

  /** A step that needs no timeout, no spurious wake-up and no new call. */
  predicate Unaided(t: Tid, c: Context, p: Pc, c': Context, p': Pc) {
    ThreadStep(t, c, p, c', p') && p != Idle && p != Asleep && (p == Polling ==> p' == PipeReady)
  }

  /** Whoever does not wait can take a step of its own. */
  lemma MovesUnaided(t: Tid, c: Context, p: Pc) returns (c': Context, p': Pc)
    requires Local(t, c, p) && !Waits(c, p)
    ensures Unaided(t, c, p, c', p')
  {
    match p {
      case Idle | Asleep =>
        assert false;
      case ReadClose | TryLock | MarkActive | Unmark | Release | Broadcast =>
        c', p' := LockMoves(t, c, p);
      case Refresh | Polling | PipeReady | Draining | Backend =>
        c', p' := HandlerMoves(t, c, p);
      case LockWaiters | CheckDone | RecheckClose | RecheckActive | GoToSleep | Rewake | LeaveWaiters =>
        c', p' := WaiterMoves(t, c, p);
      case CloseBegin | CloseLock | CloseMark | InnerLock | InnerMark | InnerUnmark | InnerRelease | InnerBroadcast
        | CloseEnd | CloseUnmark =>
        c', p' := CloserMoves(t, c, p);
    }
  }

  lemma LockMoves(t: Tid, c: Context, p: Pc) returns (c': Context, p': Pc)
    requires p.ReadClose? || p.TryLock? || p.MarkActive? || p.Unmark? || p.Release?
      || (p.Broadcast? && c.waiters == None)
    ensures LockStep(t, c, p, c', p')
  {
    c' := c;
    match p
    case ReadClose => p' := if c.data.deviceClose != 0 then LockWaiters else TryLock;
    case TryLock => p' := if c.owner == None then MarkActive else LockWaiters;
      if c.owner == None {
        c' := c.(owner := Some(t), depth := 1);
      }
    case MarkActive => p', c' := Refresh, c.(active := true);
    case Unmark => p', c' := Release, c.(active := false);
    case Release => p', c' := Broadcast, c.(owner := None, depth := 0);
    case Broadcast => p' := Idle;
  }

  lemma HandlerMoves(t: Tid, c: Context, p: Pc) returns (c': Context, p': Pc)
    requires Local(t, c, p) && !Waits(c, p)
    requires p.Refresh? || p.Polling? || p.PipeReady? || p.Draining? || p.Backend?
    ensures HandlerStep(c, p, c', p') && (p == Polling ==> p' == PipeReady)
  {
    c' := c;
    match p
    case Refresh => p' := Polling;
      if c.data.pollfdsModified {
        c' := c.(data := c.data.DropModified().ClearIfIdle());
      }
    case Polling => p' := PipeReady;
    case PipeReady => p', c' := AfterDrain(c, c.data.TakeMessage());
    case Draining => p', c' := AfterDrain(c, c.data);
    case Backend => p' := Polling;
  }

  lemma WaiterMoves(t: Tid, c: Context, p: Pc) returns (c': Context, p': Pc)
    requires !Waits(c, p)
    requires p.LockWaiters? || p.CheckDone? || p.RecheckClose? || p.RecheckActive? || p.GoToSleep? || p.Rewake?
      || p.LeaveWaiters?
    ensures WaiterStep(t, c, p, c', p')
  {
    c' := c;
    match p
    case LockWaiters => p', c' := CheckDone, c.(waiters := Some(t));
    case CheckDone => p' := RecheckClose;
    case RecheckClose => p' := if c.data.deviceClose != 0 then GoToSleep else RecheckActive;
    case RecheckActive => p' := if c.active then GoToSleep else ReadClose;
      if !c.active {
        c' := c.(waiters := None);
      }
    case GoToSleep => p', c' := Asleep, c.(waiters := None);
    case Rewake => p', c' := LeaveWaiters, c.(waiters := Some(t));
    case LeaveWaiters => p', c' := Idle, c.(waiters := None);
  }

  lemma CloserMoves(t: Tid, c: Context, p: Pc) returns (c': Context, p': Pc)
    requires Local(t, c, p) && !Waits(c, p)
    requires p.CloseBegin? || p.CloseLock? || p.CloseMark? || p.InnerLock? || p.InnerMark? || p.InnerUnmark?
      || p.InnerRelease? || p.InnerBroadcast? || p.CloseEnd? || p.CloseUnmark?
    ensures CloserStep(t, c, p, c', p')
  {
    c' := c;
    match p
    case CloseBegin => p', c' := CloseLock, c.(data := c.data.BeginClose());
    case CloseLock => p', c' := CloseMark, c.(owner := Some(t), depth := 1);
    case CloseMark => p', c' := InnerLock, c.(active := true);
    case InnerLock => p', c' := InnerMark, c.(depth := c.depth + 1);
    case InnerMark => p', c' := InnerUnmark, c.(active := true);
    case InnerUnmark => p', c' := InnerRelease, c.(active := false);
    case InnerRelease => p', c' := InnerBroadcast, c.(depth := c.depth - 1);
    case InnerBroadcast => p' := CloseEnd;
    case CloseEnd => p', c' := CloseUnmark, c.(data := c.data.DropClose().ClearIfIdle());
    case CloseUnmark => p', c' := Release, c.(active := false);
  }

  lemma AfterDrain(c: Context, d: Signals) returns (p': Pc, c': Context)
    requires !d.ClearBlocks()
    ensures Drain(c, p', c', d)
  {
    if d.completed != [] {
      p', c' := Draining, c.(data := d.TakeCompletion());
    } else {
      p', c' := Backend, c.(data := d.ClearIfIdle());
    }
  }

  ghost predicate SomeoneMoves(s: State) {
    exists t, c', p' :: t in s.pc && Unaided(t, s.ctx, s.pc[t], c', p')
  }

  lemma MoverMoves(s: State, t: Tid)
    requires Inv(s) && t in s.pc && !Waits(s.ctx, s.pc[t])
    ensures SomeoneMoves(s)
  {
    InvLocal(s, t);
    var c', p' := MovesUnaided(t, s.ctx, s.pc[t]);
  }

  /** While a handle is being closed the system never deadlocks: the closer is not stuck
      behind a poller, because its byte makes the poll return. */
  lemma CloseMakesProgress(r: seq<State>, i: nat, t: Tid)
    requires Run(r) && i < |r| && t in r[i].pc && Closing(r[i].pc[t])
    ensures SomeoneMoves(r[i])
  {
    var s := r[i];
    RunInv(r, i);
    assert t in Closers(s.pc);
    if !Waits(s.ctx, s.pc[t]) {
      MoverMoves(s, t);
    } else if s.pc[t] == CloseLock && !Waits(s.ctx, s.pc[s.ctx.owner.value]) {
      MoverMoves(s, s.ctx.owner.value);
    } else {
      MoverMoves(s, s.ctx.waiters.value);
    }
  }

  /** While a thread sleeps, some thread can move, or the handler polls an empty pipe: then
      nothing is pending and no handle is being closed, so there is nothing to do but wait. */
  lemma SleeperWaitsForInput(r: seq<State>, i: nat, t: Tid)
    requires Run(r) && i < |r| && t in r[i].pc && r[i].pc[t] == Asleep
    ensures SomeoneMoves(r[i]) ||
      (exists u :: u in r[i].pc && r[i].pc[u] == Polling && !r[i].ctx.data.Pending() && r[i].ctx.data.pipe == 0)
  {
    var s := r[i];
    RunInv(r, i);
    var u :| u in s.pc && WillBroadcast(s.pc[u]);
    if !Waits(s.ctx, s.pc[u]) {
      MoverMoves(s, u);
    } else if Closing(s.pc[u]) {
      CloseMakesProgress(r, i, u);
    } else if s.pc[u] == Broadcast {
      MoverMoves(s, s.ctx.waiters.value);
    }
  }

  // ---------------------------------------------------------------- a surplus byte

  ghost predicate Ends(r: seq<State>, c: Context, p: Pc) {
    Run(r) && r[|r| - 1] == State(c, map[0 := p])
  }

  lemma Starts() returns (r: seq<State>)
    ensures Ends(r, STARTED, Idle)
  {
    r := [State(STARTED, map[0 := Idle])];
  }

  const STARTED := Context(Signals(0, true, [], [], 1), false, None, 0, None)

  lemma Extend(r: seq<State>, c: Context, p: Pc, c': Context, p': Pc) returns (r': seq<State>)
    requires Ends(r, c, p) && Step(State(c, map[0 := p]), State(c', map[0 := p']))
    ensures r' == r + [State(c', map[0 := p'])] && Ends(r', c', p')
  {
    r' := r + [State(c', map[0 := p'])];
    hide Step;
    forall i | 0 <= i < |r'| - 1
      ensures StepAt(r', i)
    {
      if i < |r| - 1 {
        SameStep(r, r', i);
      }
    }
  }

  lemma SameStep(r: seq<State>, r': seq<State>, i: nat)
    requires i < |r| - 1 && r <= r' && StepAt(r, i)
    ensures StepAt(r', i)
  {
  }

  lemma Alone(c: Context, p: Pc, c': Context, p': Pc)
    requires ThreadStep(0, c, p, c', p') && !Broadcasts(p)
    ensures Step(State(c, map[0 := p]), State(c', map[0 := p']))
  {
    hide ThreadStep;
    var s, s' := State(c, map[0 := p]), State(c', map[0 := p']);
    assert Moved(s.pc, 0, p') == s'.pc;
    assert Acts(s, s', 0, p');
  }

  lemma ByLock(r: seq<State>, c: Context, p: Pc, c': Context, p': Pc) returns (r': seq<State>)
    requires Ends(r, c, p) && LockStep(0, c, p, c', p') && !Broadcasts(p)
    ensures r' == r + [State(c', map[0 := p'])] && Ends(r', c', p')
  {
    hide HandlerStep, WaiterStep, CloserStep, LockStep, Step, Ends;
    Alone(c, p, c', p');
    r' := Extend(r, c, p, c', p');
  }

  lemma ByHandler(r: seq<State>, c: Context, p: Pc, c': Context, p': Pc) returns (r': seq<State>)
    requires Ends(r, c, p) && HandlerStep(c, p, c', p') && !Broadcasts(p)
    ensures r' == r + [State(c', map[0 := p'])] && Ends(r', c', p')
  {
    hide HandlerStep, WaiterStep, CloserStep, LockStep, Step, Ends;
    Alone(c, p, c', p');
    r' := Extend(r, c, p, c', p');
  }

  lemma ByCloser(r: seq<State>, c: Context, p: Pc, c': Context, p': Pc) returns (r': seq<State>)
    requires Ends(r, c, p) && CloserStep(0, c, p, c', p') && !Broadcasts(p)
    ensures r' == r + [State(c', map[0 := p'])] && Ends(r', c', p')
  {
    hide HandlerStep, WaiterStep, CloserStep, LockStep, Step, Ends;
    Alone(c, p, c', p');
    r' := Extend(r, c, p, c', p');
  }

  lemma ByProducer(r: seq<State>, c: Context, p: Pc, e: Producer) returns (r': seq<State>)
    requires Ends(r, c, p)
    ensures var c' := c.(data := Produced(c.data, e)); r' == r + [State(c', map[0 := p])] && Ends(r', c', p)
  {
    hide Ends;
    var c' := c.(data := Produced(c.data, e));
    assert Produces(State(c, map[0 := p]), State(c', map[0 := p]), e);
    r' := Extend(r, c, p, c', p);
  }

  /** One thread is polling and one completion is queued. */
  lemma PollingWithCompletion() returns (r: seq<State>)
    ensures Ends(r, Context(Signals(0, false, [], [7], 1), true, Some(0), 1, None), Polling)
  {
    hide Ends;
    var c1 := STARTED.(data := Signals(0, true, [], [7], 1));
    var c2 := c1.(owner := Some(0), depth := 1);
    var c3 := c2.(active := true);
    r := Starts();
    assert [] + [7] == [7];
    r := ByProducer(r, STARTED, Idle, Completion(7));
    r := ByLock(r, c1, Idle, c1, ReadClose);
    r := ByLock(r, c1, ReadClose, c1, TryLock);
    r := ByLock(r, c1, TryLock, c2, MarkActive);
    r := ByLock(r, c2, MarkActive, c3, Refresh);
    r := ByHandler(r, c3, Refresh, c3.(data := Signals(0, false, [], [7], 1)), Polling);
  }

  /** The handler runs the last completion of the queue. */
  lemma DrainingTheLast() returns (r: seq<State>)
    ensures Ends(r, Context(Signals(0, false, [], [], 1), true, Some(0), 1, None), Draining)
  {
    hide Ends;
    var c := Context(Signals(0, false, [], [7], 1), true, Some(0), 1, None);
    r := PollingWithCompletion();
    r := ByHandler(r, c, Polling, c, PipeReady);
    assert [7][1..] == [];
    r := ByHandler(r, c, PipeReady, c.(data := Signals(0, false, [], [], 1)), Draining);
  }

  /** The pipe is not exact in general: a completion queued while the handler runs the last
      one of the queue finds nothing pending and writes a second byte. */
  lemma SurplusByte() returns (r: seq<State>)
    ensures Run(r) && |r| > 1 && DrainGap(r[|r| - 2]) && r[|r| - 1].ctx.data.pipe == 2
  {
    r := DrainingTheLast();
    var c := Context(Signals(0, false, [], [], 1), true, Some(0), 1, None);
    assert r[|r| - 1].pc[0] == Draining;
    hide Run;
    r := ByProducer(r, c, Draining, Completion(8));
  }

  // ---------------------------------------------------------------- an inactive holder

  /** libusb_close holds events_lock while event_handler_active reads 0: after the nested unlock. */
  lemma HeldButInactive() returns (r: seq<State>)
    ensures Ends(r, Context(Signals(1, true, [], [], 1), false, Some(0), 2, None), InnerRelease)
  {
    hide Ends;
    var c1 := STARTED.(data := Signals(1, true, [], [], 1));
    var c2 := c1.(owner := Some(0), depth := 1);
    var c3 := c2.(active := true);
    var c4 := c3.(depth := 2);
    r := Starts();
    r := ByLock(r, STARTED, Idle, STARTED, CloseBegin);
    r := ByCloser(r, STARTED, CloseBegin, c1, CloseLock);
    r := ByCloser(r, c1, CloseLock, c2, CloseMark);
    r := ByCloser(r, c2, CloseMark, c3, InnerLock);
    r := ByCloser(r, c3, InnerLock, c4, InnerMark);
    r := ByCloser(r, c4, InnerMark, c4, InnerUnmark);
    r := ByCloser(r, c4, InnerUnmark, c4.(active := false), InnerRelease);
  }
}
