/** What the invariant of the transfer engine means for the application and the backend. */
module TransferTheorems {
  import opened FlyingList
  import opened Transfers
  import opened TransferInvariant

  /** IN_FLIGHT and COMPLETED are never both set, and IN_FLIGHT is never seen by a submitter at work. */
  lemma FlagsExclusive(r: seq<State>, i: nat, t: Tid)
    requires Run(r) && i < |r| && t in r[i].xfers
    ensures var x := r[i].xfers[t]; !(x.inFlight && x.completed) && (x.inFlight ==> !x.submitting && x.phase == Quiet)
  {
    RunInv(r, i);
  }

  /** The flying list holds each transfer at most once, ordered by deadline with "none" last
      and, for equal deadlines, by submission; and it holds exactly the submissions under way
      and the transfers at the backend, up to the completion just being recorded. */
  lemma FlyingInOrder(r: seq<State>, i: nat)
    requires Run(r) && i < |r|
    ensures Distinct(r[i].flying)
    ensures forall t :: t in r[i].flying ==> t in r[i].xfers
    ensures forall j, k :: 0 <= j < k < |r[i].flying| ==> Before(r[i].xfers[r[i].flying[j]], r[i].xfers[r[i].flying[k]])
    ensures forall t :: t in r[i].xfers ==> (t in r[i].flying <==> InList(r[i].engine, t, r[i].xfers[t]))
  {
    RunInv(r, i);
  }

  /** A transfer nobody is working on has had one callback for each submission that returned
      success, not counting the one in flight; so a failed submission has had none. */
  lemma ExactlyOnce(r: seq<State>, i: nat, t: Tid)
    requires Run(r) && i < |r| && t in r[i].xfers
    requires r[i].xfers[t].phase == Quiet && !Engaged(r[i].engine, t)
    ensures var x := r[i].xfers[t]; x.ok == x.callbacks + (if x.inFlight then 1 else 0)
    ensures r[i].xfers[t].inFlight <==> r[i].xfers[t].urb
  {
    RunInv(r, i);
  }

  /** At any time at most two callbacks are owed, that of a submission in flight and the one that is
      about to be made for the submission before, and at most one is ahead of its submission. */
  lemma FewOwed(r: seq<State>, i: nat, t: Tid)
    requires Run(r) && i < |r| && t in r[i].xfers
    ensures var x := r[i].xfers[t]; x.ok <= x.callbacks + 2 && x.callbacks <= x.ok + 1
    ensures var x := r[i].xfers[t]; x.callbacks > x.ok ==> x.phase == Accepted && x.completed
  {
    RunInv(r, i);
  }

  /** The reference count of a device is what its holders, its open handles and the
      submissions under way add up to. */
  lemma RefsConserved(r: seq<State>, i: nat, d: Device)
    requires Run(r) && i < |r| && d in r[i].refcnt
    ensures d in r[i].others
    ensures r[i].refcnt[d] == r[i].others[d] + |OpenOn(r[i], d)| + |HoldersOn(r[i], d)| + EngineOn(r[i], d)
  {
    RunInv(r, i);
  }

  /** A device whose count has reached zero is used by nobody, so destroying it is safe. */
  lemma DestroyedUnused(r: seq<State>, i: nat, d: Device)
    requires Run(r) && i < |r| && d in r[i].refcnt && r[i].refcnt[d] == 0
    ensures forall h :: h in r[i].dev ==> r[i].dev[h] != d
    ensures forall t :: t in r[i].xfers && Active(r[i].xfers[t]) ==>
      r[i].xfers[t].handle in r[i].dev && r[i].dev[r[i].xfers[t].handle] != d
  {
    RunInv(r, i);
    forall h | h in r[i].dev
      ensures r[i].dev[h] != d
    {
      assert OpenOn(r[i], d) == {};
      assert h !in OpenOn(r[i], d);
    }
  }

  // ---------------------------------------------------------------- disconnect

  /** When a disconnect is over, nothing of the handle is in flight, and whatever the backend
      has accepted is marked so that its submitter will undo it. */
  lemma AfterDisconnect(r: seq<State>, i: nat, h: Handle, t: Tid)
    requires Run(r) && i < |r| && h in r[i].gone && !Disconnecting(r[i].engine, h)
    requires t in r[i].xfers && r[i].xfers[t].handle == h
    ensures !r[i].xfers[t].inFlight
    ensures AtBackend(r[i].xfers[t]) ==> r[i].xfers[t].disappeared
  {
    RunInv(r, i);
  }

  /** At its last scan every listed transfer of the handle is marked and none is in flight. */
  lemma LastScanMarksAll(r: seq<State>, i: nat, t: Tid)
    requires Run(r) && i + 1 < |r| && EndsScan(r[i], r[i + 1])
    requires t in r[i].flying && t in r[i].xfers && r[i].xfers[t].handle == r[i].engine.h
    ensures r[i + 1].xfers[t].disappeared && !r[i + 1].xfers[t].inFlight
  {
    RunInv(r, i);
    var j :| 0 <= j < |r[i].flying| && r[i].flying[j] == t;
  }

  /** What the backend still has of a handle. */
  ghost function UrbsOf(s: State, h: Handle): set<Tid> {
    set t | t in s.xfers && s.xfers[t].urb && s.xfers[t].handle == h
  }

  lemma MoveUrbs(x: Xfer, t: Tid, e: Engine, gone: set<Handle>, m: Move, now: nat, h: Handle)
    requires XferOk(e, t, x, gone) && Enabled(m, x, e, gone) && h in gone
    ensures var x' := After(m, x, now); x'.urb && x'.handle == h ==> x.urb && x.handle == h
  {
  }

  lemma WorkUrbs(s: State, s': State, t: Tid, w: Work, h: Handle)
    requires t in s.xfers && XferOk(s.engine, t, s.xfers[t], s.gone) && Works(s, s', t, w)
    ensures UrbsOf(s', h) <= UrbsOf(s, h)
    ensures w == ClearPriv && s.engine.h == h ==> UrbsOf(s', h) < UrbsOf(s, h)
  {
    if w == ClearPriv && s.engine.h == h {
      assert t in UrbsOf(s, h) && t !in UrbsOf(s', h);
    }
  }

  lemma OtherUrbs(s: State, s': State, h: Handle)
    requires Drops(s, s') || Visits(s, s') || EndsScan(s, s') || (exists g :: Disconnects(s, s', g))
      || (exists c :: Calls(s, s', c))
    ensures UrbsOf(s', h) <= UrbsOf(s, h)
  {
    if g :| Disconnects(s, s', g) {
    } else if c :| Calls(s, s', c) {
      CallUrbs(s, s', c, h);
    } else if Visits(s, s') {
      VisitUrbs(s, s', h);
    }
  }

  lemma CallUrbs(s: State, s': State, c: Call, h: Handle)
    requires Calls(s, s', c)
    ensures UrbsOf(s', h) <= UrbsOf(s, h)
  {
  }

  lemma VisitUrbs(s: State, s': State, h: Handle)
    requires Visits(s, s')
    ensures UrbsOf(s', h) <= UrbsOf(s, h)
  {
  }

  /** Termination of the disconnect loop: once a handle is gone its transfers at the backend
      never become more ... */
  lemma GoneNeverGrows(s: State, s': State, h: Handle)
    requires XfersOk(s) && Step(s, s') && h in s.gone
    ensures UrbsOf(s', h) <= UrbsOf(s, h)
  {
    if t, m :| Moves(s, s', t, m) {
      MoveUrbs(s.xfers[t], t, s.engine, s.gone, m, s.clock, h);
    } else if t, w :| Works(s, s', t, w) {
      WorkUrbs(s, s', t, w, h);
    } else {
      OtherUrbs(s, s', h);
    }
  }

  /** ... and every turn of the loop, which claims one and takes it from the backend, leaves
      strictly fewer. */
  lemma ClaimShrinks(s: State, s': State, t: Tid)
    requires XfersOk(s) && s.engine.Claimed? && Works(s, s', t, ClearPriv)
    ensures UrbsOf(s', s.engine.h) < UrbsOf(s, s.engine.h)
  {
    WorkUrbs(s, s', t, ClearPriv, s.engine.h);
  }

  /** While a handle is being disconnected, what the event handler does leaves the transfers
      of the other handles as they are. */
  lemma OthersUntouched(s: State, s': State, h: Handle, u: Tid)
    requires Inv(s) && Disconnecting(s.engine, h) && u in s.xfers && s.xfers[u].handle != h && !Engaged(s.engine, u)
    requires Visits(s, s') || EndsScan(s, s') || Drops(s, s') || exists t, w :: Works(s, s', t, w)
    ensures u in s'.xfers && s'.xfers[u] == s.xfers[u] && (u in s.flying <==> u in s'.flying)
  {
    if t, w :| Works(s, s', t, w) {
      if w == Delist {
        WorkLists(t, s.xfers[t], s.engine, s.gone, w);
        WithoutMembers(s.flying, t);
      }
    }
  }

  // ---------------------------------------------------------------- NO_DEVICE exactly once

  predicate CallingOn(e: Engine, t: Tid) {
    e.Calling? && e.t == t
  }

  /** The callback this disconnect owes the transfer: still in flight, about to be made, or made. */
  predicate Owes(e: Engine, t: Tid, x: Xfer, h: Handle, lost: nat, callbacks: nat) {
    var due := (if x.handle == h && x.inFlight then 1 else 0) + (if CallingOn(e, t) then 1 else 0);
    && x.lost + due == lost + 1 && x.callbacks + due == callbacks + 1
    && (x.handle == h && AtBackend(x) ==> x.inFlight)
  }

  lemma MoveOwes(t: Tid, x: Xfer, e: Engine, gone: set<Handle>, m: Move, now: nat, h: Handle, lost: nat, callbacks: nat)
    requires XferOk(e, t, x, gone) && Enabled(m, x, e, gone) && h in gone && Owes(e, t, x, h, lost, callbacks)
    ensures Owes(e, t, After(m, x, now), h, lost, callbacks)
  {
  }

  lemma WorkOwes(t: Tid, x: Xfer, e: Engine, gone: set<Handle>, w: Work, h: Handle, u: Tid, y: Xfer, lost: nat,
      callbacks: nat)
    requires XferOk(e, t, x, gone) && Working(w, t, x, e, gone) && Disconnecting(e, h)
    requires Owes(e, u, y, h, lost, callbacks) && (u == t ==> y == x) && (Pulled(e, t) ==> x.handle == h)
    ensures Owes(NextEngine(w, t, x, e), u, if u == t then Worked(w, t, x, e) else y, h, lost, callbacks)
  {
  }

  lemma MovesOwes(s: State, s': State, t: Tid, m: Move, h: Handle, u: Tid, lost: nat, callbacks: nat)
    requires XfersOk(s) && Moves(s, s', t, m) && h in s.gone && u in s.xfers
    requires Owes(s.engine, u, s.xfers[u], h, lost, callbacks)
    ensures Owes(s'.engine, u, s'.xfers[u], h, lost, callbacks)
  {
    if t == u {
      MoveOwes(t, s.xfers[t], s.engine, s.gone, m, s.clock, h, lost, callbacks);
    }
  }

  lemma WorksOwes(s: State, s': State, t: Tid, w: Work, h: Handle, u: Tid, lost: nat, callbacks: nat)
    requires XfersOk(s) && Works(s, s', t, w) && Disconnecting(s.engine, h) && s.engine.h == h && u in s.xfers
    requires Owes(s.engine, u, s.xfers[u], h, lost, callbacks)
    ensures Owes(s'.engine, u, s'.xfers[u], h, lost, callbacks)
  {
    WorkOwes(t, s.xfers[t], s.engine, s.gone, w, h, u, s.xfers[u], lost, callbacks);
  }

  lemma StepOwes(s: State, s': State, h: Handle, u: Tid, lost: nat, callbacks: nat)
    requires XfersOk(s) && HandlesOk(s) && Step(s, s') && Disconnecting(s.engine, h) && u in s.xfers && u in s'.xfers
    requires Owes(s.engine, u, s.xfers[u], h, lost, callbacks)
    ensures Owes(s'.engine, u, s'.xfers[u], h, lost, callbacks)
  {
    DisconnectingGone(s, h);
    hide Moves, Works, Drops, Visits, EndsScan, Disconnects, Calls, Owes, XfersOk, HandlesOk, Disconnecting;
    if t, m :| Moves(s, s', t, m) {
      MovesOwes(s, s', t, m, h, u, lost, callbacks);
    } else if t, w :| Works(s, s', t, w) {
      WorksOwes(s, s', t, w, h, u, lost, callbacks);
    } else if Drops(s, s') {
      DropsOwes(s, s', h, u, lost, callbacks);
    } else if Visits(s, s') {
      VisitsOwes(s, s', h, u, lost, callbacks);
    } else if EndsScan(s, s') {
      EndsOwes(s, s', h, u, lost, callbacks);
    } else if c :| Calls(s, s', c) {
      CallsOwes(s, s', c, h, u, lost, callbacks);
    } else {
      var g :| Disconnects(s, s', g);
      BusyEngine(s, s', g, h);
    }
  }

  lemma DisconnectingGone(s: State, h: Handle)
    requires HandlesOk(s) && Disconnecting(s.engine, h)
    ensures h in s.gone
  {
  }

  lemma DropsOwes(s: State, s': State, h: Handle, u: Tid, lost: nat, callbacks: nat)
    requires Drops(s, s') && u in s.xfers && Owes(s.engine, u, s.xfers[u], h, lost, callbacks)
    ensures u in s'.xfers && Owes(s'.engine, u, s'.xfers[u], h, lost, callbacks)
  {
  }

  lemma VisitsOwes(s: State, s': State, h: Handle, u: Tid, lost: nat, callbacks: nat)
    requires Visits(s, s') && u in s.xfers && Owes(s.engine, u, s.xfers[u], h, lost, callbacks)
    ensures u in s'.xfers && Owes(s'.engine, u, s'.xfers[u], h, lost, callbacks)
  {
  }

  lemma EndsOwes(s: State, s': State, h: Handle, u: Tid, lost: nat, callbacks: nat)
    requires EndsScan(s, s') && u in s.xfers && Owes(s.engine, u, s.xfers[u], h, lost, callbacks)
    ensures u in s'.xfers && Owes(s'.engine, u, s'.xfers[u], h, lost, callbacks)
  {
  }

  lemma CallsOwes(s: State, s': State, c: Call, h: Handle, u: Tid, lost: nat, callbacks: nat)
    requires Calls(s, s', c) && u in s.xfers && u in s'.xfers && Owes(s.engine, u, s.xfers[u], h, lost, callbacks)
    ensures Owes(s'.engine, u, s'.xfers[u], h, lost, callbacks)
  {
    CallKeeps(s, s', c, u);
    hide Calls, Owes;
  }

  /** A call of the application changes no transfer that is there before and after it. */
  lemma CallKeeps(s: State, s': State, c: Call, u: Tid)
    requires Calls(s, s', c) && u in s.xfers && u in s'.xfers
    ensures s'.engine == s.engine && s'.xfers[u] == s.xfers[u] && s'.gone == s.gone
  {
  }

  lemma BusyEngine(s: State, s': State, g: Handle, h: Handle)
    requires Disconnects(s, s', g)
    ensures !Disconnecting(s.engine, h)
  {
  }

  ghost predicate DuringDisconnect(r: seq<State>, i: nat, j: nat, h: Handle, t: Tid) {
    && i < j < |r| && Disconnects(r[i], r[i + 1], h)
    && (forall k :: i < k < j ==> Disconnecting(r[k].engine, h))
    && (forall k :: i <= k <= j ==> t in r[k].xfers)
  }

  lemma BeginOwes(s: State, s': State, h: Handle, t: Tid)
    requires XfersOk(s) && Disconnects(s, s', h) && t in s.xfers && s.xfers[t].handle == h && s.xfers[t].inFlight
    ensures t in s'.xfers && Owes(s'.engine, t, s'.xfers[t], h, s.xfers[t].lost, s.xfers[t].callbacks)
  {
  }

  lemma RunOwes(r: seq<State>, k: nat, h: Handle, t: Tid, lost: nat, callbacks: nat)
    requires Run(r) && k + 1 < |r| && Disconnecting(r[k].engine, h) && t in r[k].xfers && t in r[k + 1].xfers
    requires Owes(r[k].engine, t, r[k].xfers[t], h, lost, callbacks)
    ensures Owes(r[k + 1].engine, t, r[k + 1].xfers[t], h, lost, callbacks)
  {
    RunInv(r, k);
    assert StepAt(r, k);
    StepOwes(r[k], r[k + 1], h, t, lost, callbacks);
  }

  lemma {:induction false} OwesThroughout(r: seq<State>, i: nat, j: nat, h: Handle, t: Tid)
    requires Run(r) && DuringDisconnect(r, i, j, h, t)
    requires r[i].xfers[t].handle == h && r[i].xfers[t].inFlight
    ensures Owes(r[j].engine, t, r[j].xfers[t], h, r[i].xfers[t].lost, r[i].xfers[t].callbacks)
  {
    if j == i + 1 {
      RunInv(r, i);
      BeginOwes(r[i], r[j], h, t);
    } else {
      OwesThroughout(r, i, j - 1, h, t);
      RunOwes(r, j - 1, h, t, r[i].xfers[t].lost, r[i].xfers[t].callbacks);
    }
  }

  lemma GoneStays(s: State, s': State, h: Handle)
    requires Step(s, s') && h in s.gone
    ensures h in s'.gone
  {
    hide Moves, Calls;
    if t, m :| Moves(s, s', t, m) {
      MovesEngine(s, s', t, m);
    } else if c :| Calls(s, s', c) {
      CallsEngine(s, s', c);
    }
  }

  lemma {:induction false} GoneForever(r: seq<State>, i: nat, j: nat, h: Handle)
    requires Run(r) && i < j < |r| && Disconnects(r[i], r[i + 1], h)
    ensures h in r[j].gone
  {
    if j > i + 1 {
      GoneForever(r, i, j - 1, h);
      assert StepAt(r, j - 1);
      GoneStays(r[j - 1], r[j], h);
    }
  }

  lemma EndsResting(s: State, s': State, h: Handle)
    requires HandlesOk(s) && Step(s, s') && Disconnecting(s.engine, h) && !Disconnecting(s'.engine, h)
    ensures s'.engine == Resting
  {
    hide Moves, Works, Drops, Visits, EndsScan, Disconnects, Calls, Disconnecting, HandlesOk;
    if t, m :| Moves(s, s', t, m) {
      MovesEngine(s, s', t, m);
    } else if t, w :| Works(s, s', t, w) {
      WorksEngine(s, s', t, w, h);
    } else if Drops(s, s') {
      DropsEngine(s, s', h);
    } else if Visits(s, s') {
      VisitsEngine(s, s', h);
    } else if EndsScan(s, s') {
      EndsEngine(s, s');
    } else if c :| Calls(s, s', c) {
      CallsEngine(s, s', c);
    } else {
      var g :| Disconnects(s, s', g);
      BusyEngine(s, s', g, h);
    }
  }

  lemma MovesEngine(s: State, s': State, t: Tid, m: Move)
    requires Moves(s, s', t, m)
    ensures s'.engine == s.engine && s'.gone == s.gone
  {
  }

  lemma CallsEngine(s: State, s': State, c: Call)
    requires Calls(s, s', c)
    ensures s'.engine == s.engine && s'.gone == s.gone
  {
  }

  lemma WorksEngine(s: State, s': State, t: Tid, w: Work, h: Handle)
    requires Works(s, s', t, w) && Disconnecting(s.engine, h)
    ensures Disconnecting(s'.engine, h)
    ensures !s'.engine.Claimed?
    ensures s.engine.Claimed? ==> w == ClearPriv && s.engine.h == h
  {
  }

  lemma DropsEngine(s: State, s': State, h: Handle)
    requires HandlesOk(s) && Drops(s, s') && Disconnecting(s.engine, h)
    ensures Disconnecting(s'.engine, h)
  {
  }

  lemma VisitsEngine(s: State, s': State, h: Handle)
    requires Visits(s, s') && Disconnecting(s.engine, h)
    ensures Disconnecting(s'.engine, h)
  {
  }

  lemma EndsEngine(s: State, s': State)
    requires EndsScan(s, s')
    ensures s'.engine == Resting
  {
  }

  lemma RunRests(r: seq<State>, k: nat, h: Handle)
    requires Run(r) && k + 1 < |r| && Disconnecting(r[k].engine, h) && !Disconnecting(r[k + 1].engine, h)
    ensures r[k + 1].engine == Resting
  {
    RunInv(r, k);
    assert StepAt(r, k);
    EndsResting(r[k], r[k + 1], h);
  }

  ghost predicate Disconnection(r: seq<State>, i: nat, j: nat, h: Handle) {
    && i < j < |r| && Disconnects(r[i], r[i + 1], h) && !Disconnecting(r[j].engine, h)
    && forall k :: i < k < j ==> Disconnecting(r[k].engine, h)
  }

  /** Up to j, state k is the last one with the transfer: it is freed after it, or k is j. */
  ghost predicate LastSeen(r: seq<State>, i: nat, j: nat, k: nat, t: Tid) {
    && i < k <= j < |r| && (forall l :: i <= l <= k ==> t in r[l].xfers)
    && (k == j || t !in r[k + 1].xfers)
  }

  ghost predicate LostOnce(r: seq<State>, i: nat, k: nat, t: Tid) {
    && i < |r| && k < |r| && t in r[i].xfers && t in r[k].xfers
    && r[k].xfers[t].lost == r[i].xfers[t].lost + 1 && r[k].xfers[t].callbacks == r[i].xfers[t].callbacks + 1
  }

  /** A transfer in flight when its device goes away has had exactly one callback by the end of the
      disconnect, or when it is freed before that, and the one was with NO_DEVICE. */
  lemma LostExactlyOnce(r: seq<State>, i: nat, j: nat, h: Handle, t: Tid)
    requires Run(r) && Disconnection(r, i, j, h)
    requires t in r[i].xfers && r[i].xfers[t].handle == h && r[i].xfers[t].inFlight
    ensures exists k :: LastSeen(r, i, j, k, t) && LostOnce(r, i, k, t)
  {
    hide Run, Disconnecting, LostOnce;
    var k := SeenLast(r, i, i + 1, j, t);
    assert t in r[i].xfers && DuringDisconnect(r, i, k, h, t);
    if k == j {
      LostAtEnd(r, i, j, h, t);
    } else {
      LostBeforeFree(r, i, k, h, t);
    }
  }

  lemma SeenLast(r: seq<State>, i: nat, k: nat, j: nat, t: Tid) returns (last: nat)
    requires i < k <= j < |r| && forall l :: i <= l <= k ==> t in r[l].xfers
    ensures LastSeen(r, i, j, last, t)
    decreases j - k
  {
    if k == j || t !in r[k + 1].xfers {
      last := k;
    } else {
      last := SeenLast(r, i, k + 1, j, t);
    }
  }

  lemma LostAtEnd(r: seq<State>, i: nat, j: nat, h: Handle, t: Tid)
    requires Run(r) && DuringDisconnect(r, i, j, h, t) && !Disconnecting(r[j].engine, h)
    requires r[i].xfers[t].handle == h && r[i].xfers[t].inFlight
    ensures LostOnce(r, i, j, t)
  {
    OwesThroughout(r, i, j, h, t);
    assert Disconnecting(r[i + 1].engine, h);
    RunRests(r, j - 1, h);
    GoneForever(r, i, j, h);
    if r[j].xfers[t].handle == h {
      AfterDisconnect(r, j, h, t);
    }
  }

  /** Only a transfer that owes no callback is freed. */
  lemma LostBeforeFree(r: seq<State>, i: nat, k: nat, h: Handle, t: Tid)
    requires Run(r) && k + 1 < |r| && DuringDisconnect(r, i, k, h, t) && t !in r[k + 1].xfers
    requires r[i].xfers[t].handle == h && r[i].xfers[t].inFlight
    ensures LostOnce(r, i, k, t)
  {
    OwesThroughout(r, i, k, h, t);
    assert StepAt(r, k);
    FreedWhenIdle(r[k], r[k + 1], t);
  }

  lemma FreedWhenIdle(s: State, s': State, t: Tid)
    requires Step(s, s') && t in s.xfers && t !in s'.xfers
    ensures !Active(s.xfers[t]) && !Engaged(s.engine, t)
  {
    hide Moves, Works, Visits, Calls;
    if c :| Calls(s, s', c) {
      FreesOne(s, s', c, t);
    } else if u, m :| Moves(s, s', u, m) {
      MovesKeep(s, s', u, m);
    } else if u, w :| Works(s, s', u, w) {
      WorksKeep(s, s', u, w);
    } else if Visits(s, s') {
      VisitsKeep(s, s');
    }
  }

  lemma FreesOne(s: State, s': State, c: Call, t: Tid)
    requires Calls(s, s', c) && t in s.xfers && t !in s'.xfers
    ensures !Active(s.xfers[t]) && !Engaged(s.engine, t)
  {
    assert c == Free(t);
  }

  // ---------------------------------------------------------------- how often a disconnect goes round

  /** A turn of the loop claims a transfer. */
  predicate Claims(s: State, s': State) {
    !s.engine.Claimed? && s'.engine.Claimed?
  }

  /** The claims of the steps from i up to j. */
  function ClaimCount(r: seq<State>, i: nat, j: nat): nat
    requires i <= j < |r|
  {
    if i == j then 0 else ClaimCount(r, i, j - 1) + if Claims(r[j - 1], r[j]) then 1 else 0
  }

  function Pending(e: Engine): nat {
    if e.Claimed? then 1 else 0
  }

  lemma ClaimHasUrb(s: State)
    requires XfersOk(s) && s.engine.Claimed?
    ensures s.engine.t in UrbsOf(s, s.engine.h) && |UrbsOf(s, s.engine.h)| >= 1
  {
    assert EngineOk(s.engine, s.engine.t, s.xfers[s.engine.t], s.gone);
    assert s.engine.t in UrbsOf(s, s.engine.h);
  }

  /** What a step adds to the claims is paid for by transfers at the backend. */
  lemma StepClaims(s: State, s': State, h: Handle)
    requires XfersOk(s) && HandlesOk(s) && Step(s, s') && Disconnecting(s.engine, h)
    ensures (if Claims(s, s') then 1 else 0) + |UrbsOf(s', h)| - Pending(s'.engine)
      <= |UrbsOf(s, h)| - Pending(s.engine)
  {
    DisconnectingGone(s, h);
    GoneNeverGrows(s, s', h);
    Fewer(UrbsOf(s', h), UrbsOf(s, h));
    hide Moves, Works, Drops, Visits, EndsScan, Disconnects, Calls, Disconnecting, HandlesOk, UrbsOf, XfersOk;
    if s.engine.Claimed? && !s'.engine.Claimed? {
      ClaimEnds(s, s', h);
    }
  }

  lemma Fewer(a: set<Tid>, b: set<Tid>)
    requires a <= b
    ensures |a| <= |b| && (a != b ==> |a| < |b|)
  {
    assert b == a + (b - a);
    if a != b {
      assert b - a != {};
    }
  }

  lemma ClaimEnds(s: State, s': State, h: Handle)
    requires XfersOk(s) && HandlesOk(s) && Step(s, s') && Disconnecting(s.engine, h) && s.engine.Claimed?
      && !s'.engine.Claimed?
    ensures |UrbsOf(s', h)| < |UrbsOf(s, h)|
  {
    hide Moves, Works, Drops, Visits, EndsScan, Disconnects, Calls, Disconnecting, HandlesOk, UrbsOf, XfersOk;
    if t, m :| Moves(s, s', t, m) {
      MovesEngine(s, s', t, m);
    } else if t, w :| Works(s, s', t, w) {
      WorksEngine(s, s', t, w, h);
      ClaimShrinks(s, s', t);
      Fewer(UrbsOf(s', h), UrbsOf(s, h));
    } else if c :| Calls(s, s', c) {
      CallsEngine(s, s', c);
    } else {
      NotClaimed(s, s');
    }
  }

  lemma NotClaimed(s: State, s': State)
    requires Drops(s, s') || Visits(s, s') || EndsScan(s, s') || exists h :: Disconnects(s, s', h)
    ensures !s.engine.Claimed?
  {
  }

  lemma ClaimedFor(s: State, s': State, h: Handle)
    requires HandlesOk(s) && Step(s, s') && Disconnecting(s.engine, h) && s'.engine.Claimed?
    ensures s'.engine.h == h
  {
    hide Step, HandlesOk;
    if !Disconnecting(s'.engine, h) {
      EndsResting(s, s', h);
    }
  }

  /** A disconnect claims at most as many transfers as the backend held when it began. */
  lemma {:induction false} ClaimsBounded(r: seq<State>, i: nat, j: nat, h: Handle)
    requires Run(r) && i < j < |r| && Disconnects(r[i], r[i + 1], h)
    requires forall k :: i < k < j ==> Disconnecting(r[k].engine, h)
    ensures ClaimCount(r, i, j) + |UrbsOf(r[j], h)| - Pending(r[j].engine) <= |UrbsOf(r[i], h)|
    ensures ClaimCount(r, i, j) <= |UrbsOf(r[i], h)|
    decreases j
  {
    hide Step, UrbsOf, Disconnecting;
    if j == i + 1 {
      FirstTurn(r[i], r[j], h);
      assert ClaimCount(r, i, i) == 0;
    } else {
      ClaimsBounded(r, i, j - 1, h);
      RunInv(r, j - 1);
      assert StepAt(r, j - 1);
      StepClaims(r[j - 1], r[j], h);
      if r[j].engine.Claimed? {
        RunInv(r, j);
        ClaimedFor(r[j - 1], r[j], h);
        ClaimHasUrb(r[j]);
      }
    }
  }

  lemma FirstTurn(s: State, s': State, h: Handle)
    requires Disconnects(s, s', h)
    ensures UrbsOf(s', h) == UrbsOf(s, h) && !Claims(s, s') && !s'.engine.Claimed?
  {
  }
}
