/** What holds in every reachable state of the transfer engine. */
module TransferInvariant {
  import opened TimeValues
  import opened FlyingList
  import opened Options
  import opened Transfers

  /** The backend has accepted the transfer and its completion has not been recorded. */
  predicate AtBackend(x: Xfer) {
    (x.phase == Accepted && !x.completed) || (x.phase == Quiet && x.inFlight)
  }

  /** usbi_handle_transfer_completion has taken it off the list and not updated its flags yet. */
  predicate Pulled(e: Engine, t: Tid) {
    e.Flagging? && e.t == t
  }

  predicate Seized(e: Engine, t: Tid) {
    (e.Claimed? || e.Clearing?) && e.t == t
  }

  /** The submission of this transfer owns a device reference. */
  predicate Holds(x: Xfer) {
    x.phase == Reffed || x.phase == Refused || x.phase == Unwinding || AtBackend(x)
  }

  predicate InList(e: Engine, t: Tid, x: Xfer) {
    match x.phase
    case Listed | Reffed | Refused | Unwinding | Unlisting => true
    case Marked => false
    case Accepted | Quiet => AtBackend(x) && !Pulled(e, t)
  }

  /** A disconnect of this handle is under way. */
  predicate Disconnecting(e: Engine, h: Handle) {
    match e
    case Scanning(g, _) => g == h
    case Claimed(g, _) => g == h
    case Clearing(g, _) => g == h
    case Flagging(_, _, n) => n == Some(h)
    case Calling(_, _, n) => n == Some(h)
    case Dropping(_, n) => n == Some(h)
    case Resting => false
  }

  /** Nothing of the backend's can come back for it: the submitter will undo it. */
  predicate Settled(x: Xfer) {
    AtBackend(x) ==> x.phase == Accepted && x.disappeared
  }

  predicate FlagsOk(x: Xfer) {
    && !(x.inFlight && x.completed)
    && (x.inFlight ==> x.phase == Quiet)
    && (x.completed ==> x.phase == Quiet || x.phase == Accepted)
    && (x.submitting <==> x.phase in {Marked, Listed, Reffed, Accepted, Refused})
    && x.deadline.Valid()
  }

  /** The transfer and the event handler agree on who has it. */
  predicate EngineOk(e: Engine, t: Tid, x: Xfer, gone: set<Handle>) {
    && (x.urb <==> AtBackend(x) && !Pulled(e, t) && !(e.Clearing? && e.t == t))
    && (Seized(e, t) ==> x.inFlight && x.handle == e.h)
    && (Pulled(e, t) ==>
        AtBackend(x) && x.handle == e.h && (if e.next.Some? then x.phase == Quiet else x.handle !in gone))
    && (x.phase != Quiet && x.disappeared ==> x.handle in gone && !x.completed)
    && (x.handle in gone && !Disconnecting(e, x.handle) ==> Settled(x))
  }

  /** Successful submissions and callbacks: they differ by what is still in flight, by a
      callback about to be made, and by a completion that overtook its submission. */
  predicate Accounts(e: Engine, t: Tid, x: Xfer) {
    x.callbacks + (if x.phase == Quiet && x.inFlight then 1 else 0) + (if e.Calling? && e.t == t then 1 else 0)
    == x.ok + (if x.phase == Accepted && x.completed then 1 else 0)
  }

  predicate XferOk(e: Engine, t: Tid, x: Xfer, gone: set<Handle>) {
    FlagsOk(x) && EngineOk(e, t, x, gone) && Accounts(e, t, x)
  }

  /** The handle whose device reference the event handler will drop. */
  predicate EngineHolds(e: Engine) {
    e.Calling? || e.Dropping?
  }

  // ---------------------------------------------------------------- one transfer moves

  lemma MoveOk(t: Tid, x: Xfer, e: Engine, gone: set<Handle>, m: Move, now: nat)
    requires XferOk(e, t, x, gone) && Enabled(m, x, e, gone)
    ensures XferOk(e, t, After(m, x, now), gone)
  {
  }

  /** The list and the reference count follow the move. */
  lemma MoveLists(t: Tid, x: Xfer, e: Engine, gone: set<Handle>, m: Move, now: nat)
    requires XferOk(e, t, x, gone) && Enabled(m, x, e, gone)
    ensures var x' := After(m, x, now);
      && (InList(e, t, x') <==> (InList(e, t, x) || m.Enlist?) && !m.Unlist?)
      && (m.Enlist? ==> !InList(e, t, x)) && (m.Unlist? ==> InList(e, t, x))
      && (Holds(x') <==> (Holds(x) || m.Ref?) && !m.Unref?)
      && (m.Ref? ==> !Holds(x)) && (m.Unref? ==> Holds(x))
      && (Holds(x) || Holds(x') ==> x'.handle == x.handle)
      && (InList(e, t, x) ==> x'.deadline == x.deadline && x'.stamp == x.stamp && x'.handle == x.handle)
  {
  }

  lemma WorkOk(t: Tid, x: Xfer, e: Engine, gone: set<Handle>, w: Work)
    requires XferOk(e, t, x, gone) && Working(w, t, x, e, gone)
    ensures XferOk(NextEngine(w, t, x, e), t, Worked(w, t, x, e), gone)
  {
  }

  lemma WorkLists(t: Tid, x: Xfer, e: Engine, gone: set<Handle>, w: Work)
    requires XferOk(e, t, x, gone) && Working(w, t, x, e, gone)
    ensures var x', e' := Worked(w, t, x, e), NextEngine(w, t, x, e);
      && (InList(e', t, x') <==> InList(e, t, x) && w != Reap && w != Delist)
      && (w == Reap || w == Delist ==> InList(e, t, x))
      && (Holds(x') <==> Holds(x) && w != Complete)
      && (w == Complete ==> Holds(x) && e'.h == x.handle)
      && (EngineHolds(e') <==> EngineHolds(e) || w == Complete)
      && (w == Complete ==> !EngineHolds(e))
      && (EngineHolds(e) ==> e'.h == e.h)
      && x'.deadline == x.deadline && x'.stamp == x.stamp && x'.handle == x.handle
  {
  }

  /** To every other transfer the event handler looks the same, unless it was resting. */
  lemma WorkOthers(t: Tid, x: Xfer, e: Engine, gone: set<Handle>, w: Work, u: Tid, y: Xfer)
    requires XferOk(e, t, x, gone) && Working(w, t, x, e, gone) && XferOk(e, u, y, gone) && u != t
    ensures var e' := NextEngine(w, t, x, e); XferOk(e', u, y, gone) && (InList(e', u, y) <==> InList(e, u, y))
  {
  }

  /** A scan step on one transfer of the disconnected handle. */
  lemma VisitOk(t: Tid, x: Xfer, e: Engine, gone: set<Handle>)
    requires XferOk(e, t, x, gone) && e.Scanning? && x.handle == e.h && e.h in gone && InList(e, t, x)
    ensures x.inFlight ==> XferOk(Claimed(e.h, t), t, x, gone) && InList(Claimed(e.h, t), t, x)
    ensures !x.inFlight ==> var x', e' := x.(disappeared := true), Scanning(e.h, e.i + 1);
      XferOk(e', t, x', gone) && InList(e', t, x') && Holds(x') == Holds(x)
  {
  }

  // ---------------------------------------------------------------- the whole system

  /** Strict list order: by deadline with "none" last, then by when it was listed. */
  predicate Before(a: Xfer, b: Xfer) {
    !Later(a.deadline, b.deadline) && (Later(b.deadline, a.deadline) || a.stamp < b.stamp)
  }

  ghost predicate XfersOk(s: State) {
    && (forall t :: t in s.xfers ==> XferOk(s.engine, t, s.xfers[t], s.gone))
    && (forall t :: Engaged(s.engine, t) ==> t in s.xfers)
  }

  ghost predicate ListOk(s: State) {
    && Distinct(s.flying)
    && (forall t :: t in s.flying ==> t in s.xfers && s.xfers[t].stamp < s.clock)
    && (forall t :: t in s.xfers ==> (t in s.flying <==> InList(s.engine, t, s.xfers[t])))
    && (forall i, j :: 0 <= i < j < |s.flying| ==> Before(s.xfers[s.flying[i]], s.xfers[s.flying[j]]))
  }

  ghost predicate HandlesOk(s: State) {
    && (forall t :: t in s.xfers && Active(s.xfers[t]) ==> s.xfers[t].handle in s.dev)
    && (!s.engine.Resting? ==> s.engine.h in s.dev)
    && (forall h :: Disconnecting(s.engine, h) ==> h in s.gone && h == s.engine.h)
    && (forall h :: h in s.dev ==> s.dev[h] in s.refcnt)
  }

  /** Every transfer of the handle that the scan has passed is marked and not in flight. */
  ghost predicate ScanOk(s: State) {
    s.engine.Scanning? ==>
      && s.engine.i <= |s.flying|
      && forall j :: 0 <= j < s.engine.i && s.flying[j] in s.xfers && s.xfers[s.flying[j]].handle == s.engine.h ==>
           s.xfers[s.flying[j]].disappeared && !s.xfers[s.flying[j]].inFlight
  }

  ghost function OpenOn(s: State, d: Device): set<Handle> {
    set h | h in s.dev && s.dev[h] == d
  }

  ghost function HoldersOn(s: State, d: Device): set<Tid> {
    set t | t in s.xfers && Holds(s.xfers[t]) && s.xfers[t].handle in s.dev && s.dev[s.xfers[t].handle] == d
  }

  ghost function EngineOn(s: State, d: Device): nat {
    if EngineHolds(s.engine) && s.engine.h in s.dev && s.dev[s.engine.h] == d then 1 else 0
  }

  /** A device has a reference from each other holder, each open handle and each submission. */
  ghost predicate RefsOk(s: State) {
    && s.refcnt.Keys == s.others.Keys
    && forall d :: d in s.refcnt ==>
         s.refcnt[d] == s.others[d] + |OpenOn(s, d)| + |HoldersOn(s, d)| + EngineOn(s, d)
  }

  ghost predicate Inv(s: State) {
    XfersOk(s) && ListOk(s) && HandlesOk(s) && ScanOk(s) && RefsOk(s)
  }

  // ---------------------------------------------------------------- list operations

  lemma {:induction false} WithoutAt(s: seq<Tid>, t: Tid) returns (i: nat)
    requires t in s
    ensures i < |s| && s[i] == t && Without(s, t) == s[..i] + s[i + 1..]
  {
    if s[0] == t {
      i := 0;
    } else {
      i := WithoutAt(s[1..], t);
      i := i + 1;
    }
  }

  ghost predicate InOrder(list: seq<Tid>, xfers: map<Tid, Xfer>) {
    && (forall t :: t in list ==> t in xfers)
    && (forall i, j :: 0 <= i < j < |list| ==> Before(xfers[list[i]], xfers[list[j]]))
  }

  lemma WithoutMembers(list: seq<Tid>, t: Tid)
    requires Distinct(list) && t in list
    ensures Distinct(Without(list, t))
    ensures forall u :: u in Without(list, t) <==> u in list && u != t
  {
    var i := WithoutAt(list, t);
    var r := Without(list, t);
    forall u | u in list && u != t
      ensures u in r
    {
      var j :| 0 <= j < |list| && list[j] == u;
      assert r[if j < i then j else j - 1] == u;
    }
  }

  lemma WithoutOrder(list: seq<Tid>, t: Tid, xfers: map<Tid, Xfer>)
    requires InOrder(list, xfers) && t in list
    ensures InOrder(Without(list, t), xfers)
  {
    var i := WithoutAt(list, t);
    var r := Without(list, t);
    forall j, k | 0 <= j < k < |r|
      ensures Before(xfers[r[j]], xfers[r[k]])
    {
      var j', k' := if j < i then j else j + 1, if k < i then k else k + 1;
      assert r[j] == list[j'] && r[k] == list[k'] && j' < k';
    }
  }

  /** Only deadline and stamp of the listed transfers matter for the order. */
  lemma SameOrder(list: seq<Tid>, xfers: map<Tid, Xfer>, xfers': map<Tid, Xfer>)
    requires InOrder(list, xfers)
    requires forall t :: t in list ==>
      t in xfers' && xfers'[t].deadline == xfers[t].deadline && xfers'[t].stamp == xfers[t].stamp
    ensures InOrder(list, xfers')
  {
  }

  lemma InsertOrder(list: seq<Tid>, t: Tid, xfers: map<Tid, Xfer>, d: seq<Timeval>)
    requires Distinct(list) && InOrder(list, xfers) && t !in list && t in xfers
    requires |d| == |list| && forall i :: 0 <= i < |d| ==> d[i] == xfers[list[i]].deadline
    requires forall u :: u in list ==> xfers[u].stamp < xfers[t].stamp
    ensures var r := Insert(list, Place(d, xfers[t].deadline), t);
      Distinct(r) && InOrder(r, xfers) && forall u :: u in r <==> u in list || u == t
  {
    var k := Place(d, xfers[t].deadline);
    InsertDistinct(list, k, t);
    assert Sorted(d);
    PlaceKeepsOrder(d, xfers[t].deadline);
    InsertBefore(list, t, xfers, k);
  }

  /** Behind everything that is not later, and before everything that is. */
  lemma InsertBefore(list: seq<Tid>, t: Tid, xfers: map<Tid, Xfer>, k: nat)
    requires InOrder(list, xfers) && t in xfers && k <= |list|
    requires forall j :: 0 <= j < |list| ==> (j < k <==> !Later(xfers[list[j]].deadline, xfers[t].deadline))
    requires forall u :: u in list ==> xfers[u].stamp < xfers[t].stamp
    ensures InOrder(Insert(list, k, t), xfers)
  {
    var r := Insert(list, k, t);
    forall j | 0 <= j < |list|
      ensures if j < k then Before(xfers[list[j]], xfers[t]) else Before(xfers[t], xfers[list[j]])
    {
      assert xfers[list[j]].stamp < xfers[t].stamp;
    }
    hide Before, Later;
    assert forall i :: 0 <= i < |r| ==> r[i] == if i < k then list[i] else if i == k then t else list[i - 1];
  }

  // ---------------------------------------------------------------- reference counting

  /** The holders of references on a device follow one transfer. */
  lemma HolderCount(s: State, s': State, t: Tid, d: Device)
    requires t in s.xfers && s'.xfers.Keys == s.xfers.Keys && s'.dev == s.dev
    requires forall u :: u in s.xfers && u != t ==> s'.xfers[u] == s.xfers[u]
    ensures |HoldersOn(s', d)| + (if t in HoldersOn(s, d) then 1 else 0)
         == |HoldersOn(s, d)| + (if t in HoldersOn(s', d) then 1 else 0)
  {
    var rest := HoldersOn(s, d) - {t};
    hide Holds;
    assert HoldersOn(s, d) == if t in HoldersOn(s, d) then rest + {t} else rest;
    assert HoldersOn(s', d) == if t in HoldersOn(s', d) then rest + {t} else rest;
  }

  // ---------------------------------------------------------------- moves

  lemma MoveXfers(s: State, s': State, t: Tid, m: Move)
    requires Inv(s) && Moves(s, s', t, m)
    ensures XfersOk(s') && HandlesOk(s')
  {
    MoveOk(t, s.xfers[t], s.engine, s.gone, m, s.clock);
  }

  lemma EnlistList(s: State, s': State, t: Tid)
    requires XfersOk(s) && ListOk(s) && Moves(s, s', t, Enlist)
    ensures ListOk(s')
  {
    MoveLists(t, s.xfers[t], s.engine, s.gone, Enlist, s.clock);
    SameOrder(s.flying, s.xfers, s'.xfers);
    InsertOrder(s.flying, t, s'.xfers, DeadlinesOf(s));
  }

  lemma UnlistList(s: State, s': State, t: Tid)
    requires XfersOk(s) && ListOk(s) && Moves(s, s', t, Unlist)
    ensures ListOk(s')
  {
    MoveLists(t, s.xfers[t], s.engine, s.gone, Unlist, s.clock);
    SameOrder(s.flying, s.xfers, s'.xfers);
    WithoutMembers(s.flying, t);
    WithoutOrder(s.flying, t, s'.xfers);
  }

  lemma MoveList(s: State, s': State, t: Tid, m: Move)
    requires XfersOk(s) && ListOk(s) && Moves(s, s', t, m)
    ensures ListOk(s')
  {
    if m.Enlist? {
      EnlistList(s, s', t);
    } else if m.Unlist? {
      UnlistList(s, s', t);
    } else {
      MoveLists(t, s.xfers[t], s.engine, s.gone, m, s.clock);
      SameOrder(s.flying, s.xfers, s'.xfers);
    }
  }

  lemma MoveKeepsMark(t: Tid, x: Xfer, e: Engine, gone: set<Handle>, m: Move, now: nat)
    requires XferOk(e, t, x, gone) && Enabled(m, x, e, gone)
    requires InList(e, t, x) && x.handle in gone && x.disappeared && !x.inFlight
    ensures var x' := After(m, x, now); x'.disappeared && !x'.inFlight
  {
  }

  lemma MoveScan(s: State, s': State, t: Tid, m: Move)
    requires Inv(s) && Moves(s, s', t, m)
    ensures ScanOk(s')
  {
    if s.engine.Scanning? {
      var x := s.xfers[t];
      assert Disconnecting(s.engine, s.engine.h);
      MoveLists(t, x, s.engine, s.gone, m, s.clock);
      if InList(s.engine, t, x) && x.handle in s.gone && x.disappeared && !x.inFlight {
        MoveKeepsMark(t, x, s.engine, s.gone, m, s.clock);
      }
    }
  }

  /** The count of one device when one transfer starts or stops holding its reference. */
  lemma HeldBy(s: State, s': State, t: Tid, d: Device)
    requires t in s.xfers && s'.xfers.Keys == s.xfers.Keys && s'.dev == s.dev
    requires forall u :: u in s.xfers && u != t ==> s'.xfers[u] == s.xfers[u]
    requires Holds(s.xfers[t]) || Holds(s'.xfers[t]) ==>
      s'.xfers[t].handle == s.xfers[t].handle && s.xfers[t].handle in s.dev
    ensures |HoldersOn(s', d)| == |HoldersOn(s, d)| +
      (if Holds(s.xfers[t]) == Holds(s'.xfers[t]) || s.dev[s.xfers[t].handle] != d then 0
       else if Holds(s'.xfers[t]) then 1 else -1)
  {
    HolderCount(s, s', t, d);
  }

  function Bit(b: bool): int {
    if b then 1 else 0
  }

  /** Reference counting is right when the device of one transfer gains or loses what the
      transfer and the event handler together gain or lose. */
  lemma RefsFollow(s: State, s': State, t: Tid, n: int)
    requires RefsOk(s) && t in s.xfers && s'.xfers.Keys == s.xfers.Keys && s'.dev == s.dev && s'.others == s.others
    requires forall u :: u in s.xfers && u != t ==> s'.xfers[u] == s.xfers[u]
    requires forall h :: h in s.dev ==> s.dev[h] in s.refcnt
    requires Holds(s.xfers[t]) || Holds(s'.xfers[t]) ==>
      s'.xfers[t].handle == s.xfers[t].handle && s.xfers[t].handle in s.dev
    requires s'.refcnt == if n == 0 then s.refcnt else Counted(s, s.xfers[t].handle, n)
    requires s'.engine.Resting? || s.engine.Resting? || s'.engine.h == s.engine.h
    requires EngineHolds(s'.engine) == EngineHolds(s.engine) && n == Bit(Holds(s'.xfers[t])) - Bit(Holds(s.xfers[t]))
    ensures RefsOk(s')
  {
    forall d | d in s'.refcnt
      ensures s'.refcnt[d] == s'.others[d] + |OpenOn(s', d)| + |HoldersOn(s', d)| + EngineOn(s', d)
    {
      HeldBy(s, s', t, d);
      assert OpenOn(s', d) == OpenOn(s, d);
    }
  }

  lemma MoveRefs(s: State, s': State, t: Tid, m: Move)
    requires t in s.xfers && XferOk(s.engine, t, s.xfers[t], s.gone)
    requires HandlesOk(s) && RefsOk(s) && Moves(s, s', t, m)
    ensures RefsOk(s')
  {
    MoveLists(t, s.xfers[t], s.engine, s.gone, m, s.clock);
    RefsFollow(s, s', t, if m.Ref? then 1 else if m.Unref? then -1 else 0);
  }

  // ---------------------------------------------------------------- the event handler

  lemma WorkXfers(s: State, s': State, t: Tid, w: Work)
    requires XfersOk(s) && Works(s, s', t, w)
    ensures XfersOk(s')
  {
    WorkOk(t, s.xfers[t], s.engine, s.gone, w);
    forall u | u in s'.xfers && u != t
      ensures XferOk(s'.engine, u, s'.xfers[u], s'.gone)
    {
      WorkOthers(t, s.xfers[t], s.engine, s.gone, w, u, s.xfers[u]);
    }
  }

  lemma WorkList(s: State, s': State, t: Tid, w: Work)
    requires XfersOk(s) && ListOk(s) && Works(s, s', t, w)
    ensures ListOk(s') && ScanOk(s')
  {
    WorkLists(t, s.xfers[t], s.engine, s.gone, w);
    forall u | u in s.xfers && u != t
      ensures InList(s'.engine, u, s'.xfers[u]) == InList(s.engine, u, s.xfers[u])
    {
      WorkOthers(t, s.xfers[t], s.engine, s.gone, w, u, s.xfers[u]);
    }
    SameOrder(s.flying, s.xfers, s'.xfers);
    if w == Reap || w == Delist {
      WithoutMembers(s.flying, t);
      WithoutOrder(s.flying, t, s'.xfers);
    }
  }

  lemma WorkEngine(t: Tid, x: Xfer, e: Engine, gone: set<Handle>, w: Work, h: Handle)
    requires XferOk(e, t, x, gone) && Working(w, t, x, e, gone)
    requires Disconnecting(NextEngine(w, t, x, e), h) && (Disconnecting(e, h) ==> h == e.h)
    ensures Disconnecting(e, h) && h == NextEngine(w, t, x, e).h
  {
  }

  lemma WorkHandles(s: State, s': State, t: Tid, w: Work)
    requires XfersOk(s) && HandlesOk(s) && Works(s, s', t, w)
    ensures HandlesOk(s')
  {
    WorkLists(t, s.xfers[t], s.engine, s.gone, w);
    forall h | Disconnecting(s'.engine, h)
      ensures Disconnecting(s.engine, h) && h == s'.engine.h
    {
      WorkEngine(t, s.xfers[t], s.engine, s.gone, w, h);
    }
  }

  lemma WorkRefs(s: State, s': State, t: Tid, w: Work)
    requires XfersOk(s) && HandlesOk(s) && RefsOk(s) && Works(s, s', t, w)
    ensures RefsOk(s')
  {
    if w == Complete {
      CompleteRefs(s, s', t);
    } else {
      WorkLists(t, s.xfers[t], s.engine, s.gone, w);
      RefsFollow(s, s', t, 0);
    }
  }

  /** The event handler takes over the reference of a transfer that completes. */
  lemma CompleteRefs(s: State, s': State, t: Tid)
    requires XfersOk(s) && HandlesOk(s) && RefsOk(s) && Works(s, s', t, Complete)
    ensures RefsOk(s')
  {
    WorkLists(t, s.xfers[t], s.engine, s.gone, Complete);
    forall d | d in s'.refcnt
      ensures s'.refcnt[d] == s'.others[d] + |OpenOn(s', d)| + |HoldersOn(s', d)| + EngineOn(s', d)
    {
      HeldBy(s, s', t, d);
      assert OpenOn(s', d) == OpenOn(s, d);
    }
  }

  /** Steps of the event handler between two completions: no transfer is off the list unflagged. */
  predicate Between(e: Engine) {
    e.Resting? || e.Scanning? || e.Claimed? || e.Dropping?
  }

  lemma SameRefs(s: State, s': State)
    requires RefsOk(s) && s'.dev == s.dev && s'.refcnt == s.refcnt && s'.others == s.others
    requires EngineHolds(s'.engine) == EngineHolds(s.engine) && (EngineHolds(s.engine) ==> s'.engine.h == s.engine.h)
    requires s'.xfers.Keys == s.xfers.Keys
    requires forall t :: t in s.xfers ==>
      Holds(s'.xfers[t]) == Holds(s.xfers[t]) && s'.xfers[t].handle == s.xfers[t].handle
    ensures RefsOk(s')
  {
    forall d | d in s'.refcnt
      ensures OpenOn(s', d) == OpenOn(s, d) && HoldersOn(s', d) == HoldersOn(s, d)
    {
    }
  }

  lemma SameList(s: State, s': State)
    requires ListOk(s) && s'.xfers == s.xfers && s'.flying == s.flying && s'.clock == s.clock
    requires Between(s.engine) && Between(s'.engine)
    ensures ListOk(s')
  {
  }

  lemma DropXfers(s: State, s': State)
    requires XfersOk(s) && HandlesOk(s) && Drops(s, s')
    ensures XfersOk(s') && HandlesOk(s') && ScanOk(s')
  {
    assert forall h :: Disconnecting(s'.engine, h) <==> Disconnecting(s.engine, h);
    assert s.engine.next.Some? ==> Disconnecting(s.engine, s.engine.next.value);
  }

  lemma DropRefs(s: State, s': State)
    requires HandlesOk(s) && RefsOk(s) && Drops(s, s')
    ensures RefsOk(s')
  {
    forall d | d in s'.refcnt
      ensures s'.refcnt[d] == s'.others[d] + |OpenOn(s', d)| + |HoldersOn(s', d)| + EngineOn(s', d)
    {
      assert OpenOn(s', d) == OpenOn(s, d) && HoldersOn(s', d) == HoldersOn(s, d);
    }
  }

  lemma DropInv(s: State, s': State)
    requires Inv(s) && Drops(s, s')
    ensures Inv(s')
  {
    DropXfers(s, s');
    DropRefs(s, s');
    SameList(s, s');
  }

  lemma DisconnectXfers(s: State, s': State, h: Handle)
    requires XfersOk(s) && HandlesOk(s) && Disconnects(s, s', h)
    ensures XfersOk(s') && HandlesOk(s') && ScanOk(s')
  {
  }

  lemma DisconnectInv(s: State, s': State, h: Handle)
    requires Inv(s) && Disconnects(s, s', h)
    ensures Inv(s')
  {
    DisconnectXfers(s, s', h);
    SameRefs(s, s');
    SameList(s, s');
  }

  /** After the last entry every transfer of the handle at the backend has been marked. */
  lemma EndScanXfers(s: State, s': State)
    requires XfersOk(s) && ListOk(s) && HandlesOk(s) && ScanOk(s) && EndsScan(s, s')
    ensures XfersOk(s') && HandlesOk(s') && ScanOk(s')
  {
    forall t | t in s.xfers
      ensures XferOk(s'.engine, t, s.xfers[t], s.gone)
    {
      if s.xfers[t].handle == s.engine.h && AtBackend(s.xfers[t]) {
        var j :| 0 <= j < |s.flying| && s.flying[j] == t;
      }
    }
  }

  lemma EndScanInv(s: State, s': State)
    requires Inv(s) && EndsScan(s, s')
    ensures Inv(s')
  {
    EndScanXfers(s, s');
    SameRefs(s, s');
    SameList(s, s');
  }

  lemma VisitXfers(s: State, s': State)
    requires XfersOk(s) && ListOk(s) && Visits(s, s') && s.engine.h in s.gone
    ensures XfersOk(s')
  {
    var t := s.flying[s.engine.i];
    if s.xfers[t].handle == s.engine.h {
      VisitOk(t, s.xfers[t], s.engine, s.gone);
    }
  }

  lemma VisitHandles(s: State, s': State)
    requires HandlesOk(s) && Visits(s, s')
    ensures HandlesOk(s')
  {
    assert Disconnecting(s.engine, s.engine.h);
    assert forall h :: Disconnecting(s'.engine, h) <==> Disconnecting(s.engine, h);
  }

  lemma VisitList(s: State, s': State)
    requires ListOk(s) && ScanOk(s) && Visits(s, s')
    ensures ListOk(s') && ScanOk(s')
  {
    SameOrder(s.flying, s.xfers, s'.xfers);
  }

  lemma VisitInv(s: State, s': State)
    requires Inv(s) && Visits(s, s')
    ensures Inv(s')
  {
    hide XfersOk, ListOk, RefsOk, XferOk;
    assert Disconnecting(s.engine, s.engine.h);
    VisitXfers(s, s');
    VisitHandles(s, s');
    VisitList(s, s');
    SameRefs(s, s');
  }

  // ---------------------------------------------------------------- calls of the application

  lemma CallXfers(s: State, s': State, c: Call)
    requires XfersOk(s) && ListOk(s) && Calls(s, s', c)
    ensures XfersOk(s')
  {
  }

  lemma CallList(s: State, s': State, c: Call)
    requires XfersOk(s) && ListOk(s) && ScanOk(s) && Calls(s, s', c)
    ensures ListOk(s') && ScanOk(s')
  {
    SameOrder(s.flying, s.xfers, s'.xfers);
  }

  lemma CallHandles(s: State, s': State, c: Call)
    requires HandlesOk(s) && Calls(s, s', c)
    ensures HandlesOk(s')
  {
  }

  lemma HoldersActive(s: State, d: Device)
    ensures forall t :: t in HoldersOn(s, d) ==> Active(s.xfers[t])
  {
  }

  /** Opening or closing a handle without active transfers moves no transfer's reference. */
  lemma SameHolders(s: State, s': State, h: Handle, d: Device)
    requires s'.xfers == s.xfers && s'.dev - {h} == s.dev - {h}
    requires forall t :: t in s.xfers && s.xfers[t].handle == h ==> !Active(s.xfers[t])
    ensures HoldersOn(s', d) == HoldersOn(s, d)
  {
    HoldersActive(s, d);
    HoldersActive(s', d);
    assert forall g :: g != h && g in s.dev ==> g in s'.dev - {h} && s'.dev[g] == (s'.dev - {h})[g] == (s.dev - {h})[g];
    assert forall g :: g != h && g in s'.dev ==> g in s.dev - {h};
  }

  /** The two states differ in one open handle that nothing uses: s' has it. */
  ghost predicate OneMore(s: State, s': State, h: Handle, d: Device) {
    && h !in s.dev && s'.dev == s.dev[h := d] && s'.xfers == s.xfers && s'.engine == s.engine && s'.others == s.others
    && (forall t :: t in s.xfers && s.xfers[t].handle == h ==> !Active(s.xfers[t]))
    && (EngineHolds(s.engine) ==> s.engine.h != h)
  }

  lemma OneMoreRef(s: State, s': State, h: Handle, d: Device, e: Device)
    requires OneMore(s, s', h, d)
    ensures |OpenOn(s', e)| == |OpenOn(s, e)| + if e == d then 1 else 0
    ensures HoldersOn(s', e) == HoldersOn(s, e) && EngineOn(s', e) == EngineOn(s, e)
  {
    assert OpenOn(s', e) == if e == d then OpenOn(s, e) + {h} else OpenOn(s, e);
    assert s'.dev - {h} == s.dev - {h};
    SameHolders(s, s', h, e);
  }

  lemma OneMoreRefs(s: State, s': State, h: Handle, d: Device)
    requires OneMore(s, s', h, d) && s.refcnt.Keys == s.others.Keys && d in s.refcnt
    requires s'.refcnt == s.refcnt[d := s.refcnt[d] + 1]
    ensures RefsOk(s') <==> RefsOk(s)
  {
    forall e | e in s.refcnt
      ensures s'.refcnt[e] - |OpenOn(s', e)| - |HoldersOn(s', e)| - EngineOn(s', e)
           == s.refcnt[e] - |OpenOn(s, e)| - |HoldersOn(s, e)| - EngineOn(s, e)
    {
      OneMoreRef(s, s', h, d, e);
    }
  }

  lemma AllocRefs(s: State, s': State, c: Call)
    requires RefsOk(s) && Calls(s, s', c) && (c.Alloc? || c.Free?)
    ensures RefsOk(s')
  {
    forall e | e in s'.refcnt
      ensures OpenOn(s', e) == OpenOn(s, e) && HoldersOn(s', e) == HoldersOn(s, e)
    {
      HoldersActive(s, e);
    }
  }

  lemma DeviceRefs(s: State, s': State, c: Call)
    requires RefsOk(s) && Calls(s, s', c) && (c.RefDevice? || c.UnrefDevice?)
    ensures RefsOk(s')
  {
    CountBoth(s, s', c);
    hide Calls;
    forall e | e in s'.refcnt
      ensures s'.refcnt[e] == s'.others[e] + |OpenOn(s', e)| + |HoldersOn(s', e)| + EngineOn(s', e)
    {
      assert OpenOn(s', e) == OpenOn(s, e) && HoldersOn(s', e) == HoldersOn(s, e);
    }
  }

  /** A holder's reference is counted with the holder. */
  lemma CountBoth(s: State, s': State, c: Call)
    requires Calls(s, s', c) && (c.RefDevice? || c.UnrefDevice?) && s.refcnt.Keys == s.others.Keys
    ensures s'.xfers == s.xfers && s'.dev == s.dev && s'.engine == s.engine
      && s'.refcnt.Keys == s'.others.Keys == s.refcnt.Keys
    ensures forall e :: e in s.refcnt ==> s'.refcnt[e] - s'.others[e] == s.refcnt[e] - s.others[e]
  {
  }

  lemma OpenRefs(s: State, s': State, h: Handle, d: Device)
    requires HandlesOk(s) && RefsOk(s) && Calls(s, s', Open(h, d))
    ensures RefsOk(s')
  {
    OpenMeans(s, s', h, d);
    hide Calls, HandlesOk, OneMore;
    OneMoreRefs(s, s', h, d);
  }

  lemma OpenMeans(s: State, s': State, h: Handle, d: Device)
    requires HandlesOk(s) && Calls(s, s', Open(h, d))
    ensures OneMore(s, s', h, d) && d in s.refcnt && s'.refcnt == s.refcnt[d := s.refcnt[d] + 1]
  {
  }

  lemma CloseRefs(s: State, s': State, h: Handle)
    requires HandlesOk(s) && RefsOk(s) && Calls(s, s', Close(h))
    ensures RefsOk(s')
  {
    CloseMeans(s, s', h);
    hide Calls, HandlesOk, OneMore;
    OneMoreRefs(s', s, h, s.dev[h]);
  }

  lemma CloseMeans(s: State, s': State, h: Handle)
    requires HandlesOk(s) && s.refcnt.Keys == s.others.Keys && Calls(s, s', Close(h))
    ensures h in s.dev && OneMore(s', s, h, s.dev[h])
    ensures var d := s.dev[h];
      s'.refcnt.Keys == s'.others.Keys && d in s'.refcnt && s.refcnt == s'.refcnt[d := s'.refcnt[d] + 1]
  {
    var d := s.dev[h];
    assert s.dev == s'.dev[h := d];
    assert s.refcnt == s'.refcnt[d := s'.refcnt[d] + 1];
  }

  lemma CallRefs(s: State, s': State, c: Call)
    requires HandlesOk(s) && RefsOk(s) && Calls(s, s', c)
    ensures RefsOk(s')
  {
    match c
    case Open(h, d) => OpenRefs(s, s', h, d);
    case Close(h) => CloseRefs(s, s', h);
    case Alloc(_) => AllocRefs(s, s', c);
    case Free(_) => AllocRefs(s, s', c);
    case _ => DeviceRefs(s, s', c);
  }

  lemma CallInv(s: State, s': State, c: Call)
    requires Inv(s) && Calls(s, s', c)
    ensures Inv(s')
  {
    CallXfers(s, s', c);
    CallList(s, s', c);
    CallHandles(s, s', c);
    CallRefs(s, s', c);
  }

  // ---------------------------------------------------------------- every run

  lemma InitInv(s: State)
    requires Init(s)
    ensures Inv(s)
  {
    forall d | d in s.refcnt
      ensures OpenOn(s, d) == {} && HoldersOn(s, d) == {}
    {
    }
  }

  lemma MoveInv(s: State, s': State, t: Tid, m: Move)
    requires Inv(s) && Moves(s, s', t, m)
    ensures Inv(s')
  {
    MoveXfers(s, s', t, m);
    MoveList(s, s', t, m);
    MoveScan(s, s', t, m);
    MoveRefs(s, s', t, m);
  }

  lemma WorkInv(s: State, s': State, t: Tid, w: Work)
    requires Inv(s) && Works(s, s', t, w)
    ensures Inv(s')
  {
    WorkXfers(s, s', t, w);
    WorkList(s, s', t, w);
    WorkHandles(s, s', t, w);
    WorkRefs(s, s', t, w);
  }

  lemma StepInv(s: State, s': State)
    requires Inv(s) && Step(s, s')
    ensures Inv(s')
  {
    if t, m :| Moves(s, s', t, m) {
      MoveInv(s, s', t, m);
    } else if t, w :| Works(s, s', t, w) {
      WorkInv(s, s', t, w);
    } else if Drops(s, s') {
      DropInv(s, s');
    } else if Visits(s, s') {
      VisitInv(s, s');
    } else if EndsScan(s, s') {
      EndScanInv(s, s');
    } else if h :| Disconnects(s, s', h) {
      DisconnectInv(s, s', h);
    } else {
      var c :| Calls(s, s', c);
      CallInv(s, s', c);
    }
  }

  lemma {:induction false} RunInv(r: seq<State>, i: nat)
    requires Run(r) && i < |r|
    ensures Inv(r[i])
    decreases i
  {
    if i > 0 {
      assert StepAt(r, i - 1);
      RunInv(r, i - 1);
      StepInv(r[i - 1], r[i]);
      return;
    }
    InitInv(r[0]);
  }

  // ---------------------------------------------------------------- transfers come and go by calls only

  lemma MovesKeep(s: State, s': State, t: Tid, m: Move)
    requires Moves(s, s', t, m)
    ensures s'.xfers.Keys == s.xfers.Keys
  {
  }

  lemma WorksKeep(s: State, s': State, t: Tid, w: Work)
    requires Works(s, s', t, w)
    ensures s'.xfers.Keys == s.xfers.Keys
  {
  }

  lemma VisitsKeep(s: State, s': State)
    requires Visits(s, s')
    ensures s'.xfers.Keys == s.xfers.Keys
  {
  }
}
