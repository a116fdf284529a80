/** Asynchronous transfers: libusb_submit_transfer, cancellation, timeouts, completion and
    disconnect, as atomic steps over any number of transfers, handles and devices. */
module Transfers {
  import opened TimeValues
  import opened FlyingList
  import opened Options

  type Tid = nat
  type Handle = nat
  type Device = nat

  /** How far a submission has come; the transfer's lock is held except when Quiet. */
  datatype Phase = Quiet | Marked | Listed | Reffed | Accepted | Refused | Unwinding | Unlisting

  datatype Xfer = Xfer(
    handle: Handle,
    deadline: Timeval,
    phase: Phase,
    // usbi_transfer_flags
    timedOut: bool, osHandles: bool, cancelling: bool, disappeared: bool,
    submitting: bool, inFlight: bool, completed: bool,
    // held by the backend, which has not reported it yet
    urb: bool,
    // history: when it was last listed, submissions that succeeded, callbacks, callbacks with NO_DEVICE
    stamp: nat, ok: nat, callbacks: nat, lost: nat)

  /** What the event handler, which holds events_lock, is doing. */
  datatype Engine =
    | Resting
    | Scanning(h: Handle, i: nat)                         // usbi_handle_disconnect, flying_transfers_lock held
    | Claimed(h: Handle, t: Tid)                          // it found an in-flight transfer
    | Clearing(h: Handle, t: Tid)                         // and has taken it from the backend
    | Flagging(t: Tid, h: Handle, next: Option<Handle>)   // usbi_handle_transfer_completion: off the list
    | Calling(t: Tid, h: Handle, next: Option<Handle>)    // flags updated
    | Dropping(h: Handle, next: Option<Handle>)           // callback made

  datatype State = State(
    xfers: map<Tid, Xfer>,
    flying: seq<Tid>,
    engine: Engine,
    gone: set<Handle>,           // disconnect reported by the backend
    dev: map<Handle, Device>,    // open handles
    refcnt: map<Device, int>,
    others: map<Device, nat>,    // references held by the application and the device list
    clock: nat)

  // ---------------------------------------------------------------- moves of a submitting or cancelling thread

  datatype Move =
    | Submit(h: Handle, deadline: Timeval)
    | ClockFails
    | Enlist | Ref | Accept(os: bool) | Refuse | Flag | Unref | Unlist
    | Cancel(outcome: int)
    | TimeOut(outcome: int)

  predicate Enabled(m: Move, x: Xfer, e: Engine, gone: set<Handle>) {
    match m
    case Submit(h, d) => x.phase == Quiet && !x.inFlight && d.Valid() && (d == x.deadline || d.IsSet())
    case ClockFails => x.phase == Quiet && !x.inFlight
    case Enlist => x.phase == Marked && !e.Scanning?
    case Ref => x.phase == Listed
    case Accept(_) => x.phase == Reffed && x.handle !in gone
    case Refuse => x.phase == Reffed
    case Flag => x.phase == Accepted || x.phase == Refused
    case Unref => x.phase == Unwinding
    case Unlist => x.phase == Unlisting && !e.Scanning?
    case Cancel(_) => x.phase == Quiet
    case TimeOut(_) => x.phase == Quiet && !e.Scanning? && x.deadline.IsSet() && !x.timedOut && !x.osHandles
  }

  function Cancelled(x: Xfer, outcome: int): Xfer {
    if !x.inFlight || x.cancelling then x
    else x.(cancelling := true, disappeared := x.disappeared || outcome == ERROR_NO_DEVICE)
  }

  function Cleared(x: Xfer): Xfer {
    x.(timedOut := false, osHandles := false, cancelling := false, disappeared := false,
       submitting := false, inFlight := false, completed := false)
  }

  function After(m: Move, x: Xfer, now: nat): Xfer {
    match m
    case Submit(h, d) => Cleared(x).(handle := h, deadline := d, submitting := true, phase := Marked)
    case ClockFails => Cleared(x)
    case Enlist => x.(phase := Listed, stamp := now)
    case Ref => x.(phase := Reffed)
    case Accept(os) => x.(phase := Accepted, urb := true, osHandles := os)
    case Refuse => x.(phase := Refused)
    case Flag =>
      if x.phase == Refused then x.(submitting := false, phase := Unwinding)
      else if x.disappeared then x.(submitting := false, phase := Unwinding, urb := false)
      else x.(submitting := false, phase := Quiet, ok := x.ok + 1, inFlight := x.inFlight || !x.completed)
    case Unref => x.(phase := Unlisting)
    case Unlist => x.(phase := Quiet)
    case Cancel(outcome) => Cancelled(x, outcome)
    case TimeOut(outcome) =>
      Cancelled(x, outcome).(timedOut := x.inFlight && !x.cancelling && outcome == SUCCESS)
  }

  // ---------------------------------------------------------------- moves of the event handler

  datatype Work = Reap | ClearPriv | Delist | Complete | Callback

  /** The transfer an engine move is about. */
  predicate Working(w: Work, t: Tid, x: Xfer, e: Engine, gone: set<Handle>) {
    match w
    case Reap => e.Resting? && x.urb && x.handle !in gone
    case ClearPriv => e.Claimed? && e.t == t && x.phase == Quiet
    case Delist => e.Clearing? && e.t == t
    case Complete => e.Flagging? && e.t == t
    case Callback => e.Calling? && e.t == t
  }

  function Worked(w: Work, t: Tid, x: Xfer, e: Engine): Xfer {
    match w
    case Reap => x.(urb := false)
    case ClearPriv => x.(urb := false)
    case Delist => x
    case Complete => x.(inFlight := false, completed := true)
    case Callback =>
      x.(callbacks := x.callbacks + 1, lost := x.lost + if e.Calling? && e.next.Some? then 1 else 0)
  }

  function NextEngine(w: Work, t: Tid, x: Xfer, e: Engine): Engine {
    match (w, e)
    case (Reap, _) => Flagging(t, x.handle, None)
    case (ClearPriv, Claimed(h, _)) => Clearing(h, t)
    case (Delist, Clearing(h, _)) => Flagging(t, x.handle, Some(h))
    case (Complete, Flagging(_, h, n)) => Calling(t, h, n)
    case (Callback, Calling(_, h, n)) => Dropping(h, n)
    case _ => e
  }

  // ---------------------------------------------------------------- steps of the whole system

  function Without(s: seq<Tid>, t: Tid): (r: seq<Tid>) {
    if s == [] then [] else if s[0] == t then s[1..] else [s[0]] + Without(s[1..], t)
  }

  function DeadlinesOf(s: State): (d: seq<Timeval>)
    requires forall t :: t in s.flying ==> t in s.xfers
    ensures |d| == |s.flying| && forall i :: 0 <= i < |d| ==> d[i] == s.xfers[s.flying[i]].deadline
  {
    seq(|s.flying|, i requires 0 <= i < |s.flying| => s.xfers[s.flying[i]].deadline)
  }

  function Counted(s: State, h: Handle, n: int): map<Device, int> {
    if h in s.dev && s.dev[h] in s.refcnt then s.refcnt[s.dev[h] := s.refcnt[s.dev[h]] + n] else s.refcnt
  }

  ghost predicate Moves(s: State, s': State, t: Tid, m: Move) {
    && t in s.xfers && (forall u :: u in s.flying ==> u in s.xfers)
    && Enabled(m, s.xfers[t], s.engine, s.gone)
    && (m.Submit? ==> m.h in s.dev)
    && (m.TimeOut? ==> t in s.flying)
    && s'.xfers == s.xfers[t := After(m, s.xfers[t], s.clock)]
    && s'.flying == (if m.Enlist? then Insert(s.flying, Place(DeadlinesOf(s), s.xfers[t].deadline), t)
                     else if m.Unlist? then Without(s.flying, t) else s.flying)
    && s'.clock == s.clock + (if m.Enlist? then 1 else 0)
    && s'.refcnt == (if m.Ref? then Counted(s, s.xfers[t].handle, 1)
                     else if m.Unref? then Counted(s, s.xfers[t].handle, -1) else s.refcnt)
    && s'.engine == s.engine && s'.gone == s.gone && s'.dev == s.dev && s'.others == s.others
  }

  ghost predicate Works(s: State, s': State, t: Tid, w: Work) {
    && t in s.xfers && Working(w, t, s.xfers[t], s.engine, s.gone)
    && s' == s.(xfers := s.xfers[t := Worked(w, t, s.xfers[t], s.engine)],
                engine := NextEngine(w, t, s.xfers[t], s.engine),
                flying := if w == Reap || w == Delist then Without(s.flying, t) else s.flying)
  }

  /** The reference of the submission goes, and a disconnect looks again from the start. */
  ghost predicate Drops(s: State, s': State) {
    && s.engine.Dropping?
    && s' == s.(refcnt := Counted(s, s.engine.h, -1),
                engine := if s.engine.next.Some? then Scanning(s.engine.next.value, 0) else Resting)
  }

  ghost predicate Disconnects(s: State, s': State, h: Handle) {
    s.engine.Resting? && h in s.dev && h !in s.gone && s' == s.(gone := s.gone + {h}, engine := Scanning(h, 0))
  }

  ghost predicate Visits(s: State, s': State) {
    && s.engine.Scanning? && s.engine.i < |s.flying| && s.flying[s.engine.i] in s.xfers
    && var t := s.flying[s.engine.i];
       var x := s.xfers[t];
       if x.handle == s.engine.h && x.inFlight then s' == s.(engine := Claimed(s.engine.h, t))
       else s' == s.(engine := Scanning(s.engine.h, s.engine.i + 1),
                     xfers := if x.handle == s.engine.h then s.xfers[t := x.(disappeared := true)] else s.xfers)
  }

  ghost predicate EndsScan(s: State, s': State) {
    s.engine.Scanning? && s.engine.i == |s.flying| && s' == s.(engine := Resting)
  }

  /** What the application does besides: handles are closed only when nothing is outstanding. */
  datatype Call =
    | Alloc(t: Tid) | Free(t: Tid) | Open(h: Handle, d: Device) | Close(h: Handle)
    | RefDevice(d: Device) | UnrefDevice(d: Device)

  predicate Active(x: Xfer) {
    x.phase != Quiet || x.inFlight
  }

  predicate Engaged(e: Engine, t: Tid) {
    match e
    case Claimed(_, u) => u == t
    case Clearing(_, u) => u == t
    case Flagging(u, _, _) => u == t
    case Calling(u, _, _) => u == t
    case _ => false
  }

  predicate Concerns(e: Engine, h: Handle) {
    !e.Resting? && (e.h == h || ((e.Flagging? || e.Calling? || e.Dropping?) && e.next == Some(h)))
  }

  const FRESH := Xfer(0, Timeval(0, 0), Quiet, false, false, false, false, false, false, false, false, 0, 0, 0, 0)

  ghost predicate Calls(s: State, s': State, c: Call) {
    match c
    case Alloc(t) =>
      t !in s.xfers && s' == s.(xfers := s.xfers[t := FRESH])
    case Free(t) =>
      t in s.xfers && !Active(s.xfers[t]) && !Engaged(s.engine, t) && s' == s.(xfers := s.xfers - {t})
    case Open(h, d) =>
      && h !in s.dev && h !in s.gone && d in s.refcnt && s.refcnt[d] > 0
      && s' == s.(dev := s.dev[h := d], refcnt := s.refcnt[d := s.refcnt[d] + 1])
    case Close(h) =>
      && h in s.dev && !Concerns(s.engine, h)
      && (forall t :: t in s.xfers && s.xfers[t].handle == h ==> !Active(s.xfers[t]))
      && s' == s.(dev := s.dev - {h}, refcnt := Counted(s, h, -1))
    case RefDevice(d) =>
      && d in s.refcnt && d in s.others && s.refcnt[d] > 0
      && s' == s.(others := s.others[d := s.others[d] + 1], refcnt := s.refcnt[d := s.refcnt[d] + 1])
    case UnrefDevice(d) =>
      && d in s.refcnt && d in s.others && s.others[d] > 0
      && s' == s.(others := s.others[d := s.others[d] - 1], refcnt := s.refcnt[d := s.refcnt[d] - 1])
  }

  ghost predicate Step(s: State, s': State) {
    || (exists t, m :: Moves(s, s', t, m))
    || (exists t, w :: Works(s, s', t, w))
    || Drops(s, s') || Visits(s, s') || EndsScan(s, s')
    || (exists h :: Disconnects(s, s', h))
    || (exists c :: Calls(s, s', c))
  }

  ghost predicate Init(s: State) {
    && s.xfers == map[] && s.flying == [] && s.engine == Resting && s.gone == {} && s.dev == map[]
    && s.clock == 0 && s.refcnt.Keys == s.others.Keys
    && forall d :: d in s.others ==> s.refcnt[d] == s.others[d]
  }

  ghost predicate StepAt(r: seq<State>, i: nat) {
    i + 1 < |r| && Step(r[i], r[i + 1])
  }

  ghost predicate Run(r: seq<State>) {
    |r| > 0 && Init(r[0]) && forall i :: 0 <= i < |r| - 1 ==> StepAt(r, i)
  }
}
