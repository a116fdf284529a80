/** What the flags of a transfer say about the past: each is set exactly by one kind of event since the
    latest submission, so that a submission starts with none. */
module TransferFlags {
  import opened TimeValues
  import opened Transfers
  import opened TransferInvariant

  // ---------------------------------------------------------------- events

  /** A submission of the transfer begins, or it is allocated or freed. */
  ghost predicate Restarts(s: State, s': State, t: Tid) {
    t !in s.xfers || t !in s'.xfers || Moves(s, s', t, ClockFails) || exists h, d :: Moves(s, s', t, Submit(h, d))
  }

  /** A timeout finds it in flight and not cancelled, and the backend agrees to cancel it. */
  ghost predicate TimesOut(s: State, s': State, t: Tid) {
    t in s.xfers && s.xfers[t].inFlight && !s.xfers[t].cancelling && Moves(s, s', t, TimeOut(0))
  }

  /** The application or a timeout cancels it while it is in flight. */
  ghost predicate Asks(s: State, s': State, t: Tid) {
    t in s.xfers && s.xfers[t].inFlight && exists o :: Moves(s, s', t, Cancel(o)) || Moves(s, s', t, TimeOut(o))
  }

  /** The first of these, to which the backend answers that the device is gone. */
  ghost predicate FindsNoDevice(s: State, s': State, t: Tid) {
    && t in s.xfers && s.xfers[t].inFlight && !s.xfers[t].cancelling
    && (Moves(s, s', t, Cancel(-4)) || Moves(s, s', t, TimeOut(-4)))
  }

  /** The scan of a disconnect comes to it and finds it not in flight. */
  ghost predicate IsPassed(s: State, s': State, t: Tid) {
    && Visits(s, s') && s.flying[s.engine.i] == t
    && s.xfers[t].handle == s.engine.h && !s.xfers[t].inFlight
  }

  ghost predicate RestartsAt(r: seq<State>, l: nat, t: Tid) {
    l + 1 < |r| && Restarts(r[l], r[l + 1], t)
  }

  /** No submission of the transfer has begun between steps k and i. */
  ghost predicate Since(r: seq<State>, k: nat, i: nat, t: Tid) {
    k < i < |r| && forall l: nat :: k < l < i ==> !RestartsAt(r, l, t)
  }

  ghost predicate TimesOutAt(r: seq<State>, k: nat, t: Tid) {
    k + 1 < |r| && TimesOut(r[k], r[k + 1], t)
  }

  ghost predicate AsksAt(r: seq<State>, k: nat, t: Tid) {
    k + 1 < |r| && Asks(r[k], r[k + 1], t)
  }

  ghost predicate DisappearsAt(r: seq<State>, k: nat, t: Tid) {
    k + 1 < |r| && (FindsNoDevice(r[k], r[k + 1], t) || IsPassed(r[k], r[k + 1], t))
  }

  // ---------------------------------------------------------------- a latch

  ghost predicate Held(sets: nat -> bool, resets: nat -> bool, k: nat, i: nat) {
    k < i && sets(k) && forall l: nat :: k < l < i ==> !resets(l)
  }

  /** A flag that some steps set and others reset, unless they set it: it is on if and only if it has
      been set and not been reset since. */
  lemma {:induction false} Latched(flag: nat -> bool, sets: nat -> bool, resets: nat -> bool, i: nat)
    requires !flag(0)
    requires forall l: nat :: l < i ==> flag(l + 1) == ((flag(l) && !resets(l)) || sets(l))
    ensures flag(i) <==> exists k: nat :: Held(sets, resets, k, i)
    decreases i
  {
    if i > 0 {
      var n := i - 1;
      Latched(flag, sets, resets, n);
      assert flag(n + 1) == ((flag(n) && !resets(n)) || sets(n));
      if sets(n) {
        assert Held(sets, resets, n, i);
      } else if flag(i) {
        var k: nat :| Held(sets, resets, k, n);
        assert Held(sets, resets, k, i);
      } else if k: nat :| Held(sets, resets, k, i) {
        assert Held(sets, resets, k, n);
      }
    }
  }

  // ---------------------------------------------------------------- one step

  /** The four flags follow the events. */
  ghost predicate Follows(s: State, s': State, t: Tid)
    requires t in s.xfers && t in s'.xfers
  {
    var x, x' := s.xfers[t], s'.xfers[t];
    && (x'.timedOut <==> (x.timedOut && !Restarts(s, s', t)) || TimesOut(s, s', t))
    && (x'.cancelling <==> (x.cancelling && !Restarts(s, s', t)) || Asks(s, s', t))
    && (x'.disappeared <==> (x.disappeared && !Restarts(s, s', t)) || FindsNoDevice(s, s', t) || IsPassed(s, s', t))
  }

  /** What a move does to the flags of its transfer. */
  predicate Begins(m: Move) {
    m.Submit? || m.ClockFails?
  }

  predicate Cancels(m: Move) {
    m.Cancel? || m.TimeOut?
  }

  predicate SameFlags(x: Xfer, x': Xfer) {
    x'.timedOut == x.timedOut && x'.cancelling == x.cancelling && x'.disappeared == x.disappeared
  }

  lemma OtherAfter(m: Move, x: Xfer, now: nat)
    requires !Begins(m) && !Cancels(m)
    ensures SameFlags(x, After(m, x, now))
  {
    match m
    case Enlist => assert SameFlags(x, x.(phase := Listed, stamp := now));
    case Ref => assert SameFlags(x, x.(phase := Reffed));
    case Accept(os) => assert SameFlags(x, x.(phase := Accepted, urb := true, osHandles := os));
    case Refuse => assert SameFlags(x, x.(phase := Refused));
    case Flag => FlagAfter(x, now);
    case Unref => assert SameFlags(x, x.(phase := Unlisting));
    case Unlist => assert SameFlags(x, x.(phase := Quiet));
  }

  lemma FlagAfter(x: Xfer, now: nat)
    ensures SameFlags(x, After(Flag, x, now))
  {
  }

  lemma BeginAfter(m: Move, x: Xfer, now: nat)
    requires Begins(m)
    ensures var x' := After(m, x, now); !x'.timedOut && !x'.cancelling && !x'.disappeared
  {
  }

  lemma CancelAfter(m: Move, x: Xfer, now: nat)
    requires Cancels(m) && (m.TimeOut? ==> !x.timedOut)
    ensures var x' := After(m, x, now);
      && (x'.timedOut <==> x.timedOut || (m == TimeOut(0) && x.inFlight && !x.cancelling))
      && (x'.cancelling <==> x.cancelling || x.inFlight)
      && (x'.disappeared <==>
          x.disappeared || ((m == Cancel(-4) || m == TimeOut(-4)) && x.inFlight && !x.cancelling))
  {
  }

  lemma FlagsAfter(m: Move, x: Xfer, e: Engine, gone: set<Handle>, now: nat)
    requires Enabled(m, x, e, gone)
    ensures var x' := After(m, x, now);
      && (x'.timedOut <==> (x.timedOut && !Begins(m)) || (m == TimeOut(0) && x.inFlight && !x.cancelling))
      && (x'.cancelling <==> (x.cancelling && !Begins(m)) || (Cancels(m) && x.inFlight))
      && (x'.disappeared <==>
          || (x.disappeared && !Begins(m))
          || ((m == Cancel(-4) || m == TimeOut(-4)) && x.inFlight && !x.cancelling))
  {
    assert m.TimeOut? ==> !x.timedOut;
    hide After, Enabled;
    if Begins(m) {
      BeginAfter(m, x, now);
    } else if Cancels(m) {
      CancelAfter(m, x, now);
    } else {
      OtherAfter(m, x, now);
    }
  }

  lemma AfterIs(s: State, s': State, t: Tid, m: Move)
    requires Moves(s, s', t, m)
    ensures t in s.xfers && t in s'.xfers && Enabled(m, s.xfers[t], s.engine, s.gone)
    ensures s'.xfers[t] == After(m, s.xfers[t], s.clock)
  {
    hide After, Enabled;
  }

  lemma RestartClears(s: State, s': State, t: Tid)
    requires Restarts(s, s', t) && t in s.xfers && t in s'.xfers
    ensures !s'.xfers[t].timedOut && !s'.xfers[t].cancelling && !s'.xfers[t].disappeared
  {
    hide After, Enabled, Moves;
    var x := s.xfers[t];
    var m := ClockFails;
    if !Moves(s, s', t, ClockFails) {
      var h, d :| Moves(s, s', t, Submit(h, d));
      m := Submit(h, d);
    }
    AfterIs(s, s', t, m);
    FlagsAfter(m, x, s.engine, s.gone, s.clock);
  }

  lemma EventsSet(s: State, s': State, t: Tid)
    requires t in s.xfers && t in s'.xfers
    ensures TimesOut(s, s', t) ==> s'.xfers[t].timedOut
    ensures Asks(s, s', t) ==> s'.xfers[t].cancelling
    ensures FindsNoDevice(s, s', t) ==> s'.xfers[t].disappeared
  {
    hide After, Enabled, Moves;
    var x := s.xfers[t];
    if TimesOut(s, s', t) {
      AfterIs(s, s', t, TimeOut(0));
      FlagsAfter(TimeOut(0), x, s.engine, s.gone, s.clock);
    }
    if Asks(s, s', t) {
      var o :| Moves(s, s', t, Cancel(o)) || Moves(s, s', t, TimeOut(o));
      var m := if Moves(s, s', t, Cancel(o)) then Cancel(o) else TimeOut(o);
      AfterIs(s, s', t, m);
      FlagsAfter(m, x, s.engine, s.gone, s.clock);
    }
    if FindsNoDevice(s, s', t) {
      var m := if Moves(s, s', t, Cancel(-4)) then Cancel(-4) else TimeOut(-4);
      AfterIs(s, s', t, m);
      FlagsAfter(m, x, s.engine, s.gone, s.clock);
    }
  }

  lemma MoveFollows(s: State, s': State, t: Tid, m: Move)
    requires Moves(s, s', t, m)
    ensures t in s.xfers && t in s'.xfers && Follows(s, s', t)
  {
    hide After, Enabled, Moves;
    AfterIs(s, s', t, m);
    var x, x' := s.xfers[t], s'.xfers[t];
    FlagsAfter(m, x, s.engine, s.gone, s.clock);
    EventsSet(s, s', t);
    if Restarts(s, s', t) {
      RestartClears(s, s', t);
    }
    match m
    case Submit(h, d) => assert Moves(s, s', t, Submit(h, d));
    case _ =>
  }

  lemma PassedSets(s: State, s': State, t: Tid)
    requires IsPassed(s, s', t)
    ensures t in s'.xfers && s'.xfers[t].disappeared
  {
  }

  lemma SameFollows(s: State, s': State, t: Tid)
    requires t in s.xfers && t in s'.xfers && SameFlags(s.xfers[t], s'.xfers[t])
    ensures Follows(s, s', t)
  {
    hide Restarts, TimesOut, Asks, FindsNoDevice, IsPassed;
    EventsSet(s, s', t);
    if Restarts(s, s', t) {
      RestartClears(s, s', t);
    }
    if IsPassed(s, s', t) {
      PassedSets(s, s', t);
    }
  }

  lemma VisitFollows(s: State, s': State, t: Tid)
    requires Visits(s, s') && t in s.xfers && t in s'.xfers
    ensures Follows(s, s', t)
  {
    if IsPassed(s, s', t) {
      PassedFollows(s, s', t);
    } else {
      SameFollows(s, s', t);
    }
  }

  lemma PassedFollows(s: State, s': State, t: Tid)
    requires IsPassed(s, s', t) && t in s.xfers && t in s'.xfers
    ensures Follows(s, s', t)
  {
    assert s'.xfers[t] == s.xfers[t].(disappeared := true);
    PassedSets(s, s', t);
    hide Restarts, TimesOut, Asks, FindsNoDevice, IsPassed, Visits;
    EventsSet(s, s', t);
    if Restarts(s, s', t) {
      RestartClears(s, s', t);
    }
  }

  lemma WorkFollows(s: State, s': State, u: Tid, w: Work, t: Tid)
    requires Works(s, s', u, w) && t in s.xfers && t in s'.xfers
    ensures Follows(s, s', t)
  {
    SameFollows(s, s', t);
  }

  lemma CallFollows(s: State, s': State, c: Call, t: Tid)
    requires Calls(s, s', c) && t in s.xfers && t in s'.xfers
    ensures Follows(s, s', t)
  {
    assert s'.xfers[t] == s.xfers[t];
    SameFollows(s, s', t);
  }

  lemma OtherMoveFollows(s: State, s': State, u: Tid, m: Move, t: Tid)
    requires Moves(s, s', u, m) && t != u && t in s.xfers && t in s'.xfers
    ensures Follows(s, s', t)
  {
    assert s'.xfers[t] == s.xfers[t] by { hide After; }
    SameFollows(s, s', t);
  }

  lemma StepFollows(s: State, s': State, t: Tid)
    requires Step(s, s') && t in s.xfers && t in s'.xfers
    ensures Follows(s, s', t)
  {
    hide Moves, Works, Visits, Calls, Follows;
    if u, m :| Moves(s, s', u, m) {
      if u == t {
        MoveFollows(s, s', t, m);
      } else {
        OtherMoveFollows(s, s', u, m, t);
      }
    } else if u, w :| Works(s, s', u, w) {
      WorkFollows(s, s', u, w, t);
    } else if Visits(s, s') {
      VisitFollows(s, s', t);
    } else if c :| Calls(s, s', c) {
      CallFollows(s, s', c, t);
    } else {
      SameFollows(s, s', t);
    }
  }

  /** One step, also when the transfer is allocated or freed. */
  lemma Flagged(s: State, s': State, t: Tid)
    requires Step(s, s')
    ensures t in s'.xfers && s'.xfers[t].timedOut <==>
      (t in s.xfers && s.xfers[t].timedOut && !Restarts(s, s', t)) || TimesOut(s, s', t)
    ensures t in s'.xfers && s'.xfers[t].cancelling <==>
      (t in s.xfers && s.xfers[t].cancelling && !Restarts(s, s', t)) || Asks(s, s', t)
    ensures t in s'.xfers && s'.xfers[t].disappeared <==>
      || (t in s.xfers && s.xfers[t].disappeared && !Restarts(s, s', t))
      || FindsNoDevice(s, s', t) || IsPassed(s, s', t)
  {
    if t in s.xfers && t in s'.xfers {
      StepFollows(s, s', t);
    } else {
      ComesOrGoes(s, s', t);
    }
  }

  lemma ComesOrGoes(s: State, s': State, t: Tid)
    requires Step(s, s') && (t !in s.xfers || t !in s'.xfers)
    ensures !TimesOut(s, s', t) && !Asks(s, s', t) && !FindsNoDevice(s, s', t) && !IsPassed(s, s', t)
    ensures t in s'.xfers ==> !s'.xfers[t].timedOut && !s'.xfers[t].cancelling && !s'.xfers[t].disappeared
  {
    NoEvent(s, s', t);
    hide Moves, Works, Visits;
    if u, m :| Moves(s, s', u, m) {
      MovesKeep(s, s', u, m);
    } else if u, w :| Works(s, s', u, w) {
      WorksKeep(s, s', u, w);
    } else if Visits(s, s') {
      VisitsKeep(s, s');
    }
  }

  lemma NoEvent(s: State, s': State, t: Tid)
    requires t !in s.xfers || t !in s'.xfers
    ensures !TimesOut(s, s', t) && !Asks(s, s', t) && !FindsNoDevice(s, s', t) && !IsPassed(s, s', t)
  {
    hide After, Enabled;
  }

  // ---------------------------------------------------------------- every run

  ghost predicate TimedOutIn(r: seq<State>, l: nat, t: Tid) {
    l < |r| && t in r[l].xfers && r[l].xfers[t].timedOut
  }

  ghost predicate CancellingIn(r: seq<State>, l: nat, t: Tid) {
    l < |r| && t in r[l].xfers && r[l].xfers[t].cancelling
  }

  ghost predicate DisappearedIn(r: seq<State>, l: nat, t: Tid) {
    l < |r| && t in r[l].xfers && r[l].xfers[t].disappeared
  }

  lemma FlaggedAt(r: seq<State>, l: nat, t: Tid)
    requires Run(r) && l + 1 < |r|
    ensures TimedOutIn(r, l + 1, t) <==> (TimedOutIn(r, l, t) && !RestartsAt(r, l, t)) || TimesOutAt(r, l, t)
    ensures CancellingIn(r, l + 1, t) <==> (CancellingIn(r, l, t) && !RestartsAt(r, l, t)) || AsksAt(r, l, t)
    ensures DisappearedIn(r, l + 1, t) <==> (DisappearedIn(r, l, t) && !RestartsAt(r, l, t)) || DisappearsAt(r, l, t)
  {
    hide Step, TimesOut, Restarts, Asks, FindsNoDevice, IsPassed;
    assert StepAt(r, l);
    Flagged(r[l], r[l + 1], t);
  }

  lemma NoneAtFirst(r: seq<State>, t: Tid)
    requires Run(r)
    ensures !TimedOutIn(r, 0, t) && !CancellingIn(r, 0, t) && !DisappearedIn(r, 0, t)
  {
  }

  lemma HeldIsSince(r: seq<State>, sets: nat -> bool, resets: nat -> bool, k: nat, i: nat, t: Tid)
    requires i < |r| && forall l: nat :: resets(l) <==> RestartsAt(r, l, t)
    ensures Held(sets, resets, k, i) <==> Since(r, k, i, t) && sets(k)
  {
    hide RestartsAt;
  }

  /** A transfer is marked as timed out if and only if, since the latest submission of it, a timeout has
      found it in flight and not cancelled and has cancelled it with success. */
  lemma TimedOutIff(r: seq<State>, i: nat, t: Tid)
    requires Run(r) && i < |r| && t in r[i].xfers
    ensures r[i].xfers[t].timedOut <==> exists k: nat :: Since(r, k, i, t) && TimesOutAt(r, k, t)
  {
    assert r[i].xfers[t].timedOut <==> TimedOutIn(r, i, t);
    hide TimesOutAt, RestartsAt, TimedOutIn, Run, Since, Held;
    ghost var resets := (l: nat) => RestartsAt(r, l, t);
    ghost var sets := (l: nat) => TimesOutAt(r, l, t);
    NoneAtFirst(r, t);
    forall l: nat | l < i
      ensures TimedOutIn(r, l + 1, t) <==> (TimedOutIn(r, l, t) && !resets(l)) || sets(l)
    {
      FlaggedAt(r, l, t);
    }
    Latched((l: nat) => TimedOutIn(r, l, t), sets, resets, i);
    forall k: nat
      ensures Held(sets, resets, k, i) <==> Since(r, k, i, t) && TimesOutAt(r, k, t)
    {
      HeldIsSince(r, sets, resets, k, i, t);
    }
  }

  /** It is marked as cancelled if and only if, since then, the application or a timeout has cancelled it
      while it was in flight. */
  lemma CancellingIff(r: seq<State>, i: nat, t: Tid)
    requires Run(r) && i < |r| && t in r[i].xfers
    ensures r[i].xfers[t].cancelling <==> exists k: nat :: Since(r, k, i, t) && AsksAt(r, k, t)
  {
    assert r[i].xfers[t].cancelling <==> CancellingIn(r, i, t);
    hide AsksAt, RestartsAt, CancellingIn, Run, Since, Held;
    ghost var resets := (l: nat) => RestartsAt(r, l, t);
    ghost var sets := (l: nat) => AsksAt(r, l, t);
    NoneAtFirst(r, t);
    forall l: nat | l < i
      ensures CancellingIn(r, l + 1, t) <==> (CancellingIn(r, l, t) && !resets(l)) || sets(l)
    {
      FlaggedAt(r, l, t);
    }
    Latched((l: nat) => CancellingIn(r, l, t), sets, resets, i);
    forall k: nat
      ensures Held(sets, resets, k, i) <==> Since(r, k, i, t) && AsksAt(r, k, t)
    {
      HeldIsSince(r, sets, resets, k, i, t);
    }
  }

  /** Its device is marked as gone if and only if, since then, a disconnect has passed it or its first
      cancellation has been answered so. */
  lemma DisappearedIff(r: seq<State>, i: nat, t: Tid)
    requires Run(r) && i < |r| && t in r[i].xfers
    ensures r[i].xfers[t].disappeared <==> exists k: nat :: Since(r, k, i, t) && DisappearsAt(r, k, t)
  {
    assert r[i].xfers[t].disappeared <==> DisappearedIn(r, i, t);
    hide DisappearsAt, RestartsAt, DisappearedIn, Run, Since, Held;
    ghost var resets := (l: nat) => RestartsAt(r, l, t);
    ghost var sets := (l: nat) => DisappearsAt(r, l, t);
    NoneAtFirst(r, t);
    forall l: nat | l < i
      ensures DisappearedIn(r, l + 1, t) <==> (DisappearedIn(r, l, t) && !resets(l)) || sets(l)
    {
      FlaggedAt(r, l, t);
    }
    Latched((l: nat) => DisappearedIn(r, l, t), sets, resets, i);
    forall k: nat
      ensures Held(sets, resets, k, i) <==> Since(r, k, i, t) && DisappearsAt(r, k, t)
    {
      HeldIsSince(r, sets, resets, k, i, t);
    }
  }

  // ---------------------------------------------------------------- what follows

  /** So the first cancellation of a submission in flight takes effect, whoever asks for it. */
  lemma FirstCancelWorks(r: seq<State>, i: nat, t: Tid, outcome: int)
    requires Run(r) && i + 1 < |r| && t in r[i].xfers && r[i].xfers[t].inFlight
    requires Moves(r[i], r[i + 1], t, Cancel(outcome)) || Moves(r[i], r[i + 1], t, TimeOut(outcome))
    requires forall k: nat :: Since(r, k, i, t) ==> !AsksAt(r, k, t)
    ensures !r[i].xfers[t].cancelling
    ensures t in r[i + 1].xfers && r[i + 1].xfers[t].cancelling
    ensures outcome == -4 ==> r[i + 1].xfers[t].disappeared
    ensures outcome == 0 && Moves(r[i], r[i + 1], t, TimeOut(outcome)) ==> r[i + 1].xfers[t].timedOut
  {
    hide Run, Since, AsksAt, After, Enabled;
    CancellingIff(r, i, t);
    hide Moves;
    var s, s' := r[i], r[i + 1];
    var m := if Moves(s, s', t, TimeOut(outcome)) then TimeOut(outcome) else Cancel(outcome);
    AfterIs(s, s', t, m);
    FlagsAfter(m, s.xfers[t], s.engine, s.gone, s.clock);
  }

  // ---------------------------------------------------------------- callbacks

  /** The event handler makes the callback of the transfer. */
  ghost predicate CallsBack(s: State, s': State, t: Tid) {
    s.engine.Calling? && s.engine.t == t && Works(s, s', t, Callback)
  }

  /** Callbacks are counted when they are made, and with NO_DEVICE when a disconnect makes them. */
  lemma CallbackCounts(s: State, s': State, t: Tid)
    requires CallsBack(s, s', t)
    ensures t in s.xfers && t in s'.xfers
    ensures s'.xfers[t].callbacks == s.xfers[t].callbacks + 1
    ensures s'.xfers[t].lost == s.xfers[t].lost + if exists h :: Disconnecting(s.engine, h) then 1 else 0
  {
    if s.engine.next.Some? {
      assert Disconnecting(s.engine, s.engine.next.value);
    }
  }

  /** Nothing else counts. */
  lemma NothingElseCounts(s: State, s': State, t: Tid)
    requires Step(s, s') && t in s.xfers && t in s'.xfers && !CallsBack(s, s', t)
    ensures s'.xfers[t].callbacks == s.xfers[t].callbacks && s'.xfers[t].lost == s.xfers[t].lost
  {
    hide Moves, Works, Visits, Calls;
    if u, m :| Moves(s, s', u, m) {
      MoveCounts(s, s', u, m, t);
    } else if u, w :| Works(s, s', u, w) {
      WorkCounts(s, s', u, w, t);
    } else if Visits(s, s') {
      VisitCounts(s, s', t);
    } else if c :| Calls(s, s', c) {
      CallCounts(s, s', c, t);
    }
  }

  predicate SameCounts(x: Xfer, x': Xfer) {
    x'.callbacks == x.callbacks && x'.lost == x.lost
  }

  lemma MoveCounts(s: State, s': State, u: Tid, m: Move, t: Tid)
    requires Moves(s, s', u, m) && t in s.xfers && t in s'.xfers
    ensures SameCounts(s.xfers[t], s'.xfers[t])
  {
    hide Enabled;
    if u == t {
      AfterCounts(m, s.xfers[t], s.clock);
    }
    hide After;
  }

  lemma AfterCounts(m: Move, x: Xfer, now: nat)
    ensures SameCounts(x, After(m, x, now))
  {
  }

  lemma WorkCounts(s: State, s': State, u: Tid, w: Work, t: Tid)
    requires Works(s, s', u, w) && t in s.xfers && t in s'.xfers && !CallsBack(s, s', t)
    ensures SameCounts(s.xfers[t], s'.xfers[t])
  {
  }

  lemma VisitCounts(s: State, s': State, t: Tid)
    requires Visits(s, s') && t in s.xfers && t in s'.xfers
    ensures SameCounts(s.xfers[t], s'.xfers[t])
  {
  }

  lemma CallCounts(s: State, s': State, c: Call, t: Tid)
    requires Calls(s, s', c) && t in s.xfers && t in s'.xfers
    ensures SameCounts(s.xfers[t], s'.xfers[t])
  {
    assert s'.xfers[t] == s.xfers[t];
  }

  // ---------------------------------------------------------------- the submission itself

  /** The latest submission of the transfer is on this handle and with this deadline. */
  ghost predicate SubmitsAt(r: seq<State>, k: nat, t: Tid, h: Handle, d: Timeval) {
    k + 1 < |r| && Moves(r[k], r[k + 1], t, Submit(h, d))
  }

  lemma ActiveAfter(m: Move, x: Xfer, e: Engine, gone: set<Handle>, now: nat)
    requires Enabled(m, x, e, gone) && Active(After(m, x, now)) && !m.Submit?
    ensures !m.ClockFails? && Active(x) && After(m, x, now).handle == x.handle
      && After(m, x, now).deadline == x.deadline
  {
  }

  lemma SubmitAfter(h: Handle, d: Timeval, x: Xfer, now: nat)
    ensures var x' := After(Submit(h, d), x, now); x'.handle == h && x'.deadline == d && Active(x')
  {
  }

  lemma RestartIdle(s: State, s': State, t: Tid)
    requires Restarts(s, s', t) && t in s.xfers && t in s'.xfers
    ensures !Active(s.xfers[t])
  {
    hide After;
  }

  /** Either the step submits the transfer, or it was being submitted or in flight before. */
  lemma ActiveStep(s: State, s': State, t: Tid)
    requires Step(s, s') && t in s'.xfers && Active(s'.xfers[t])
    ensures var x' := s'.xfers[t];
      || Moves(s, s', t, Submit(x'.handle, x'.deadline))
      || (&& t in s.xfers && Active(s.xfers[t])
          && s.xfers[t].handle == x'.handle && s.xfers[t].deadline == x'.deadline && !Restarts(s, s', t))
  {
    if t !in s.xfers {
      CameIdle(s, s', t);
    } else if m :| Moves(s, s', t, m) {
      hide Moves, Enabled, After, Active, Restarts;
      AfterIs(s, s', t, m);
      if m.Submit? {
        SubmitAfter(m.h, m.deadline, s.xfers[t], s.clock);
      } else {
        ActiveAfter(m, s.xfers[t], s.engine, s.gone, s.clock);
        if Restarts(s, s', t) {
          RestartIdle(s, s', t);
        }
      }
    } else {
      NotMoved(s, s', t);
      hide Step, Moves, Enabled, Restarts, Active;
      if Restarts(s, s', t) {
        RestartIdle(s, s', t);
      }
    }
  }

  lemma CameIdle(s: State, s': State, t: Tid)
    requires Step(s, s') && t !in s.xfers && t in s'.xfers
    ensures !Active(s'.xfers[t])
  {
    hide Moves, Works, Visits;
    if u, m :| Moves(s, s', u, m) {
      MovesKeep(s, s', u, m);
    } else if u, w :| Works(s, s', u, w) {
      WorksKeep(s, s', u, w);
    } else if Visits(s, s') {
      VisitsKeep(s, s');
    }
  }

  /** What is left alone by all but the moves of a transfer itself. */
  predicate Alike(x: Xfer, x': Xfer) {
    && x'.handle == x.handle && x'.deadline == x.deadline && x'.osHandles == x.osHandles && x'.phase == x.phase
    && (Active(x') ==> Active(x))
  }

  lemma OtherMoveAlike(s: State, s': State, u: Tid, m: Move, t: Tid)
    requires Moves(s, s', u, m) && u != t && t in s.xfers && t in s'.xfers
    ensures Alike(s.xfers[t], s'.xfers[t])
  {
    assert s'.xfers[t] == s.xfers[t] by { hide After, Enabled; }
  }

  lemma WorkAlike(s: State, s': State, u: Tid, w: Work, t: Tid)
    requires Works(s, s', u, w) && t in s.xfers && t in s'.xfers
    ensures Alike(s.xfers[t], s'.xfers[t])
  {
  }

  lemma VisitAlike(s: State, s': State, t: Tid)
    requires Visits(s, s') && t in s.xfers && t in s'.xfers
    ensures Alike(s.xfers[t], s'.xfers[t])
  {
  }

  lemma CallAlike(s: State, s': State, c: Call, t: Tid)
    requires Calls(s, s', c) && t in s.xfers && t in s'.xfers
    ensures Alike(s.xfers[t], s'.xfers[t])
  {
    assert s'.xfers[t] == s.xfers[t];
  }

  lemma NotMoved(s: State, s': State, t: Tid)
    requires Step(s, s') && t in s.xfers && t in s'.xfers && forall m :: !Moves(s, s', t, m)
    ensures Alike(s.xfers[t], s'.xfers[t])
  {
    hide Moves, Works, Visits, Calls;
    if u, m :| Moves(s, s', u, m) {
      OtherMoveAlike(s, s', u, m, t);
    } else if u, w :| Works(s, s', u, w) {
      WorkAlike(s, s', u, w, t);
    } else if Visits(s, s') {
      VisitAlike(s, s', t);
    } else if c :| Calls(s, s', c) {
      CallAlike(s, s', c, t);
    }
  }

  /** A transfer that is being submitted or in flight has the handle and the deadline of its latest
      submission. */
  lemma {:induction false} SubmittedAs(r: seq<State>, i: nat, t: Tid)
    requires Run(r) && i < |r| && t in r[i].xfers && Active(r[i].xfers[t])
    ensures exists k: nat :: Since(r, k, i, t) && SubmitsAt(r, k, t, r[i].xfers[t].handle, r[i].xfers[t].deadline)
    decreases i
  {
    hide Step, Active, Moves, Restarts;
    var x := r[i].xfers[t];
    if i > 0 {
      var n := i - 1;
      assert StepAt(r, n);
      ActiveStep(r[n], r[i], t);
      if Moves(r[n], r[i], t, Submit(x.handle, x.deadline)) {
        assert Since(r, n, i, t) && SubmitsAt(r, n, t, x.handle, x.deadline);
      } else {
        SubmittedAs(r, n, t);
        var k: nat :| Since(r, k, n, t) && SubmitsAt(r, k, t, x.handle, x.deadline);
        assert Since(r, k, i, t);
      }
    }
  }

  // ---------------------------------------------------------------- deadlines left to the operating system

  /** Before the backend has been asked, a submission has none of these flags. */
  predicate Fresh(x: Xfer) {
    x.phase in {Marked, Listed, Reffed} ==> !x.timedOut && !x.cancelling && !x.osHandles
  }

  lemma FreshAfter(m: Move, x: Xfer, e: Engine, gone: set<Handle>, now: nat)
    requires Enabled(m, x, e, gone) && Fresh(x)
    ensures Fresh(After(m, x, now))
  {
  }

  lemma SystemAfter(m: Move, x: Xfer, e: Engine, gone: set<Handle>, now: nat)
    requires Enabled(m, x, e, gone) && Fresh(x)
    ensures After(m, x, now).osHandles <==> (x.osHandles && !Begins(m)) || m == Accept(true)
  {
    assert m.Accept? ==> !x.osHandles;
    hide Enabled, Fresh;
    SystemOf(m, x, now);
  }

  lemma SystemOf(m: Move, x: Xfer, now: nat)
    ensures After(m, x, now).osHandles == if Begins(m) then false else if m.Accept? then m.os else x.osHandles
  {
    match m
    case Enlist => assert x.(phase := Listed, stamp := now).osHandles == x.osHandles;
    case Ref => assert x.(phase := Reffed).osHandles == x.osHandles;
    case Refuse => assert x.(phase := Refused).osHandles == x.osHandles;
    case Unref => assert x.(phase := Unlisting).osHandles == x.osHandles;
    case Unlist => assert x.(phase := Quiet).osHandles == x.osHandles;
    case Flag => FlagSystem(x, now);
    case Cancel(o) => CancelSystem(x, o);
    case TimeOut(o) => CancelSystem(x, o);
    case _ =>
  }

  lemma FlagSystem(x: Xfer, now: nat)
    ensures After(Flag, x, now).osHandles == x.osHandles
  {
  }

  lemma CancelSystem(x: Xfer, o: int)
    ensures Cancelled(x, o).osHandles == x.osHandles
  {
  }

  ghost predicate LeftAt(r: seq<State>, k: nat, t: Tid) {
    k + 1 < |r| && Moves(r[k], r[k + 1], t, Accept(true))
  }

  ghost predicate LeftIn(r: seq<State>, l: nat, t: Tid) {
    l < |r| && t in r[l].xfers && r[l].xfers[t].osHandles
  }

  lemma FreshStep(s: State, s': State, t: Tid)
    requires Step(s, s') && t in s'.xfers && (t in s.xfers ==> Fresh(s.xfers[t]))
    requires t in s.xfers && t in s'.xfers ==> Follows(s, s', t)
    ensures Fresh(s'.xfers[t])
  {
    hide Restarts, TimesOut, Asks, FindsNoDevice, IsPassed, Moves;
    if t !in s.xfers {
      hide Step;
      CameNew(s, s', t);
    } else if m :| Moves(s, s', t, m) {
      hide Step, Follows, After, Enabled, Fresh;
      AfterIs(s, s', t, m);
      FreshAfter(m, s.xfers[t], s.engine, s.gone, s.clock);
    } else {
      NotMoved(s, s', t);
      hide Step;
      NothingAsked(s, s', t);
    }
  }

  lemma NothingAsked(s: State, s': State, t: Tid)
    requires forall m :: !Moves(s, s', t, m)
    ensures !TimesOut(s, s', t) && !Asks(s, s', t) && (t in s.xfers && t in s'.xfers ==> !Restarts(s, s', t))
  {
    hide Moves;
  }

  lemma CameNew(s: State, s': State, t: Tid)
    requires Step(s, s') && t !in s.xfers && t in s'.xfers
    ensures s'.xfers[t].phase == Quiet && !s'.xfers[t].osHandles
  {
    hide Moves, Works, Visits;
    if u, m :| Moves(s, s', u, m) {
      MovesKeep(s, s', u, m);
    } else if u, w :| Works(s, s', u, w) {
      WorksKeep(s, s', u, w);
    } else if Visits(s, s') {
      VisitsKeep(s, s');
    }
  }

  lemma {:induction false} FreshIn(r: seq<State>, i: nat, t: Tid)
    requires Run(r) && i < |r| && t in r[i].xfers
    ensures Fresh(r[i].xfers[t])
    decreases i
  {
    hide Step, Fresh, Follows;
    if i > 0 {
      var n := i - 1;
      assert StepAt(r, n);
      if t in r[n].xfers {
        FreshIn(r, n, t);
        StepFollows(r[n], r[i], t);
      }
      FreshStep(r[n], r[i], t);
    }
  }

  lemma LeftStep(s: State, s': State, t: Tid)
    requires Step(s, s') && (t in s.xfers ==> Fresh(s.xfers[t]))
    ensures t in s'.xfers && s'.xfers[t].osHandles <==>
      (t in s.xfers && s.xfers[t].osHandles && !Restarts(s, s', t)) || Moves(s, s', t, Accept(true))
  {
    if t !in s.xfers || t !in s'.xfers {
      assert !Moves(s, s', t, Accept(true)) by { hide After, Enabled; }
      hide Step, Moves;
      if t in s'.xfers {
        CameNew(s, s', t);
      }
    } else if m :| Moves(s, s', t, m) {
      hide Step;
      MovedLeft(s, s', t, m);
    } else {
      hide Moves;
      NotMoved(s, s', t);
      NothingAsked(s, s', t);
      hide Step;
    }
  }

  lemma MovedLeft(s: State, s': State, t: Tid, m: Move)
    requires Moves(s, s', t, m) && t in s.xfers && Fresh(s.xfers[t])
    ensures t in s'.xfers && (s'.xfers[t].osHandles <==>
      (s.xfers[t].osHandles && !Restarts(s, s', t)) || Moves(s, s', t, Accept(true)))
  {
    hide Moves, After, Enabled, Fresh;
    var x := s.xfers[t];
    AfterIs(s, s', t, m);
    SystemAfter(m, x, s.engine, s.gone, s.clock);
    if Moves(s, s', t, Accept(true)) {
      AfterIs(s, s', t, Accept(true));
      SystemAfter(Accept(true), x, s.engine, s.gone, s.clock);
    }
    if Restarts(s, s', t) {
      var m' := ClockFails;
      if !Moves(s, s', t, ClockFails) {
        var h, d :| Moves(s, s', t, Submit(h, d));
        m' := Submit(h, d);
      }
      AfterIs(s, s', t, m');
      SystemAfter(m', x, s.engine, s.gone, s.clock);
    }
    match m
    case Submit(h, d) => assert Moves(s, s', t, Submit(h, d));
    case _ =>
  }

  /** Its deadline is left to the operating system if and only if the backend has accepted the latest
      submission so. */
  lemma LeftIff(r: seq<State>, i: nat, t: Tid)
    requires Run(r) && i < |r| && t in r[i].xfers
    ensures r[i].xfers[t].osHandles <==> exists k: nat :: Since(r, k, i, t) && LeftAt(r, k, t)
  {
    assert r[i].xfers[t].osHandles <==> LeftIn(r, i, t);
    assert !LeftIn(r, 0, t);
    forall l: nat | l < i
      ensures LeftIn(r, l + 1, t) <==> (LeftIn(r, l, t) && !RestartsAt(r, l, t)) || LeftAt(r, l, t)
    {
      LeftStepAt(r, l, t);
    }
    hide LeftAt, RestartsAt, LeftIn, Run, Since, Held;
    ghost var resets := (l: nat) => RestartsAt(r, l, t);
    ghost var sets := (l: nat) => LeftAt(r, l, t);
    Latched((l: nat) => LeftIn(r, l, t), sets, resets, i);
    forall k: nat
      ensures Held(sets, resets, k, i) <==> Since(r, k, i, t) && LeftAt(r, k, t)
    {
      HeldIsSince(r, sets, resets, k, i, t);
    }
  }

  lemma LeftStepAt(r: seq<State>, l: nat, t: Tid)
    requires Run(r) && l + 1 < |r|
    ensures LeftIn(r, l + 1, t) <==> (LeftIn(r, l, t) && !RestartsAt(r, l, t)) || LeftAt(r, l, t)
  {
    hide Step, Restarts, Moves, Fresh;
    assert StepAt(r, l);
    if t in r[l].xfers {
      FreshIn(r, l, t);
    }
    LeftStep(r[l], r[l + 1], t);
  }

  /** So a listed submission with a deadline that is not left to the operating system can be timed out
      until a timeout has succeeded, whenever nobody holds its lock or the list's. */
  lemma CanBeTimedOut(r: seq<State>, i: nat, t: Tid, outcome: int)
    requires Run(r) && i < |r| && t in r[i].flying && t in r[i].xfers && r[i].xfers[t].phase == Quiet
    requires r[i].xfers[t].deadline.IsSet() && !r[i].engine.Scanning?
    requires forall k: nat :: Since(r, k, i, t) ==> !TimesOutAt(r, k, t) && !LeftAt(r, k, t)
    ensures Enabled(TimeOut(outcome), r[i].xfers[t], r[i].engine, r[i].gone)
  {
    hide Run, Since, TimesOutAt, LeftAt;
    TimedOutIff(r, i, t);
    LeftIff(r, i, t);
  }
}
