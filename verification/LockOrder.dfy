/** The two locks that Transfers takes in one step: flying_transfers_lock, and the lock of a
    transfer. A submission takes them in one order, the timeout code in the other; here every
    acquisition is a step of its own. */
module LockOrder {
  import opened Options

  type Tid = nat
  type Xid = nat

  datatype Pc =
    | Idle
      // libusb_submit_transfer; Removing is its way out when the backend refuses or the device is gone
    | SubmitX(t: Xid) | Adding(t: Xid) | Inserting(t: Xid) | Submitting(t: Xid)
    | Removing(t: Xid) | Unlinking(t: Xid) | Leaving(t: Xid)
      // libusb_cancel_transfer by the application, and the disconnect code clearing a claimed transfer
    | CancelX(t: Xid) | Cancelling(t: Xid)
      // completion, disconnect and libusb_get_next_timeout
    | ListL | Walking
      // handle_timeouts_locked
    | TimeoutL | Scanning | TimeoutX(t: Xid) | TimingOut(t: Xid)

  datatype Shared = Shared(owner: Option<Tid>, holders: map<Xid, Tid>, list: set<Xid>)

  datatype State = State(c: Shared, pc: map<Tid, Pc>)

  // ---------------------------------------------------------------- steps

  predicate HoldsList(p: Pc) {
    p.Inserting? || p.Unlinking? || p.Walking? || p.Scanning? || p.TimeoutX? || p.TimingOut?
  }

  predicate WantsList(p: Pc) {
    p.Adding? || p.Removing? || p.ListL? || p.TimeoutL?
  }

  predicate HoldsX(p: Pc, t: Xid) {
    (p.Adding? || p.Inserting? || p.Submitting? || p.Removing? || p.Unlinking? || p.Leaving? || p.Cancelling?
      || p.TimingOut?) && p.t == t
  }

  predicate WantsX(p: Pc, t: Xid) {
    (p.SubmitX? || p.CancelX? || p.TimeoutX?) && p.t == t
  }

  function Locked(c: Shared, a: Tid): Shared { c.(owner := Some(a)) }
  function Unlocked(c: Shared): Shared { c.(owner := None) }
  function LockedX(c: Shared, a: Tid, t: Xid): Shared { c.(holders := c.holders[t := a]) }
  function UnlockedX(c: Shared, t: Xid): Shared { c.(holders := c.holders - {t}) }

  /** A transfer that is not in flight is not listed, so a submission that goes on finds it so. */
  ghost predicate Move(a: Tid, c: Shared, p: Pc, c': Shared, p': Pc) {
    match p
    case Idle =>
      c' == c && (p'.SubmitX? || p'.CancelX? || p'.ListL? || p'.TimeoutL?)
    case SubmitX(t) =>
      && t !in c.holders && c' == LockedX(c, a, t)
      && ((p' == Adding(t) && t !in c.list) || p' == Leaving(t))            // or it is busy
    case Adding(t) => c.owner == None && c' == Locked(c, a) && p' == Inserting(t)
    case Inserting(t) => c' == Unlocked(c).(list := c.list + {t}) && p' == Submitting(t)
    case Submitting(t) => c' == c && (p' == Leaving(t) || p' == Removing(t))
    case Removing(t) => c.owner == None && c' == Locked(c, a) && p' == Unlinking(t)
    case Unlinking(t) => c' == Unlocked(c).(list := c.list - {t}) && p' == Leaving(t)
    case Leaving(t) => c' == UnlockedX(c, t) && p' == Idle
    case CancelX(t) => t !in c.holders && c' == LockedX(c, a, t) && p' == Cancelling(t)
    case Cancelling(t) => c' == UnlockedX(c, t) && p' == Idle
    case ListL => c.owner == None && c' == Locked(c, a) && p' == Walking
    case Walking =>                                                         // a completion removes its transfer
      p' == Idle && (c' == Unlocked(c) || exists t :: Completed(c, c', t))
    case TimeoutL => c.owner == None && c' == Locked(c, a) && p' == Scanning
    case Scanning =>
      || (c' == Unlocked(c) && p' == Idle)
      || (c' == c && p'.TimeoutX? && p'.t in c.list)                        // expired and unhandled
    case TimeoutX(t) => t !in c.holders && c' == LockedX(c, a, t) && p' == TimingOut(t)
    case TimingOut(t) => c' == UnlockedX(c, t) && p' == Scanning
  }

  ghost predicate Completed(c: Shared, c': Shared, t: Xid) {
    c' == Unlocked(c).(list := c.list - {t})
  }

  ghost predicate Acts(s: State, s': State, a: Tid, p': Pc) {
    a in s.pc && Move(a, s.c, s.pc[a], s'.c, p') && s'.pc == s.pc[a := p']
  }

  ghost predicate Step(s: State, s': State) {
    exists a, p' :: Acts(s, s', a, p')
  }

  ghost predicate Init(s: State) {
    s.c == Shared(None, map[], {}) && forall a :: a in s.pc ==> s.pc[a] == Idle
  }

  ghost predicate StepAt(r: seq<State>, i: nat) {
    i + 1 < |r| && Step(r[i], r[i + 1])
  }

  ghost predicate Run(r: seq<State>) {
    |r| > 0 && Init(r[0]) && forall i :: 0 <= i < |r| - 1 ==> StepAt(r, i)
  }

  // ---------------------------------------------------------------- invariant

  /** What a program counter says of the locks and of the list. */
  ghost predicate Agrees(a: Tid, c: Shared, p: Pc) {
    && (HoldsList(p) <==> c.owner == Some(a))
    && (forall t :: t in c.holders && c.holders[t] == a ==> HoldsX(p, t))
    && (forall t :: HoldsX(p, t) ==> t in c.holders && c.holders[t] == a)
    && (p.TimeoutX? || p.TimingOut? ==> p.t in c.list)
    && (p.Adding? || p.Inserting? ==> p.t !in c.list)
  }

  ghost predicate Inv(s: State) {
    && (forall a :: a in s.pc ==> Agrees(a, s.c, s.pc[a]))
    && (s.c.owner.Some? ==> s.c.owner.value in s.pc)
    && (forall t :: t in s.c.holders ==> s.c.holders[t] in s.pc)
  }

  lemma MoverAgrees(a: Tid, c: Shared, p: Pc, c': Shared, p': Pc)
    requires Agrees(a, c, p) && Move(a, c, p, c', p')
    ensures Agrees(a, c', p')
  {
  }

  lemma OthersAgree(a: Tid, c: Shared, p: Pc, c': Shared, p': Pc, b: Tid, q: Pc)
    requires Agrees(a, c, p) && Move(a, c, p, c', p') && Agrees(b, c, q) && a != b
    ensures Agrees(b, c', q)
  {
    if p.Inserting? && (q.Adding? || q.Inserting?) {
      assert HoldsX(p, p.t) && HoldsX(q, q.t);
    }
  }

  lemma OwnersStay(a: Tid, c: Shared, p: Pc, c': Shared, p': Pc)
    requires Move(a, c, p, c', p')
    ensures c'.owner.Some? ==> c'.owner == Some(a) || c'.owner == c.owner
    ensures forall t :: t in c'.holders ==> c'.holders[t] == a || (t in c.holders && c'.holders[t] == c.holders[t])
  {
  }

  lemma StepInv(s: State, s': State)
    requires Inv(s) && Step(s, s')
    ensures Inv(s')
  {
    var a, p' :| Acts(s, s', a, p');
    hide Agrees, Move;
    OwnersStay(a, s.c, s.pc[a], s'.c, p');
    MoverAgrees(a, s.c, s.pc[a], s'.c, p');
    forall b | b in s'.pc
      ensures Agrees(b, s'.c, s'.pc[b])
    {
      if b != a {
        OthersAgree(a, s.c, s.pc[a], s'.c, p', b, s.pc[b]);
      }
    }
  }

  lemma {:induction false} InvHolds(r: seq<State>, i: nat)
    requires Run(r) && i < |r|
    ensures Inv(r[i])
    decreases i
  {
    if i > 0 {
      InvHolds(r, i - 1);
      assert StepAt(r, i - 1);
      StepInv(r[i - 1], r[i]);
    }
  }

  // ---------------------------------------------------------------- who waits for whom

  /** a waits for a lock that b holds. */
  ghost predicate WaitsFor(s: State, a: Tid, b: Tid) {
    && a in s.pc && b in s.pc
    && (|| (WantsList(s.pc[a]) && s.c.owner == Some(b))
        || exists t :: WantsX(s.pc[a], t) && t in s.c.holders && s.c.holders[t] == b)
  }

  /** a times out a transfer whose submission b is being undone. */
  predicate Crossed(s: State, a: Tid, b: Tid) {
    a in s.pc && b in s.pc && s.pc[a].TimeoutX? && s.pc[b] == Removing(s.pc[a].t)
  }

  /** A thread that holds a lock and waits is one of three. */
  lemma Waiting(s: State, a: Tid, b: Tid, d: Tid)
    requires Inv(s) && WaitsFor(s, a, b) && WaitsFor(s, b, d)
    ensures s.pc[b].TimeoutX? || s.pc[b].Adding? || s.pc[b].Removing?
    ensures s.pc[b].TimeoutX? ==> WantsList(s.pc[a]) || WantsX(s.pc[b], s.pc[b].t)
  {
    assert Agrees(b, s.c, s.pc[b]);
  }

  /** If a thread waits for a timeout that waits for b, which waits itself, b's submission is being undone. */
  lemma TimeoutCrossed(s: State, a: Tid, b: Tid, d: Tid)
    requires Inv(s) && a in s.pc && s.pc[a].TimeoutX? && WaitsFor(s, a, b) && WaitsFor(s, b, d)
    ensures Crossed(s, a, b)
  {
    assert Agrees(a, s.c, s.pc[a]) && Agrees(b, s.c, s.pc[b]);
    assert HoldsX(s.pc[b], s.pc[a].t);
  }

  lemma ListHolder(s: State, a: Tid, b: Tid, d: Tid)
    requires Inv(s) && a in s.pc && WantsList(s.pc[a]) && WaitsFor(s, a, b) && WaitsFor(s, b, d)
    ensures s.pc[b].TimeoutX?
  {
    assert Agrees(b, s.c, s.pc[b]);
  }

  /** Two threads wait for each other if and only if one times out a transfer whose submission the
      other is undoing. */
  lemma TwoStuckIff(r: seq<State>, i: nat, a: Tid, b: Tid)
    requires Run(r) && i < |r|
    ensures WaitsFor(r[i], a, b) && WaitsFor(r[i], b, a) <==> Crossed(r[i], a, b) || Crossed(r[i], b, a)
  {
    InvHolds(r, i);
    var s := r[i];
    if WaitsFor(s, a, b) && WaitsFor(s, b, a) {
      Waiting(s, a, b, a);
      if s.pc[b].TimeoutX? {
        TimeoutCrossed(s, b, a, b);
      } else {
        ListHolder(s, b, a, b);
        TimeoutCrossed(s, a, b, a);
      }
    }
    if Crossed(s, a, b) {
      CrossedWaits(s, a, b);
    }
    if Crossed(s, b, a) {
      CrossedWaits(s, b, a);
    }
  }

  lemma CrossedWaits(s: State, a: Tid, b: Tid)
    requires Inv(s) && Crossed(s, a, b)
    ensures WaitsFor(s, a, b) && WaitsFor(s, b, a)
  {
    assert Agrees(a, s.c, s.pc[a]) && Agrees(b, s.c, s.pc[b]);
    assert WantsX(s.pc[a], s.pc[a].t);
  }

  ghost predicate Stuck(s: State, stuck: set<Tid>, a: Tid) {
    exists b :: b in stuck && WaitsFor(s, a, b)
  }

  /** Any threads that wait for one another, however many, include such a pair. */
  lemma DeadlockIsCrossed(r: seq<State>, i: nat, stuck: set<Tid>)
    requires Run(r) && i < |r| && stuck != {}
    requires forall a :: a in stuck ==> Stuck(r[i], stuck, a)
    ensures exists a, b :: a in stuck && b in stuck && Crossed(r[i], a, b)
  {
    hide Run, Inv, WaitsFor, Crossed, Stuck;
    InvHolds(r, i);
    var a :| a in stuck;
    var b := Blocker(r[i], stuck, a);
    var d := Blocker(r[i], stuck, b);
    var e := Blocker(r[i], stuck, d);
    var f := Blocker(r[i], stuck, e);
    ChainCrossed(r[i], a, b, d, e, f);
  }

  lemma Blocker(s: State, stuck: set<Tid>, a: Tid) returns (b: Tid)
    requires Stuck(s, stuck, a)
    ensures b in stuck && WaitsFor(s, a, b)
  {
    hide WaitsFor;
    b :| b in stuck && WaitsFor(s, a, b);
  }

  /** Whoever waits for b waits for a pair. */
  lemma ChainCrossed(s: State, a: Tid, b: Tid, d: Tid, e: Tid, f: Tid)
    requires Inv(s) && WaitsFor(s, a, b) && WaitsFor(s, b, d) && WaitsFor(s, d, e) && WaitsFor(s, e, f)
    ensures Crossed(s, b, d) || Crossed(s, d, e)
  {
    Waiting(s, a, b, d);
    hide Inv, WaitsFor, Crossed;
    if s.pc[b].TimeoutX? {
      TimeoutCrossed(s, b, d, e);
    } else {
      ListHolder(s, b, d, e);
      TimeoutCrossed(s, d, e, f);
    }
  }

  /** It lasts: no step of any thread ends it. */
  lemma CrossedForever(r: seq<State>, i: nat, a: Tid, b: Tid)
    requires Run(r) && i + 1 < |r| && Crossed(r[i], a, b)
    ensures Crossed(r[i + 1], a, b)
  {
    InvHolds(r, i);
    assert StepAt(r, i);
    var s, s' := r[i], r[i + 1];
    var c, p' :| Acts(s, s', c, p');
    assert Agrees(a, s.c, s.pc[a]) && Agrees(b, s.c, s.pc[b]);
  }

  // ---------------------------------------------------------------- a run into it

  ghost predicate Ends(r: seq<State>, s: State) {
    Run(r) && r[|r| - 1] == s
  }

  lemma Extend(r: seq<State>, s: State, a: Tid, c': Shared, p': Pc) returns (r': seq<State>)
    requires Ends(r, s) && a in s.pc && Move(a, s.c, s.pc[a], c', p')
    ensures r' == r + [State(c', s.pc[a := p'])] && Ends(r', State(c', s.pc[a := p']))
  {
    hide Move;
    var s' := State(c', s.pc[a := p']);
    assert Acts(s, s', a, p');
    r' := r + [s'];
    hide Step;
    forall i | 0 <= i < |r'| - 1
      ensures StepAt(r', i)
    {
      if i < |r| - 1 {
        assert StepAt(r, i);
        assert r'[i] == r[i] && r'[i + 1] == r[i + 1];
      } else {
        assert Step(s, s') by { StepBy(s, s', a, p'); }
      }
    }
  }

  lemma StepBy(s: State, s': State, a: Tid, p': Pc)
    requires Acts(s, s', a, p')
    ensures Step(s, s')
  {
  }

  /** Thread 0 has listed transfer 7 and is submitting it. */
  lemma Submitted() returns (r: seq<State>)
    ensures Ends(r, State(Shared(None, map[7 := 0], {7}), map[0 := Submitting(7), 1 := Idle]))
  {
    hide Ends;
    var c0 := Shared(None, map[], {});
    var c1 := Shared(None, map[7 := 0], {});
    var c2 := Shared(Some(0), map[7 := 0], {});
    var c3 := Shared(None, map[7 := 0], {7});
    r := [State(c0, map[0 := Idle, 1 := Idle])];
    Starts(r);
    r := Next(r, c0, Idle, Idle, 0, c0, SubmitX(7));
    r := Next(r, c0, SubmitX(7), Idle, 0, c1, Adding(7));
    r := Next(r, c1, Adding(7), Idle, 0, c2, Inserting(7));
    r := Next(r, c2, Inserting(7), Idle, 0, c3, Submitting(7));
  }

  /** The backend refuses it after its deadline has passed and thread 1 has found it expired. */
  lemma Deadlock() returns (r: seq<State>)
    ensures Run(r) && Crossed(r[|r| - 1], 1, 0)
  {
    hide Ends;
    var c3 := Shared(None, map[7 := 0], {7});
    var c4 := Shared(Some(1), map[7 := 0], {7});
    r := Submitted();
    r := Next(r, c3, Submitting(7), Idle, 1, c3, TimeoutL);
    r := Next(r, c3, Submitting(7), TimeoutL, 1, c4, Scanning);
    r := Next(r, c4, Submitting(7), Scanning, 1, c4, TimeoutX(7));
    r := Next(r, c4, Submitting(7), TimeoutX(7), 0, c4, Removing(7));
    IsRun(r, State(c4, map[0 := Removing(7), 1 := TimeoutX(7)]));
  }

  /** With two threads, whose program counters are p and q. */
  lemma Next(r: seq<State>, c: Shared, p: Pc, q: Pc, a: Tid, c': Shared, p': Pc) returns (r': seq<State>)
    requires Ends(r, State(c, map[0 := p, 1 := q])) && a < 2 && Move(a, c, if a == 0 then p else q, c', p')
    ensures Ends(r', State(c', if a == 0 then map[0 := p', 1 := q] else map[0 := p, 1 := p']))
  {
    hide Ends, Move;
    var s := State(c, map[0 := p, 1 := q]);
    r' := Extend(r, s, a, c', p');
    assert s.pc[a := p'] == if a == 0 then map[0 := p', 1 := q] else map[0 := p, 1 := p'];
  }

  lemma Starts(r: seq<State>)
    requires |r| == 1 && Init(r[0])
    ensures Ends(r, r[0])
  {
  }

  lemma IsRun(r: seq<State>, s: State)
    requires Ends(r, s)
    ensures Run(r) && r[|r| - 1] == s
  {
  }
}
