/** How many bytes the event pipe holds: one while something is pending, none otherwise, and a
    surplus that grows with every drain that leaves a gap in which someone signals. */
module EventPipe {
  import opened EventLoop
  import opened EventSignals
  import opened EventTheorems
  import opened Options

  // ---------------------------------------------------------------- exact runs

  /** A run is exact as long as it has no drain gap, and no longer. */
  lemma {:induction false} ExactRunIff(r: seq<State>, i: nat)
    requires Run(r) && i < |r|
    ensures (forall k :: 0 <= k <= i ==> r[k].ctx.data.Exact()) <==> (forall k :: 0 <= k <= i ==> !DrainGap(r[k]))
  {
    hide Run, Inv, Step;
    StartsExact(r);
    if i > 0 {
      ExactRunIff(r, i - 1);
      if forall k :: 0 <= k <= i - 1 ==> r[k].ctx.data.Exact() {
        RunStep(r, i - 1);
        ExactUnlessGap(r[i - 1], r[i]);
      }
    }
  }

  // ---------------------------------------------------------------- the surplus

  /** Bytes in the pipe beyond the one for what is pending. */
  function Surplus(d: Signals): int {
    d.pipe - if d.Pending() then 1 else 0
  }

  /** A drain takes the last completion and nothing else is pending. */
  ghost predicate Opens(s: State, s': State) {
    s.ctx.data.Pending() && DrainGap(s')
  }

  /** The handler reads a byte although nothing is pending. */
  ghost predicate Closes(s: State, s': State) {
    !s.ctx.data.Pending() && exists t :: ClosedBy(s, s', t)
  }

  ghost predicate ClosedBy(s: State, s': State, t: Tid) {
    Acts(s, s', t, Backend) && Drains(s.pc[t])
  }

  lemma HandlerSurplus(c: Context, p: Pc, c': Context, p': Pc)
    requires HandlerStep(c, p, c', p') && c.data.Signalled() && (Drains(p) ==> c.data.pipe >= 1)
    ensures Surplus(c'.data) == Surplus(c.data)
      + (if c.data.Pending() && !c'.data.Pending() && p' == Draining then 1 else 0)
      - (if !c.data.Pending() && Drains(p) && p' == Backend then 1 else 0)
    ensures c.data.Pending() && !c'.data.Pending() ==> HoldsEvents(p)
    ensures c'.data.pipe <= c.data.pipe
  {
  }

  lemma CloserSurplus(t: Tid, c: Context, p: Pc, c': Context, p': Pc)
    requires CloserStep(t, c, p, c', p') && c.data.Signalled()
    ensures Surplus(c'.data) == Surplus(c.data) && !Drains(p) && p' != Draining
    ensures c.data.Pending() && !c'.data.Pending() ==> HoldsEvents(p)
    ensures c'.data.pipe > c.data.pipe <==> p == CloseBegin && !c.data.Pending()
  {
  }

  lemma OtherSurplus(t: Tid, c: Context, p: Pc, c': Context, p': Pc)
    requires LockStep(t, c, p, c', p') || WaiterStep(t, c, p, c', p')
    ensures c'.data == c.data && !Drains(p) && p' != Draining && p != CloseBegin
  {
  }

  /** What a thread does to the surplus. */
  lemma LocalSurplus(t: Tid, c: Context, p: Pc, c': Context, p': Pc)
    requires Local(t, c, p) && ThreadStep(t, c, p, c', p')
    ensures Surplus(c'.data) == Surplus(c.data)
      + (if c.data.Pending() && !c'.data.Pending() && p' == Draining then 1 else 0)
      - (if !c.data.Pending() && Drains(p) && p' == Backend then 1 else 0)
    ensures c.data.Pending() && !c'.data.Pending() ==> HoldsEvents(p)
    ensures c'.data.pipe > c.data.pipe <==> p == CloseBegin && !c.data.Pending()
  {
    hide LockStep, HandlerStep, WaiterStep, CloserStep, Surplus, LocalLocks;
    if HandlerStep(c, p, c', p') {
      HandlerSurplus(c, p, c', p');
      NotClosing(c, p, c', p');
    } else if CloserStep(t, c, p, c', p') {
      CloserSurplus(t, c, p, c', p');
    } else {
      OtherSurplus(t, c, p, c', p');
    }
  }

  lemma NotClosing(c: Context, p: Pc, c': Context, p': Pc)
    requires HandlerStep(c, p, c', p')
    ensures p != CloseBegin
  {
  }

  lemma ProducerSurplus(d: Signals, e: Producer)
    ensures Surplus(Produced(d, e)) == Surplus(d) && Produced(d, e).Pending()
    ensures Produced(d, e).pipe == d.pipe + if d.Pending() then 0 else 1
  {
  }

  /** A thread opens a gap just when it takes the last thing that is pending and goes on draining. */
  lemma OpensIff(s: State, s': State, t: Tid, p': Pc)
    requires Inv(s) && Acts(s, s', t, p')
    ensures Opens(s, s') <==> s.ctx.data.Pending() && !s'.ctx.data.Pending() && p' == Draining
  {
    hide ThreadStep, Moved, WakeAll;
    MovedOthers(s.pc, t, p');
    InvLocal(s, t);
    LocalSurplus(t, s.ctx, s.pc[t], s'.ctx, p');
    if Opens(s, s') {
      var u :| u in s'.pc && s'.pc[u] == Draining;
      assert u != t ==> HoldsEvents(s.pc[u]) && HoldsEvents(s.pc[t]);
    }
  }

  /** The surplus grows by one with each gap that opens and shrinks by one with each byte that is
      read although nothing is pending; nothing else changes it. */
  lemma SurplusStep(s: State, s': State)
    requires Inv(s) && Step(s, s')
    ensures Surplus(s'.ctx.data) == Surplus(s.ctx.data) + (if Opens(s, s') then 1 else 0)
      - (if Closes(s, s') then 1 else 0)
  {
    hide ThreadStep, Moved, WakeAll, Surplus, Inv, DrainGap, Opens;
    if Closes(s, s') {
      var t :| ClosedBy(s, s', t);
      ThreadSurplus(s, s', t, Backend);
    } else if t, p' :| Acts(s, s', t, p') {
      ThreadSurplus(s, s', t, p');
      assert p' == Backend && Drains(s.pc[t]) ==> ClosedBy(s, s', t);
    } else {
      var e :| Produces(s, s', e);
      ProducerSurplus(s.ctx.data, e);
      NotGap(s, s');
    }
  }

  lemma NotGap(s: State, s': State)
    requires s'.ctx.data.Pending()
    ensures !Opens(s, s')
  {
  }

  lemma ThreadSurplus(s: State, s': State, t: Tid, p': Pc)
    requires Inv(s) && Acts(s, s', t, p')
    ensures Surplus(s'.ctx.data) == Surplus(s.ctx.data) + (if Opens(s, s') then 1 else 0)
      - (if !s.ctx.data.Pending() && Drains(s.pc[t]) && p' == Backend then 1 else 0)
  {
    hide ThreadStep, Surplus, DrainGap, Opens, Moved;
    InvLocal(s, t);
    LocalSurplus(t, s.ctx, s.pc[t], s'.ctx, p');
    OpensIff(s, s', t, p');
  }

  ghost function Opened(r: seq<State>, i: nat): nat
    requires i < |r|
  {
    if i == 0 then 0 else Opened(r, i - 1) + if Opens(r[i - 1], r[i]) then 1 else 0
  }

  ghost function Closed(r: seq<State>, i: nat): nat
    requires i < |r|
  {
    if i == 0 then 0 else Closed(r, i - 1) + if Closes(r[i - 1], r[i]) then 1 else 0
  }

  /** In every state of a run the surplus is the number of gaps that have opened less those bytes. */
  lemma {:induction false} SurplusIs(r: seq<State>, i: nat)
    requires Run(r) && i < |r|
    ensures Surplus(r[i].ctx.data) == Opened(r, i) - Closed(r, i) >= 0
  {
    hide Run, Inv, Step, Opens, Closes;
    RunInv(r, i);
    StartsExact(r);
    if i > 0 {
      SurplusIs(r, i - 1);
      RunStep(r, i - 1);
      SurplusStep(r[i - 1], r[i]);
    }
    NotNegative(r[i]);
  }

  lemma NotNegative(s: State)
    requires Inv(s)
    ensures Surplus(s.ctx.data) >= 0
  {
  }

  // ---------------------------------------------------------------- the second byte

  /** Somebody signals: a producer, or a thread that begins to close a device. */
  ghost predicate SomeoneSignals(s: State, s': State) {
    (exists e :: Produces(s, s', e)) || (exists t, p' :: Acts(s, s', t, p') && s.pc[t] == CloseBegin)
  }

  /** A step adds a byte just when somebody signals while nothing is pending. */
  lemma ByteAdded(s: State, s': State)
    requires Inv(s) && Step(s, s')
    ensures s'.ctx.data.pipe > s.ctx.data.pipe <==> SomeoneSignals(s, s') && !s.ctx.data.Pending()
    ensures s'.ctx.data.pipe <= s.ctx.data.pipe + 1
  {
    hide ThreadStep, Moved, WakeAll, Inv;
    if e :| Produces(s, s', e) {
      ProducerSurplus(s.ctx.data, e);
    } else if t, p' :| Acts(s, s', t, p') && s.pc[t] == CloseBegin {
      ThreadByte(s, s', t, p');
    } else {
      var t, p' :| Acts(s, s', t, p');
      ThreadByte(s, s', t, p');
    }
  }

  lemma ThreadByte(s: State, s': State, t: Tid, p': Pc)
    requires Inv(s) && Acts(s, s', t, p')
    ensures s'.ctx.data.pipe > s.ctx.data.pipe <==> s.pc[t] == CloseBegin && !s.ctx.data.Pending()
    ensures s'.ctx.data.pipe <= s.ctx.data.pipe + 1
  {
    InvLocal(s, t);
    hide Moved, ThreadStep, Inv;
    LocalSurplus(t, s.ctx, s.pc[t], s'.ctx, p');
  }

  /** A gap stays a gap until its byte is read or somebody signals. */
  lemma GapEnds(s: State, s': State)
    requires Inv(s) && Step(s, s') && DrainGap(s)
    ensures Closes(s, s') || SomeoneSignals(s, s') || DrainGap(s')
  {
    hide Moved, WakeAll, ThreadStep;
    if !SomeoneSignals(s, s') {
      var t, p' :| Acts(s, s', t, p');
      InvLocal(s, t);
      LocalSurplus(t, s.ctx, s.pc[t], s'.ctx, p');
      MovedOthers(s.pc, t, p');
      StaysIdle(t, s.ctx, s.pc[t], s'.ctx, p');
      var u :| u in s.pc && s.pc[u] == Draining;
      if u == t {
        assert ClosedBy(s, s', t);
      } else {
        assert s'.pc[u] == Draining;
      }
    }
  }

  /** With nothing pending, only a closer makes something pending, and a drain finishes. */
  lemma StaysIdle(t: Tid, c: Context, p: Pc, c': Context, p': Pc)
    requires ThreadStep(t, c, p, c', p') && !c.data.Pending() && p != CloseBegin
    ensures !c'.data.Pending() && (p == Draining ==> p' == Backend)
  {
    hide LockStep, HandlerStep, WaiterStep, CloserStep;
    if HandlerStep(c, p, c', p') {
      HandlerStaysIdle(c, p, c', p');
    } else if CloserStep(t, c, p, c', p') {
      CloserStaysIdle(t, c, p, c', p');
    } else {
      OtherSurplus(t, c, p, c', p');
      assert !Drains(p);
    }
  }

  lemma HandlerStaysIdle(c: Context, p: Pc, c': Context, p': Pc)
    requires HandlerStep(c, p, c', p') && !c.data.Pending()
    ensures !c'.data.Pending() && (p == Draining ==> p' == Backend)
  {
  }

  lemma CloserStaysIdle(t: Tid, c: Context, p: Pc, c': Context, p': Pc)
    requires CloserStep(t, c, p, c', p') && !c.data.Pending() && p != CloseBegin
    ensures !c'.data.Pending() && p != Draining
  {
    hide Cleared;
  }

  /** As long as the pipe has not held two bytes, it is exact or in a gap. */
  lemma {:induction false} ExactOrGap(r: seq<State>, i: nat)
    requires Run(r) && i < |r| && forall k :: 0 <= k <= i ==> r[k].ctx.data.pipe <= 1
    ensures r[i].ctx.data.Exact() || DrainGap(r[i])
  {
    hide Run, Inv, Step, DrainGap;
    StartsExact(r);
    if i > 0 {
      ExactOrGap(r, i - 1);
      RunStep(r, i - 1);
      OneByteStep(r[i - 1], r[i]);
    }
  }

  lemma OneByteStep(s: State, s': State)
    requires Inv(s) && Step(s, s') && (s.ctx.data.Exact() || DrainGap(s)) && s.ctx.data.pipe <= 1
      && s'.ctx.data.pipe <= 1
    ensures s'.ctx.data.Exact() || DrainGap(s')
  {
    hide Step;
    if s.ctx.data.Exact() {
      ExactUnlessGap(s, s');
    } else {
      GapHasByte(s);
      ByteAdded(s, s');
      SurplusStep(s, s');
      GapEnds(s, s');
      StepInv(s, s');
      hide Closes, SomeoneSignals, Inv, DrainGap;
    }
  }

  lemma GapHasByte(s: State)
    requires Inv(s) && DrainGap(s)
    ensures s.ctx.data.pipe >= 1 && !s.ctx.data.Pending()
  {
  }

  /** The pipe gets its second byte just when somebody signals in a gap. */
  lemma SecondByte(r: seq<State>, i: nat)
    requires Run(r) && i + 1 < |r| && forall k :: 0 <= k <= i ==> r[k].ctx.data.pipe <= 1
    ensures r[i + 1].ctx.data.pipe == 2 <==> DrainGap(r[i]) && SomeoneSignals(r[i], r[i + 1])
    ensures r[i + 1].ctx.data.pipe <= 2
  {
    hide Run, Inv, Step, DrainGap, SomeoneSignals;
    RunStep(r, i);
    ExactOrGap(r, i);
    ByteAdded(r[i], r[i + 1]);
    if DrainGap(r[i]) {
      GapHasByte(r[i]);
    }
  }

  // ---------------------------------------------------------------- any number of bytes

  /** The handler is draining, nothing is pending, and there are n bytes more than the one it will read. */
  function InGap(n: nat): Context {
    Context(Signals(0, false, [], [], n + 1), true, Some(0), 1, None)
  }

  /** For every n there is a run that ends with n + 1 bytes in the pipe and nothing pending: each
      completion that arrives in the gap adds one, and the drain takes it without reading a byte. */
  lemma {:induction false} SurplusUnbounded(n: nat) returns (r: seq<State>)
    ensures Ends(r, InGap(n), Draining)
  {
    if n == 0 {
      r := DrainingTheLast();
    } else {
      r := SurplusUnbounded(n - 1);
      r := NextSurplus(r, n - 1);
    }
  }

  lemma NextSurplus(r: seq<State>, n: nat) returns (r': seq<State>)
    requires Ends(r, InGap(n), Draining)
    ensures Ends(r', InGap(n + 1), Draining)
  {
    hide Ends;
    r' := ByProducer(r, InGap(n), Draining, Completion(8));
    assert [8][1..] == [] && [] + [8] == [8];
    r' := ByHandler(r', InGap(n).(data := Signals(0, false, [], [8], n + 2)), Draining, InGap(n + 1), Draining);
  }

  /** Both ends of a step can be inexact without being a gap between the drain and its byte: a
      message arrives in a gap, and the drain finishes without reading the second byte. */
  lemma SurplusOutlivesGap() returns (r: seq<State>)
    ensures Run(r) && |r| > 2 && DrainGap(r[|r| - 3])
    ensures !DrainGap(r[|r| - 2]) && !r[|r| - 2].ctx.data.Exact() && !DrainGap(r[|r| - 1])
      && !r[|r| - 1].ctx.data.Exact()
  {
    r := DrainingTheLast();
    assert r[|r| - 1].pc[0] == Draining;
    hide Run;
    var c := InGap(0).(data := Signals(0, false, [Message(1, false)], [], 2));
    r := ByProducer(r, InGap(0), Draining, Hotplug(Message(1, false)));
    r := ByHandler(r, c, Draining, c, Backend);
  }
}
