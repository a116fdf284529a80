/** What becomes of the hotplug messages and the completions: in every run each of them is taken
    once, in the order in which they were queued, and none is lost. */
module EventQueues {
  import opened EventLoop
  import opened EventSignals

  /** A producer has done something, or a thread has moved to p. */
  datatype Event = Makes(e: Producer) | Goes(t: Tid, p: Pc)

  ghost predicate By(s: State, s': State, v: Event) {
    match v
    case Makes(e) => Produces(s, s', e)
    case Goes(t, p) => Acts(s, s', t, p)
  }

  ghost predicate ByAt(r: seq<State>, vs: seq<Event>, i: nat) {
    i + 1 < |r| && i < |vs| && By(r[i], r[i + 1], vs[i])
  }

  /** The events of a run, one for each step. */
  ghost predicate Story(r: seq<State>, vs: seq<Event>) {
    |r| == |vs| + 1 && Init(r[0]) && forall i :: 0 <= i < |vs| ==> ByAt(r, vs, i)
  }

  lemma {:induction false} EveryRunHasOne(r: seq<State>) returns (vs: seq<Event>)
    requires Run(r)
    ensures Story(r, vs)
    decreases |r|
  {
    var n := |r| - 1;
    if n == 0 {
      vs := [];
    } else {
      hide Step, By;
      assert Run(r[..n]) by {
        forall i | 0 <= i < n - 1
          ensures StepAt(r[..n], i)
        {
          assert StepAt(r, i);
        }
      }
      var before := EveryRunHasOne(r[..n]);
      assert StepAt(r, n - 1);
      var v := EventOf(r[n - 1], r[n]);
      vs := before + [v];
      forall i | 0 <= i < n
        ensures ByAt(r, vs, i)
      {
        assert i < n - 1 ==> ByAt(r[..n], before, i);
      }
    }
  }

  lemma EventOf(s: State, s': State) returns (v: Event)
    requires Step(s, s')
    ensures By(s, s', v)
  {
    if e :| Produces(s, s', e) {
      v := Makes(e);
    } else {
      var t, p :| Acts(s, s', t, p);
      v := Goes(t, p);
    }
  }

  // ---------------------------------------------------------------- what was queued

  function MessagesOf(v: Event): seq<Message> {
    if v.Makes? && v.e.Hotplug? then [v.e.m] else []
  }

  function CompletionsOf(v: Event): seq<TransferId> {
    if v.Makes? && v.e.Completion? then [v.e.t] else []
  }

  function MessagesMade(vs: seq<Event>): seq<Message> {
    if vs == [] then [] else MessagesMade(vs[..|vs| - 1]) + MessagesOf(vs[|vs| - 1])
  }

  function CompletionsMade(vs: seq<Event>): seq<TransferId> {
    if vs == [] then [] else CompletionsMade(vs[..|vs| - 1]) + CompletionsOf(vs[|vs| - 1])
  }

  // ---------------------------------------------------------------- what was taken

  /** The event handler has found the pipe readable, and takes the first message. */
  function MessageTaken(s: State, v: Event): seq<Message> {
    if v.Goes? && v.t in s.pc && s.pc[v.t] == PipeReady && |s.ctx.data.hotplug| > 0 then [s.ctx.data.hotplug[0]] else []
  }

  /** It goes on draining with the first completion. */
  function CompletionTaken(s: State, v: Event): seq<TransferId> {
    if v.Goes? && v.p == Draining && |s.ctx.data.completed| > 0 then [s.ctx.data.completed[0]] else []
  }

  function MessagesTaken(r: seq<State>, vs: seq<Event>): seq<Message>
    requires |r| > |vs|
    decreases |vs|
  {
    if vs == [] then []
    else MessagesTaken(r, vs[..|vs| - 1]) + MessageTaken(r[|vs| - 1], vs[|vs| - 1])
  }

  function CompletionsTaken(r: seq<State>, vs: seq<Event>): seq<TransferId>
    requires |r| > |vs|
    decreases |vs|
  {
    if vs == [] then []
    else CompletionsTaken(r, vs[..|vs| - 1]) + CompletionTaken(r[|vs| - 1], vs[|vs| - 1])
  }

  // ---------------------------------------------------------------- one step

  /** A step queues at the end and takes from the front. */
  ghost predicate Queues(s: State, s': State, v: Event) {
    && MessageTaken(s, v) + s'.ctx.data.hotplug == s.ctx.data.hotplug + MessagesOf(v)
    && CompletionTaken(s, v) + s'.ctx.data.completed == s.ctx.data.completed + CompletionsOf(v)
  }

  lemma MakesQueues(s: State, s': State, e: Producer)
    requires Produces(s, s', e)
    ensures Queues(s, s', Makes(e))
  {
  }

  lemma HandlerQueues(c: Context, p: Pc, c': Context, p': Pc)
    requires HandlerStep(c, p, c', p')
    ensures c'.data.hotplug == if p == PipeReady && |c.data.hotplug| > 0 then c.data.hotplug[1..] else c.data.hotplug
    ensures p' == Draining ==> |c.data.completed| > 0
    ensures c'.data.completed == if p' == Draining then c.data.completed[1..] else c.data.completed
  {
  }

  /** The others leave the queues and the set of descriptors alone. */
  ghost predicate Untouched(c: Context, p: Pc, c': Context, p': Pc) {
    && c'.data.hotplug == c.data.hotplug && c'.data.completed == c.data.completed
    && c'.data.pollfdsModified == c.data.pollfdsModified
    && p != PipeReady && p != Refresh && p' != Draining
  }

  lemma LockLeaves(t: Tid, c: Context, p: Pc, c': Context, p': Pc)
    requires LockStep(t, c, p, c', p')
    ensures Untouched(c, p, c', p')
  {
  }

  lemma WaiterLeaves(t: Tid, c: Context, p: Pc, c': Context, p': Pc)
    requires WaiterStep(t, c, p, c', p')
    ensures Untouched(c, p, c', p')
  {
  }

  lemma CloserLeaves(t: Tid, c: Context, p: Pc, c': Context, p': Pc)
    requires CloserStep(t, c, p, c', p')
    ensures Untouched(c, p, c', p')
  {
  }

  lemma OthersLeave(t: Tid, c: Context, p: Pc, c': Context, p': Pc)
    requires ThreadStep(t, c, p, c', p') && !HandlerStep(c, p, c', p')
    ensures Untouched(c, p, c', p')
  {
    hide LockStep, HandlerStep, WaiterStep, CloserStep, Untouched;
    if LockStep(t, c, p, c', p') {
      LockLeaves(t, c, p, c', p');
    } else if WaiterStep(t, c, p, c', p') {
      WaiterLeaves(t, c, p, c', p');
    } else {
      CloserLeaves(t, c, p, c', p');
    }
  }

  lemma GoesQueues(s: State, s': State, t: Tid, p: Pc)
    requires Acts(s, s', t, p)
    ensures Queues(s, s', Goes(t, p))
  {
    hide LockStep, HandlerStep, WaiterStep, CloserStep, Moved;
    if HandlerStep(s.ctx, s.pc[t], s'.ctx, p) {
      HandlerQueues(s.ctx, s.pc[t], s'.ctx, p);
    } else {
      OthersLeave(t, s.ctx, s.pc[t], s'.ctx, p);
    }
  }

  // ---------------------------------------------------------------- every run

  /** At any time the messages taken so far, followed by those that wait, are those that have been
      queued so far, in that order; and so for the completions. */
  lemma {:induction false} QueuesConserved(r: seq<State>, vs: seq<Event>, i: nat)
    requires Story(r, vs) && i < |r|
    ensures MessagesTaken(r, vs[..i]) + r[i].ctx.data.hotplug == MessagesMade(vs[..i])
    ensures CompletionsTaken(r, vs[..i]) + r[i].ctx.data.completed == CompletionsMade(vs[..i])
  {
    hide By, MessageTaken, CompletionTaken, MessagesOf, CompletionsOf;
    if i > 0 {
      var v, n := vs[i - 1], i - 1;
      QueuesConserved(r, vs, n);
      assert ByAt(r, vs, n);
      StepQueues(r[n], r[i], v);
      assert vs[..i][..n] == vs[..n] && vs[..i][n] == v;
      Shift(MessagesTaken(r, vs[..n]), MessageTaken(r[n], v), r[i].ctx.data.hotplug, r[n].ctx.data.hotplug,
        MessagesOf(v));
      Shift(CompletionsTaken(r, vs[..n]), CompletionTaken(r[n], v), r[i].ctx.data.completed,
        r[n].ctx.data.completed, CompletionsOf(v));
    }
  }

  lemma StepQueues(s: State, s': State, v: Event)
    requires By(s, s', v)
    ensures Queues(s, s', v)
  {
    hide Queues;
    match v
    case Makes(e) => MakesQueues(s, s', e);
    case Goes(t, p) => GoesQueues(s, s', t, p);
  }

  lemma Shift<T>(taken: seq<T>, head: seq<T>, now: seq<T>, was: seq<T>, more: seq<T>)
    requires head + now == was + more
    ensures (taken + head) + now == (taken + was) + more
  {
    assert (taken + head) + now == taken + (head + now);
    assert taken + (was + more) == (taken + was) + more;
  }

  // ---------------------------------------------------------------- the set of descriptors

  /** A descriptor has been added or removed since the poll array was rebuilt. */
  function Outdated(r: seq<State>, vs: seq<Event>): bool
    requires |r| > |vs|
    decreases |vs|
  {
    if vs == [] then true
    else
      var n := |vs| - 1;
      if vs[n].Makes? && vs[n].e.FdChange? then true
      else if vs[n].Goes? && vs[n].t in r[n].pc && r[n].pc[vs[n].t] == Refresh && vs[n].p == Polling then false
      else Outdated(r, vs[..n])
  }

  lemma GoesRefresh(t: Tid, c: Context, p: Pc, c': Context, p': Pc)
    requires ThreadStep(t, c, p, c', p')
    ensures c'.data.pollfdsModified == (c.data.pollfdsModified && !(p == Refresh && p' == Polling))
  {
    hide LockStep, HandlerStep, WaiterStep, CloserStep;
    if HandlerStep(c, p, c', p') {
      HandlerRefreshes(c, p, c', p');
    } else {
      OthersLeave(t, c, p, c', p');
    }
  }

  lemma HandlerRefreshes(c: Context, p: Pc, c': Context, p': Pc)
    requires HandlerStep(c, p, c', p')
    ensures c'.data.pollfdsModified == (c.data.pollfdsModified && !(p == Refresh && p' == Polling))
  {
  }

  /** pollfds_modified says just that. */
  lemma {:induction false} ModifiedIsOutdated(r: seq<State>, vs: seq<Event>, i: nat)
    requires Story(r, vs) && i < |r|
    ensures r[i].ctx.data.pollfdsModified == Outdated(r, vs[..i])
  {
    if i > 0 {
      var v, n := vs[i - 1], i - 1;
      ModifiedIsOutdated(r, vs, n);
      assert ByAt(r, vs, n);
      assert vs[..i][..n] == vs[..n] && vs[..i][n] == v;
      if v.Goes? {
        GoesRefresh(v.t, r[n].ctx, r[n].pc[v.t], r[i].ctx, v.p);
      }
      hide ThreadStep, Moved;
    }
  }
}
