/** The flying transfers of a context: a list kept in deadline order, walked by the timeout code. */
module FlyingList {
  import opened Options
  import opened TimeValues

  const SUCCESS := 0
  const ERROR_OTHER := -99
  const ERROR_NO_DEVICE := -4
  const ERROR_NOT_FOUND := -5

  /** In list order, b may not stand before a: a has no deadline, or a later one than b's. */
  predicate Later(a: Timeval, b: Timeval) {
    b.IsSet() && (!a.IsSet() || a.Micros() > b.Micros())
  }

  ghost predicate Sorted(d: seq<Timeval>) {
    forall i, j :: 0 <= i < j < |d| ==> !Later(d[i], d[j])
  }

  /** Where a transfer goes: before the first one that expires after it. */
  function Place(d: seq<Timeval>, k: Timeval): (i: nat)
    ensures i <= |d|
    ensures forall j :: 0 <= j < i ==> !Later(d[j], k)
    ensures i < |d| ==> Later(d[i], k)
  {
    if d == [] || Later(d[0], k) then 0 else 1 + Place(d[1..], k)
  }

  function Insert<T>(s: seq<T>, i: nat, x: T): seq<T>
    requires i <= |s|
  {
    s[..i] + [x] + s[i..]
  }

  ghost predicate Distinct<T>(s: seq<T>) {
    forall i, j :: 0 <= i < j < |s| ==> s[i] != s[j]
  }

  lemma InsertDistinct<T>(s: seq<T>, i: nat, x: T)
    requires Distinct(s) && x !in s && i <= |s|
    ensures Distinct(Insert(s, i, x))
    ensures forall y :: y in Insert(s, i, x) <==> y in s || y == x
  {
    forall y | y in s
      ensures y in Insert(s, i, x)
    {
      var j :| 0 <= j < |s| && s[j] == y;
      assert Insert(s, i, x)[if j < i then j else j + 1] == y;
    }
    assert Insert(s, i, x)[i] == x;
  }

  /** The order is kept, and the new transfer comes after every one with the same deadline. */
  lemma PlaceKeepsOrder(d: seq<Timeval>, k: Timeval)
    requires Sorted(d)
    ensures Sorted(Insert(d, Place(d, k), k))
    ensures forall j :: 0 <= j < |d| ==> (j < Place(d, k) <==> !Later(d[j], k))
  {
    var i := Place(d, k);
    forall j | i <= j < |d|
      ensures Later(d[j], k)
    {
      assert j == i || !Later(d[i], d[j]);
    }
  }

  class Transfer {
    var timeout: Timeval
    var timedOut: bool
    var osHandlesTimeout: bool
    var cancelling: bool
    var inFlight: bool
    var disappeared: bool
    var cancelOutcome: int   // what the backend answers to cancel_transfer

    constructor (timeout: Timeval, cancelOutcome: int)
      ensures this.timeout == timeout && this.cancelOutcome == cancelOutcome
      ensures !timedOut && !osHandlesTimeout && !cancelling && !inFlight && !disappeared
    {
      this.timeout, this.cancelOutcome := timeout, cancelOutcome;
      timedOut, osHandlesTimeout, cancelling, inFlight, disappeared := false, false, false, false, false;
    }

    /** Not yet dealt with by handle_timeouts, and not left to the operating system. */
    predicate Unhandled()
      reads this
    {
      !timedOut && !osHandlesTimeout
    }

    predicate Expired(now: Timeval)
      reads this
    {
      Unhandled() && timeout.IsSet() && timeout.Micros() <= now.Micros()
    }

    predicate Cancellable()
      reads this
    {
      inFlight && !cancelling
    }

    /** libusb_cancel_transfer */
    method Cancel() returns (r: int)
      modifies this`cancelling, this`disappeared
      ensures r == if old(inFlight) && !old(cancelling) then cancelOutcome else -5
      ensures !Cancellable()
      ensures cancelling == (old(cancelling) || old(inFlight))
      ensures disappeared == (old(disappeared) || (old(Cancellable()) && cancelOutcome == ERROR_NO_DEVICE))
    {
      if !inFlight || cancelling {
        return ERROR_NOT_FOUND;
      }
      r := cancelOutcome;
      if r < 0 && r == ERROR_NO_DEVICE {
        disappeared := true;
      }
      cancelling := true;
    }

    /** handle_timeout */
    method HandleTimeout()
      modifies this`cancelling, this`disappeared, this`timedOut
      ensures timedOut == (old(timedOut) || (old(Cancellable()) && cancelOutcome == SUCCESS))
      ensures cancelling == (old(cancelling) || old(inFlight))
      ensures disappeared == (old(disappeared) || (old(Cancellable()) && cancelOutcome == ERROR_NO_DEVICE))
    {
      var r := Cancel();
      if r == SUCCESS {
        timedOut := true;
      }
    }
  }

  /** What one call of handle_timeout does to a transfer between two states. */
  twostate predicate TimeoutHandled(t: Transfer)
    reads t
  {
    && t.timedOut == (old(t.timedOut) || (old(t.Cancellable()) && t.cancelOutcome == SUCCESS))
    && t.cancelling == (old(t.cancelling) || old(t.inFlight))
    && t.disappeared == (old(t.disappeared) || (old(t.Cancellable()) && t.cancelOutcome == ERROR_NO_DEVICE))
    && t.timeout == old(t.timeout) && t.osHandlesTimeout == old(t.osHandlesTimeout)
    && t.inFlight == old(t.inFlight) && t.cancelOutcome == old(t.cancelOutcome)
  }

  ghost function Deadlines(list: seq<Transfer>): (d: seq<Timeval>)
    reads list
    ensures |d| == |list| && forall i :: 0 <= i < |d| ==> d[i] == list[i].timeout
  {
    seq(|list|, i requires 0 <= i < |list| reads list => list[i].timeout)
  }

  ghost predicate Ordered(list: seq<Transfer>)
    reads list
  {
    && Distinct(list)
    && (forall t :: t in list ==> t.timeout.Valid())
    && Sorted(Deadlines(list))
  }

  lemma InsertOrdered(list: seq<Transfer>, t: Transfer, i: nat)
    requires Ordered(list) && t !in list && t.timeout.Valid() && i == Place(Deadlines(list), t.timeout)
    ensures Ordered(Insert(list, i, t))
  {
    var d := Deadlines(list);
    PlaceKeepsOrder(d, t.timeout);
    InsertDistinct(list, i, t);
    assert Deadlines(Insert(list, i, t)) == Insert(d, i, t.timeout);
  }

  class Flying {
    var list: seq<Transfer>

    ghost predicate Valid()
      reads this, list
    {
      Ordered(list)
    }

    constructor ()
      ensures Valid() && list == []
    {
      list := [];
    }

    /** The place add_to_flying_list gives a transfer, with its shortcuts for an empty list
        and for a transfer without a deadline. */
    method FindPlace(k: Timeval) returns (i: nat)
      requires Valid() && k.Valid()
      ensures i == Place(Deadlines(list), k)
    {
      if list == [] {
        return 0;
      }
      if !k.IsSet() {
        return |list|;
      }
      i := 0;
      while i < |list|
        invariant 0 <= i <= |list|
        invariant forall j :: 0 <= j < i ==> !Later(Deadlines(list)[j], k)
      {
        var cur := list[i].timeout;
        AfterIsMicros(cur, k);
        if !cur.IsSet() || cur.After(k) {
          return;
        }
        i := i + 1;
      }
    }

    /** add_to_flying_list */
    method Add(t: Transfer)
      requires Valid() && t !in list && t.timeout.Valid()
      modifies this
      ensures Valid()
      ensures list == Insert(old(list), Place(old(Deadlines(list)), t.timeout), t)
    {
      var i := FindPlace(t.timeout);
      InsertOrdered(list, t, i);
      list := Insert(list, i, t);
    }

    /** remove_from_flying_list */
    method Remove(t: Transfer)
      requires Valid() && t in list
      modifies this
      ensures Valid() && t !in list
      ensures exists i :: 0 <= i < |old(list)| && old(list)[i] == t && list == old(list)[..i] + old(list)[i + 1..]
    {
      var i := 0;
      while list[i] != t
        invariant 0 <= i < |list| && list == old(list) && t !in list[..i]
        decreases |list| - i
      {
        i := i + 1;
        assert t in list[i..];
      }
      list := list[..i] + list[i + 1..];
    }

    /** handle_timeouts_locked attempts to cancel exactly the transfers that have expired
        and are unhandled, although it stops at the first that has not; if the clock cannot be
        read, it does nothing. */
    method HandleTimeouts(clock: Option<Timeval>) returns (r: int)
      requires Valid() && (clock.Some? ==> clock.value.Valid())
      modifies list
      ensures Valid() && list == old(list)
      ensures r == if list != [] && clock.None? then ERROR_OTHER else SUCCESS
      ensures forall t :: t in list ==>
        if clock.Some? && old(t.Expired(clock.value)) then TimeoutHandled(t) else unchanged(t)
      ensures forall t :: t in list && (old(t.timedOut) || old(t.osHandlesTimeout)) ==> unchanged(t)
      ensures forall t :: t in list && !old(t.timeout.IsSet()) ==> unchanged(t)
    {
      hide Sorted, Later, Deadlines;
      r := SUCCESS;
      if |list| == 0 {
        return;
      }
      if clock.None? {
        return ERROR_OTHER;
      }
      var now := clock.value;
      var i := 0;
      while i < |list|
        invariant 0 <= i <= |list|
        invariant Deadlines(list) == old(Deadlines(list))
        invariant forall j :: 0 <= j < i ==>
          if old(list[j].Expired(now)) then TimeoutHandled(list[j]) else unchanged(list[j])
        invariant forall j :: i <= j < |list| ==> unchanged(list[j])
      {
        var t := list[i];
        AfterIsMicros(t.timeout, now);
        if !t.timeout.IsSet() {
          Tail(i, now);
          return;
        }
        if !t.timedOut && !t.osHandlesTimeout {
          if t.timeout.After(now) {
            Tail(i, now);
            return;
          }
          t.HandleTimeout();
        }
        i := i + 1;
      }
    }

    /** Nothing has expired from an unexpired transfer on. */
    lemma Tail(i: nat, now: Timeval)
      requires Valid() && i < |list|
      requires !list[i].timeout.IsSet() || list[i].timeout.Micros() > now.Micros()
      ensures forall j :: i <= j < |list| ==> !list[j].Expired(now)
    {
      var d := Deadlines(list);
      forall j | i < j < |list|
        ensures !list[j].Expired(now)
      {
        assert !Later(d[i], d[j]);
      }
    }

    /** A transfer whose deadline libusb itself has to watch, with the earliest deadline of these. */
    ghost predicate Watched(t: Transfer)
      reads t
    {
      t.Unhandled() && t.timeout.IsSet()
    }

    ghost predicate Next(t: Transfer)
      reads this, list, t
    {
      t in list && Watched(t) && forall u :: u in list && Watched(u) ==> t.timeout.Micros() <= u.timeout.Micros()
    }

    lemma FirstUnhandledIsNext(i: nat)
      requires Valid() && i < |list| && list[i].Unhandled()
      requires forall j :: 0 <= j < i ==> !list[j].Unhandled()
      ensures if list[i].timeout.IsSet() then Next(list[i]) else forall u :: u in list ==> !Watched(u)
    {
      var d := Deadlines(list);
      forall u | u in list && Watched(u)
        ensures list[i].timeout.IsSet() && list[i].timeout.Micros() <= u.timeout.Micros()
      {
        var j :| 0 <= j < |list| && list[j] == u;
        assert j == i || !Later(d[i], d[j]);
      }
    }

    /** libusb_get_next_timeout: none when no transfer is watched or the clock cannot be read, else
        the time left until the earliest watched deadline, which is zero once that has passed. */
    method GetNextTimeout(clock: Option<Timeval>) returns (r: int, tv: Timeval)
      requires Valid() && (clock.Some? ==> clock.value.Valid())
      ensures r == 0 || r == 1
      ensures r == 0 <==> clock.None? || forall t :: t in list ==> !Watched(t)
      ensures r == 1 ==> tv.Valid()
      ensures r == 1 ==> exists t :: t in list && !t.timedOut && !t.osHandlesTimeout && t.timeout.IsSet()
      ensures forall t :: r == 1 && Next(t) ==>
        tv.Micros() == if t.timeout.Micros() <= clock.value.Micros() then 0
          else t.timeout.Micros() - clock.value.Micros()
      ensures r == 1 ==> exists t :: Next(t)
    {
      tv := Timeval(0, 0);
      var next := Timeval(0, 0);
      var i := 0;
      while i < |list|
        invariant 0 <= i <= |list| && next == Timeval(0, 0)
        invariant forall j :: 0 <= j < i ==> !list[j].Unhandled()
      {
        if list[i].timedOut || list[i].osHandlesTimeout {
          i := i + 1;
          continue;
        }
        FirstUnhandledIsNext(i);
        if list[i].timeout.IsSet() {
          next := list[i].timeout;
        }
        break;
      }
      if !next.IsSet() {
        return 0, tv;
      }
      assert Next(list[i]);
      if clock.None? {
        return 0, tv;
      }
      tv := TimeLeft(next, clock.value);
      r := 1;
    }
  }

  method TimeLeft(next: Timeval, now: Timeval) returns (tv: Timeval)
    requires next.Valid() && now.Valid()
    ensures tv.Valid()
    ensures tv.Micros() == if next.Micros() <= now.Micros() then 0 else next.Micros() - now.Micros()
  {
    AfterIsMicros(next, now);
    AfterIsMicros(now, next);
    if !next.After(now) {
      tv := Timeval(0, 0);
    } else {
      tv := next.Minus(now);
    }
  }
}
