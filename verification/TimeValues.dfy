/** struct timeval and struct timespec as the timeout code uses them: compared and
    subtracted field by field, meaning a number of microseconds (nanoseconds). */
module TimeValues {
  const USEC_PER_SEC := 1_000_000
  const NSEC_PER_SEC := 1_000_000_000

  datatype Timeval = Timeval(sec: nat, usec: nat) {
    predicate Valid() {
      usec < USEC_PER_SEC
    }

    /** timerisset: the all-zero value stands for "no timeout". */
    predicate IsSet() {
      sec != 0 || usec != 0
    }

    function Micros(): nat {
      sec * USEC_PER_SEC + usec
    }

    /** The comparison written out in add_to_flying_list and handle_timeouts_locked. */
    predicate After(other: Timeval) {
      sec > other.sec || (sec == other.sec && usec > other.usec)
    }

    /** timersub */
    function Minus(other: Timeval): Timeval
      requires Valid() && other.Valid() && !other.After(this)
    {
      if usec >= other.usec then Timeval(sec - other.sec, usec - other.usec)
      else Timeval(sec - other.sec - 1, usec + USEC_PER_SEC - other.usec)
    }
  }

  datatype Timespec = Timespec(sec: nat, nsec: nat) {
    function Nanos(): nat {
      sec * NSEC_PER_SEC + nsec
    }

    /** TIMESPEC_TO_TIMEVAL */
    function ToTimeval(): Timeval {
      Timeval(sec, nsec / 1000)
    }
  }

  lemma Units(t: Timeval, s: Timespec)
    ensures t.Micros() == 1000000 * t.sec + t.usec && s.Nanos() == 1000000000 * s.sec + s.nsec
  {
  }

  lemma AfterIsMicros(a: Timeval, b: Timeval)
    requires a.Valid() && b.Valid()
    ensures a.After(b) <==> a.Micros() > b.Micros()
    ensures !b.After(a) ==> a.Minus(b).Valid() && a.Minus(b).Micros() == a.Micros() - b.Micros()
  {
  }

  /** calculate_timeout: the deadline is the current time plus the timeout in milliseconds,
      rounded down to microseconds; a zero timeout leaves the stored deadline alone. */
  method CalculateTimeout(now: Timespec, timeout: nat, stored: Timeval) returns (deadline: Timeval)
    requires now.nsec < NSEC_PER_SEC
    ensures timeout == 0 ==> deadline == stored
    ensures timeout != 0 ==>
      deadline.Valid() && deadline.IsSet() && deadline.Micros() == (now.Nanos() + timeout * 1_000_000) / 1000
  {
    if timeout == 0 {
      return stored;
    }
    var t := Timespec(now.sec + timeout / 1000, now.nsec + timeout % 1000 * 1_000_000);
    ghost var total := now.Nanos() + timeout * 1_000_000;
    while t.nsec >= NSEC_PER_SEC
      invariant t.Nanos() == total
    {
      t := Timespec(t.sec + 1, t.nsec - NSEC_PER_SEC);
    }
    deadline := t.ToTimeval();
    assert deadline.Micros() >= 1000;
  }
}
