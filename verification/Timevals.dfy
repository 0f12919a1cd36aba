/**
  Points in time as seconds and microseconds, the way the timeout code of io.c
  computes and compares them.
 */
module Timevals {
  import opened Options

  datatype Timeval = Timeval(sec: nat, usec: nat)
  datatype Timespec = Timespec(sec: nat, nsec: nat)

  const NEVER := Timeval(0, 0)

  function Micros(t: Timeval): nat { 1_000_000 * t.sec + t.usec }

  function Nanos(t: Timespec): nat { 1_000_000_000 * t.sec + t.nsec }

  predicate Normal(t: Timeval) { t.usec < 1_000_000 }

  // timerisset
  predicate IsSet(t: Timeval) { t.sec != 0 || t.usec != 0 }

  // The comparison written out at every use.
  predicate Later(a: Timeval, b: Timeval) {
    a.sec > b.sec || (a.sec == b.sec && a.usec > b.usec)
  }

  lemma LaterMeansLater(a: Timeval, b: Timeval)
    requires Normal(a) && Normal(b)
    ensures Later(a, b) <==> Micros(a) > Micros(b)
  {
  }

  // TIMESPEC_TO_TIMEVAL
  function ToTimeval(t: Timespec): Timeval { Timeval(t.sec, t.nsec / 1000) }

  // timersub
  function Difference(a: Timeval, b: Timeval): (d: Timeval)
    requires Normal(a) && Normal(b) && Micros(b) <= Micros(a)
    ensures Normal(d) && Micros(d) == Micros(a) - Micros(b)
  {
    if a.usec < b.usec then Timeval(a.sec - b.sec - 1, a.usec + 1_000_000 - b.usec)
    else Timeval(a.sec - b.sec, a.usec - b.usec)
  }

  // calculate_timeout: the deadline of a transfer that has to end within timeout
  // milliseconds.  A transfer without a timeout keeps the deadline it had, and so does
  // one whose submission fails because the clock does.  The nanoseconds never pass the
  // 31 bits of a long.
  method CalculateTimeout(clock: Option<Timespec>, timeout: nat, previous: Timeval)
    returns (ok: bool, deadline: Timeval)
    requires clock.Some? ==> clock.value.nsec < 1_000_000_000
    ensures ok <==> timeout == 0 || clock.Some?
    ensures timeout == 0 || clock.None? ==> deadline == previous
    ensures timeout != 0 && clock.Some? ==>
              Normal(deadline) && Micros(deadline) == (Nanos(clock.value) + 1_000_000 * timeout) / 1000
  {
    if timeout == 0 { return true, previous; }
    if clock.None? { return false, previous; }
    var now := clock.value;
    var sec: nat, nsec: nat := now.sec + timeout / 1000, now.nsec + timeout % 1000 * 1_000_000;
    assert nsec < 0x8000_0000;
    assert Nanos(Timespec(sec, nsec)) == Nanos(now) + 1_000_000 * timeout;
    while nsec >= 1_000_000_000
      invariant Nanos(Timespec(sec, nsec)) == Nanos(now) + 1_000_000 * timeout
    {
      nsec := nsec - 1_000_000_000;
      sec := sec + 1;
    }
    deadline := ToTimeval(Timespec(sec, nsec));
    ok := true;
  }
}
