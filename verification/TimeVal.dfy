/**
 struct timeval and add_usecs (timer.c).
 */
module TimeVal {

  const MILLION := 1_000_000

  datatype TimeVal = TimeVal(sec: int, usec: int)

  /** The time in microseconds. */
  function Total(t: TimeVal): int {
    t.sec * MILLION + t.usec
  }

  predicate IsNormal(t: TimeVal) {
    0 <= t.usec < MILLION
  }

  /** How the timer routines compare times. */
  predicate Earlier(a: TimeVal, b: TimeVal) {
    a.sec < b.sec || (a.sec == b.sec && a.usec < b.usec)
  }

  // Division of C truncates.

  function Quotient(a: int, b: int): int
    requires b > 0
  {
    if a >= 0 then a / b else -(-a / b)
  }

  function Remainder(a: int, b: int): int
    requires b > 0
  {
    a - Quotient(a, b) * b
  }

  function AddUsecs(t: TimeVal, usecs: int): TimeVal {
    var sec, usec := t.sec + Quotient(usecs, MILLION), t.usec + Remainder(usecs, MILLION);
    if usec >= MILLION then TimeVal(sec + Quotient(usec, MILLION), Remainder(usec, MILLION))
    else TimeVal(sec, usec)
  }

  /** The sum is always exact.  It is normal unless a negative remainder outweighs the microseconds. */
  lemma AddUsecsExact(t: TimeVal, usecs: int)
    requires IsNormal(t)
    ensures Total(AddUsecs(t, usecs)) == Total(t) + usecs
    ensures IsNormal(AddUsecs(t, usecs)) <==> 0 <= t.usec + Remainder(usecs, MILLION)
    ensures 0 <= usecs ==> IsNormal(AddUsecs(t, usecs))
  {
  }

  /** Normal times are ordered by their totals. */
  lemma EarlierIsLess(a: TimeVal, b: TimeVal)
    requires IsNormal(a) && IsNormal(b)
    ensures Earlier(a, b) <==> Total(a) < Total(b)
  {
  }
}
