/** The C library's `struct timeval`: seconds and microseconds, kept apart by the scheduler. */
module TimeVals {

  const MILLION := 1_000_000

  datatype TimeVal = TimeVal(sec: int, usec: int)

  const ZERO := TimeVal(0, 0)

  /** The instant or interval as one number of microseconds. */
  function Micros(t: TimeVal): int {
    t.sec * MILLION + t.usec
  }

  predicate Normal(t: TimeVal) {
    0 <= t.usec < MILLION
  }

  predicate NonNegative(t: TimeVal) {
    0 <= t.sec && 0 <= t.usec
  }

  /** The strict order in which the scheduler compares two instants, field by field. */
  predicate Before(a: TimeVal, b: TimeVal) {
    a.sec < b.sec || (a.sec == b.sec && a.usec < b.usec)
  }

  /** The sum the scheduler writes into t_next before its carry loop. */
  function Sum(a: TimeVal, b: TimeVal): TimeVal {
    TimeVal(a.sec + b.sec, a.usec + b.usec)
  }

  /** The normal form of a number of microseconds. */
  function OfMicros(m: int): TimeVal {
    TimeVal(m / MILLION, m % MILLION)
  }

  /** What the carry loop makes of t. It never touches a negative microsecond field. */
  function Carried(t: TimeVal): TimeVal {
    if t.usec >= MILLION then OfMicros(Micros(t)) else t
  }

  /** What the borrow loop makes of t. It never touches a microsecond field that is too large. */
  function Borrowed(t: TimeVal): TimeVal {
    if t.usec < 0 then OfMicros(Micros(t)) else t
  }

  /** On normal values the field-by-field order is the order of the instants. */
  lemma BeforeIsEarlier(a: TimeVal, b: TimeVal)
    requires Normal(a) && Normal(b)
    ensures Before(a, b) <==> Micros(a) < Micros(b)
  {
  }

  lemma NormalFormIsUnique(a: TimeVal, b: TimeVal)
    requires Normal(a) && Normal(b) && Micros(a) == Micros(b)
    ensures a == b
  {
  }

  /** The carry loop: the same instant, in normal form. */
  method Carry(t: TimeVal) returns (r: TimeVal)
    ensures r == Carried(t)
    ensures Micros(r) == Micros(t)
    ensures t.usec >= 0 ==> Normal(r)
  {
    r := t;
    while r.usec >= MILLION
      invariant Micros(r) == Micros(t)
      invariant t.usec >= MILLION ==> r.usec >= 0
      invariant t.usec < MILLION ==> r == t
      decreases r.usec
    {
      r := TimeVal(r.sec + 1, r.usec - MILLION);
    }
    if t.usec >= MILLION {
      NormalFormIsUnique(r, Carried(t));
    }
  }

  /** The borrow loop: the same interval, in normal form. */
  method Borrow(t: TimeVal) returns (r: TimeVal)
    ensures r == Borrowed(t)
    ensures Micros(r) == Micros(t)
    ensures t.usec < MILLION ==> Normal(r)
  {
    r := t;
    while r.usec < 0
      invariant Micros(r) == Micros(t)
      invariant t.usec < 0 ==> r.usec < MILLION
      invariant t.usec >= 0 ==> r == t
      decreases -r.usec
    {
      r := TimeVal(r.sec - 1, r.usec + MILLION);
    }
    if t.usec < 0 {
      NormalFormIsUnique(r, Borrowed(t));
    }
  }
}
