/**
 Local time as the timer sees it: which day an instant belongs to and when the next
 day begins. Instants are whole milliseconds.
 */
module Calendars {
  import opened Common

  datatype Calendar = Calendar(day: int -> int, midnight: int -> int)

  /** Days never run backwards, and `midnight(t)` is a later instant up to which the day of `t` lasts. */
  ghost predicate Lawful(cal: Calendar) {
    && (forall t :: t < cal.midnight(t))
    && (forall t, u :: t <= u < cal.midnight(t) ==> cal.day(u) == cal.day(t))
    && (forall t, u :: t <= u ==> cal.day(t) <= cal.day(u))
  }

  /** How many of the milliseconds from `a` up to `b` belong to day `d`. */
  function Overlap(cal: Calendar, d: int, a: int, b: int): nat
    decreases b - a
  {
    if b <= a then 0
    else Overlap(cal, d, a, b - 1) + if cal.day(b - 1) == d then 1 else 0
  }

  lemma {:induction false} OverlapSplit(cal: Calendar, d: int, a: int, b: int, c: int)
    requires a <= b <= c
    ensures Overlap(cal, d, a, c) == Overlap(cal, d, a, b) + Overlap(cal, d, b, c)
    decreases c - b
  {
    if b < c {
      OverlapSplit(cal, d, a, b, c - 1);
    }
  }

  /** Within one day everything counts for that day. */
  lemma {:induction false} OverlapInOneDay(cal: Calendar, d: int, a: int, b: int)
    requires Lawful(cal) && a <= b <= cal.midnight(a)
    ensures Overlap(cal, d, a, b) == if cal.day(a) == d then b - a else 0
    decreases b - a
  {
    if a < b {
      OverlapInOneDay(cal, d, a, b - 1);
      assert cal.day(b - 1) == cal.day(a);
    }
  }

  /** A day that lies between two instants contributes no more than its length. */
  lemma {:induction false} OverlapWithinDay(cal: Calendar, d: int, low: int, high: int, a: int, b: int)
    requires low <= high && forall u :: cal.day(u) == d ==> low <= u < high
    ensures Overlap(cal, d, a, b) <= Max(0, Min(b, high) - Max(a, low))
    ensures Overlap(cal, d, a, b) <= high - low
    decreases b - a
  {
    if a < b {
      OverlapWithinDay(cal, d, low, high, a, b - 1);
      if cal.day(b - 1) == d {
        assert low <= b - 1 < high;
      }
    }
  }

  /** A day met in an interval lies between the days of its ends. */
  lemma {:induction false} OverlapDays(cal: Calendar, d: int, a: int, b: int)
    requires Lawful(cal) && Overlap(cal, d, a, b) > 0
    ensures a < b && cal.day(a) <= d <= cal.day(b - 1)
    decreases b - a
  {
    if cal.day(b - 1) != d {
      OverlapDays(cal, d, a, b - 1);
    }
  }
}
