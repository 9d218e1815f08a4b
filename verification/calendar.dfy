/** The week bucket of `get_week_start`, over day numbers.

    A day is its proleptic Gregorian ordinal, the number Python's
    `date.toordinal()` gives: day 1 is 0001-01-01, which is a Monday, and the
    last representable day is 9999-12-31. Rendering the day as an ISO date
    string is not modelled. */
module Calendar {

  const MaxOrdinal := 3652059

  type Ordinal = n: int | 1 <= n <= MaxOrdinal witness 1

  /** `date.weekday()`: Monday is 0 and Sunday is 6. */
  function Weekday(d: Ordinal): (w: int)
    ensures 0 <= w <= 6
  {
    (d + 6) % 7
  }

  /** The Monday of the week containing `d`: today minus its weekday index. */
  function WeekStart(d: Ordinal): (m: Ordinal)
    ensures m <= d <= m + 6
    ensures Weekday(m) == 0
  {
    d - Weekday(d)
  }

  /** The next day's weekday is one more, wrapping from Sunday to Monday. */
  lemma WeekdayOfNextDay(d: Ordinal)
    requires d < MaxOrdinal
    ensures Weekday(d + 1) == (Weekday(d) + 1) % 7
  {
    var q, r := (d + 6) / 7, (d + 6) % 7;
    assert d + 7 == 7 * q + (r + 1);
    if r < 6 {
      assert (d + 7) % 7 == r + 1;
    } else {
      assert d + 7 == 7 * (q + 1);
    }
  }

  /** A week start is the only Monday at most six days before `d`. */
  lemma {:induction false} WeekStartIsTheMonday(d: Ordinal, m: Ordinal)
    ensures m == WeekStart(d) <==> (m <= d <= m + 6 && Weekday(m) == 0)
  {
    if m <= d <= m + 6 && Weekday(m) == 0 {
      var w: int := WeekStart(d);
      var x: int := m;
      assert (x + 6) % 7 == 0 && (w + 6) % 7 == 0;
      assert (x - w) % 7 == 0;
      assert -6 <= x - w <= 6;
    }
  }

  /** Every day of one week falls into the same bucket. */
  lemma {:induction false} SameWeekSameStart(d: Ordinal, e: Ordinal)
    requires WeekStart(d) <= e <= WeekStart(d) + 6
    ensures WeekStart(e) == WeekStart(d)
  {
    WeekStartIsTheMonday(e, WeekStart(d));
  }

  /** A Monday is its own week start. */
  lemma {:induction false} WeekStartIdempotent(d: Ordinal)
    ensures WeekStart(WeekStart(d)) == WeekStart(d)
  {
    SameWeekSameStart(d, WeekStart(d));
  }
}
