/**
 * Dates as integer day numbers (day 0 is 1970-01-01, a Thursday) and the
 * business-day count of `numpy.busday_count` with its default Monday to
 * Friday week mask and no holidays.
 */
module Calendar {

  /** Day of the week, 0 = Monday ... 6 = Sunday. */
  function Weekday(d: int): (w: int)
    ensures 0 <= w < 7
  {
    (d + 3) % 7
  }

  predicate IsBusinessDay(d: int) {
    Weekday(d) < 5
  }

  /** Number of business days in the half-open range [a, b). */
  function CountBusinessDays(a: int, b: int): (n: int)
    requires a <= b
    ensures 0 <= n <= b - a
    decreases b - a
  {
    if a == b then 0
    else CountBusinessDays(a, b - 1) + B(b - 1)
  }

  /**
   * `numpy.busday_count(a, b)`: business days in [a, b), negated when the
   * range is given backwards.
   */
  function BusDayCount(a: int, b: int): int {
    if a <= b then CountBusinessDays(a, b) else -CountBusinessDays(b, a)
  }

  /** Counting one more day adds one exactly when that day is a business day. */
  lemma BusDayCountStep(a: int, b: int)
    requires a <= b
    ensures BusDayCount(a, b + 1) == BusDayCount(a, b) + (if IsBusinessDay(b) then 1 else 0)
  {
  }

  /** Counts over adjacent ranges add up. */
  lemma {:induction false} CountBusinessDaysSplit(a: int, b: int, c: int)
    requires a <= b <= c
    ensures CountBusinessDays(a, c) == CountBusinessDays(a, b) + CountBusinessDays(b, c)
    decreases c - b
  {
    if b < c {
      CountBusinessDaysSplit(a, b, c - 1);
    }
  }

  /** The count never decreases as the end date moves forward. */
  lemma BusDayCountMonotone(a: int, b: int, c: int)
    requires a <= b <= c
    ensures 0 <= BusDayCount(a, b) <= BusDayCount(a, c)
  {
    CountBusinessDaysSplit(a, b, c);
  }

  /** Any seven consecutive days hold exactly five business days. */
  lemma WeekHasFiveBusinessDays(a: int)
    ensures CountBusinessDays(a, a + 7) == 5
  {
    var w := Weekday(a);
    WeekdayShift(a, 1);
    WeekdayShift(a, 2);
    WeekdayShift(a, 3);
    WeekdayShift(a, 4);
    WeekdayShift(a, 5);
    WeekdayShift(a, 6);
    assert CountBusinessDays(a, a + 7) == B(a) + B(a + 1) + B(a + 2) + B(a + 3) + B(a + 4) + B(a + 5) + B(a + 6) by {
      UnrollWeek(a);
    }
  }

  /** The weekday `k` days later, for `0 <= k < 7`. */
  lemma WeekdayShift(a: int, k: int)
    requires 0 <= k < 7
    ensures Weekday(a + k) == if Weekday(a) + k < 7 then Weekday(a) + k else Weekday(a) + k - 7
  {
    var q := (a + 3) / 7;
    assert a + 3 == 7 * q + Weekday(a);
    if Weekday(a) + k < 7 {
      assert a + k + 3 == 7 * q + (Weekday(a) + k);
    } else {
      assert a + k + 3 == 7 * (q + 1) + (Weekday(a) + k - 7);
    }
  }

  lemma UnrollWeek(a: int)
    ensures CountBusinessDays(a, a + 7) == B(a) + B(a + 1) + B(a + 2) + B(a + 3) + B(a + 4) + B(a + 5) + B(a + 6)
  {
    assert CountBusinessDays(a, a + 1) == B(a);
    assert CountBusinessDays(a, a + 2) == B(a) + B(a + 1);
    assert CountBusinessDays(a, a + 3) == B(a) + B(a + 1) + B(a + 2);
    assert CountBusinessDays(a, a + 4) == B(a) + B(a + 1) + B(a + 2) + B(a + 3);
    assert CountBusinessDays(a, a + 5) == B(a) + B(a + 1) + B(a + 2) + B(a + 3) + B(a + 4);
    assert CountBusinessDays(a, a + 6) == B(a) + B(a + 1) + B(a + 2) + B(a + 3) + B(a + 4) + B(a + 5);
  }

  /** One if `d` is a business day, else zero. */
  function B(d: int): int {
    if IsBusinessDay(d) then 1 else 0
  }

  /**
   * The count grows by at most one per day, so every value from 0 up to
   * the count over [a, b) is the count over [a, d) for some d in between.
   */
  lemma {:induction false} CountReachesExactly(a: int, b: int, n: int)
    requires a <= b && 0 <= n <= CountBusinessDays(a, b)
    ensures exists d :: a <= d <= b && CountBusinessDays(a, d) == n
    decreases b - a
  {
    if CountBusinessDays(a, b) == n {
      assert a <= b <= b && CountBusinessDays(a, b) == n;
    } else {
      CountReachesExactly(a, b - 1, n);
    }
  }
}
