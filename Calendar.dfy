/** ISO-8601 calendar dates as day numbers. A date `YYYY-MM-DD` is the
    number of days since 0000-01-01 in the proleptic Gregorian calendar, so
    the chronological (and string) order of dates is the order of integers.
    Months are numbered k = 12 * year + (month - 1). This replaces the pandas
    offsets (`ME`, `MS`, `YS`, `W-FRI`) used by the source. */
module Calendar {

  type Date = int

  predicate IsLeapYear(y: int) {
    y % 4 == 0 && (y % 100 != 0 || y % 400 == 0)
  }

  /** Days in the years 0 .. y-1 (negative for negative y). */
  function DaysBeforeYear(y: int): int {
    365 * y + (y + 3) / 4 - (y + 99) / 100 + (y + 399) / 400
  }

  /** The number of days of month k. */
  function MonthLength(k: int): (n: int)
    ensures 28 <= n <= 31
  {
    var m := k % 12;
    if m == 1 then (if IsLeapYear(k / 12) then 29 else 28)
    else if m == 3 || m == 5 || m == 8 || m == 10 then 30
    else 31
  }

  /** The first day of month k, counted from January of year 0. */
  function MonthStart(k: int): Date
    decreases if k >= 0 then k else -k
  {
    if k == 0 then 0
    else if k > 0 then MonthStart(k - 1) + MonthLength(k - 1)
    else MonthStart(k + 1) - MonthLength(k)
  }

  lemma MonthStartStep(k: int)
    ensures MonthStart(k + 1) == MonthStart(k) + MonthLength(k)
  {
  }

  /** The last day of month k (a pandas `ME` anchor). */
  function MonthEnd(k: int): Date {
    MonthStart(k + 1) - 1
  }

  /** The number of days of year y. */
  function YearDays(y: int): int {
    if IsLeapYear(y) then 366 else 365
  }

  /** The first day of year y (a pandas `YS` anchor), year by year. */
  function YearStart(y: int): Date
    decreases if y >= 0 then y else -y
  {
    if y == 0 then 0
    else if y > 0 then YearStart(y - 1) + YearDays(y - 1)
    else YearStart(y + 1) - YearDays(y)
  }

  lemma YearStartStep(y: int)
    ensures YearStart(y + 1) == YearStart(y) + YearDays(y)
  {
  }

  /** A year starts with its January: YearStart agrees with the months. */
  lemma {:induction false} YearStartIsJanuary(y: int)
    ensures YearStart(y) == MonthStart(12 * y)
    decreases if y >= 0 then y else -y
  {
    if y > 0 {
      YearStartIsJanuary(y - 1);
      YearSpan(y - 1);
      assert 12 * (y - 1) + 12 == 12 * y;
    } else if y < 0 {
      YearStartIsJanuary(y + 1);
      YearSpan(y);
      assert 12 * y + 12 == 12 * (y + 1);
    }
  }

  /** Day of the week, Monday = 0 .. Sunday = 6 (0000-01-01 was a Saturday). */
  function Weekday(d: Date): (w: int)
    ensures 0 <= w < 7
  {
    (d + 5) % 7
  }

  const Friday := 4

  lemma YearLength(y: int)
    ensures DaysBeforeYear(y + 1) - DaysBeforeYear(y) == if IsLeapYear(y) then 366 else 365
  {
    QuadStep(y);
    CenturyStep(y);
    QuadCenturyStep(y);
    Divisors(y);
  }

  lemma Divisors(y: int)
    ensures y % 100 == 0 ==> y % 4 == 0
    ensures y % 400 == 0 ==> y % 100 == 0
  {
    if y % 100 == 0 {
      assert y == 4 * (25 * (y / 100));
    }
    if y % 400 == 0 {
      assert y == 100 * (4 * (y / 400));
    }
  }

  lemma QuadStep(y: int)
    ensures (y + 4) / 4 - (y + 3) / 4 == if y % 4 == 0 then 1 else 0
  {
  }

  lemma CenturyStep(y: int)
    ensures (y + 100) / 100 - (y + 99) / 100 == if y % 100 == 0 then 1 else 0
  {
  }

  lemma QuadCenturyStep(y: int)
    ensures (y + 400) / 400 - (y + 399) / 400 == if y % 400 == 0 then 1 else 0
  {
  }

  /** The month starts of year y follow the closed form of the Gregorian
      leap-year rule. */
  lemma {:induction false} YearStartClosedForm(y: int)
    ensures YearStart(y) == DaysBeforeYear(y)
    decreases if y >= 0 then y else -y
  {
    if y > 0 {
      YearStartClosedForm(y - 1);
      YearLength(y - 1);
    } else if y < 0 {
      YearStartClosedForm(y + 1);
      YearLength(y);
    }
  }

  /** The twelve months of year y add up to the length of the year. */
  lemma YearSpan(y: int)
    ensures MonthStart(12 * y + 12) - MonthStart(12 * y) == YearDays(y)
  {
    FirstHalf(y);
    SecondHalf(y);
  }

  /** January to June. */
  lemma FirstHalf(y: int)
    ensures MonthStart(12 * y + 6) - MonthStart(12 * y) == if IsLeapYear(y) then 182 else 181
  {
    var k := 12 * y;
    MonthStartStep(k + 0); MonthInYear(y, 0);
    MonthStartStep(k + 1); MonthInYear(y, 1);
    MonthStartStep(k + 2); MonthInYear(y, 2);
    MonthStartStep(k + 3); MonthInYear(y, 3);
    MonthStartStep(k + 4); MonthInYear(y, 4);
    MonthStartStep(k + 5); MonthInYear(y, 5);
  }

  /** July to December. */
  lemma SecondHalf(y: int)
    ensures MonthStart(12 * y + 12) - MonthStart(12 * y + 6) == 184
  {
    var k := 12 * y;
    MonthStartStep(k + 6); MonthInYear(y, 6);
    MonthStartStep(k + 7); MonthInYear(y, 7);
    MonthStartStep(k + 8); MonthInYear(y, 8);
    MonthStartStep(k + 9); MonthInYear(y, 9);
    MonthStartStep(k + 10); MonthInYear(y, 10);
    MonthStartStep(k + 11); MonthInYear(y, 11);
  }

  lemma MonthInYear(y: int, m: int)
    requires 0 <= m < 12
    ensures (12 * y + m) % 12 == m && (12 * y + m) / 12 == y
  {
  }

  lemma {:induction false} MonthStartIncreasing(k1: int, k2: int)
    requires k1 < k2
    ensures MonthStart(k1) + 28 * (k2 - k1) <= MonthStart(k2)
    decreases k2 - k1
  {
    MonthStartStep(k2 - 1);
    if k1 < k2 - 1 {
      MonthStartIncreasing(k1, k2 - 1);
    }
  }

  lemma {:induction false} MonthStartUpperBound(k: int)
    ensures k >= 0 ==> MonthStart(k) <= 31 * k
    ensures k < 0 ==> MonthStart(k) <= 28 * k
    decreases if k >= 0 then k else -k
  {
    if k > 0 {
      MonthStartUpperBound(k - 1);
    } else if k < 0 {
      MonthStartUpperBound(k + 1);
    }
  }

  /** The month containing day d, searched upwards from month k. */
  function MonthFrom(d: Date, k: int): (m: int)
    requires MonthStart(k) <= d
    ensures k <= m && MonthStart(m) <= d < MonthStart(m + 1)
    decreases d - MonthStart(k)
  {
    MonthStartStep(k);
    if d < MonthStart(k + 1) then k else MonthFrom(d, k + 1)
  }

  /** The month containing day d. */
  function MonthOf(d: Date): (m: int)
    ensures MonthStart(m) <= d < MonthStart(m + 1)
  {
    var k := if d >= 0 then d / 31 else d / 28;
    MonthStartUpperBound(k);
    MonthFrom(d, k)
  }

  /** A month is determined by any of its days. */
  lemma MonthOfUnique(d: Date, k: int)
    requires MonthStart(k) <= d < MonthStart(k + 1)
    ensures MonthOf(d) == k
  {
    var m := MonthOf(d);
    if m < k {
      if m + 1 < k { MonthStartIncreasing(m + 1, k); }
    } else if k < m {
      if k + 1 < m { MonthStartIncreasing(k + 1, m); }
    }
  }

  /** The year containing day d. */
  function YearOf(d: Date): (y: int)
    ensures YearStart(y) <= d < YearStart(y + 1)
  {
    var m := MonthOf(d);
    MonthWithinYear(m);
    YearStartIsJanuary(m / 12);
    YearStartIsJanuary(m / 12 + 1);
    m / 12
  }

  /** Month m lies inside year m / 12. */
  lemma MonthWithinYear(m: int)
    ensures MonthStart(12 * (m / 12)) <= MonthStart(m) && MonthStart(m + 1) <= MonthStart(12 * (m / 12 + 1))
  {
    var j := 12 * (m / 12);
    assert j <= m < j + 12 && 12 * (m / 12 + 1) == j + 12;
    MonthsBetween(j, m);
  }

  lemma MonthsBetween(j: int, m: int)
    requires j <= m < j + 12
    ensures MonthStart(j) <= MonthStart(m) && MonthStart(m + 1) <= MonthStart(j + 12)
  {
    if j < m { MonthStartIncreasing(j, m); }
    MonthsUpTo(m + 1, j + 12);
  }

  lemma MonthsUpTo(k1: int, k2: int)
    requires k1 <= k2
    ensures MonthStart(k1) <= MonthStart(k2)
  {
    if k1 < k2 { MonthStartIncreasing(k1, k2); }
  }

  lemma YearOfUnique(d: Date, y: int)
    requires YearStart(y) <= d < YearStart(y + 1)
    ensures YearOf(d) == y
  {
    var z := YearOf(d);
    YearStartIsJanuary(y);
    YearStartIsJanuary(y + 1);
    YearStartIsJanuary(z);
    YearStartIsJanuary(z + 1);
    if z < y {
      MonthStartIncreasing(12 * (z + 1), 12 * y);
    } else if y < z {
      MonthStartIncreasing(12 * (y + 1), 12 * z);
    }
  }

  /** The calibration of the day numbers against the Unix epoch:
      1970-01-01 is day 719528 and a Thursday. */
  lemma UnixEpoch()
    ensures YearStart(1970) == 719528 && Weekday(719528) == 3
  {
    YearStartClosedForm(1970);
  }
}
