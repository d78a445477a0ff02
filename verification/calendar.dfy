/** The proleptic Gregorian calendar behind month keys and loop schedules, in UTC microseconds. */
module Calendar {
  const DAY: int := 86_400_000_000

  /** Days from 0001-01-01 to 1970-01-01. */
  const EPOCH_DAYS: int := 719_162

  datatype YearMonth = YearMonth(year: int, month: int)

  predicate ValidMonth(m: YearMonth) {
    1 <= m.year && 1 <= m.month <= 12
  }

  predicate LeapYear(year: int) {
    year % 4 == 0 && (year % 100 != 0 || year % 400 == 0)
  }

  function DaysInMonth(m: YearMonth): int {
    if m.month == 2 then (if LeapYear(m.year) then 29 else 28)
    else if m.month == 4 || m.month == 6 || m.month == 9 || m.month == 11 then 30
    else 31
  }

  function DaysBeforeYear(year: int): int {
    365 * (year - 1) + (year - 1) / 4 - (year - 1) / 100 + (year - 1) / 400
  }

  function DaysBeforeMonth(m: YearMonth): int
    requires 1 <= m.month
    decreases m.month
  {
    if m.month == 1 then 0
    else DaysBeforeMonth(YearMonth(m.year, m.month - 1)) + DaysInMonth(YearMonth(m.year, m.month - 1))
  }

  /** Days from the epoch to the first day of a month. */
  function MonthDay(m: YearMonth): int
    requires ValidMonth(m)
  {
    DaysBeforeYear(m.year) + DaysBeforeMonth(m) - EPOCH_DAYS
  }

  /** Midnight UTC of the first day of a month. */
  function MonthStart(m: YearMonth): int
    requires ValidMonth(m)
  {
    MonthDay(m) * DAY
  }

  function NextMonth(m: YearMonth): (n: YearMonth)
    requires ValidMonth(m)
    ensures ValidMonth(n) && Index(n) == Index(m) + 1
  {
    YearMonth(if m.month == 12 then m.year + 1 else m.year, m.month % 12 + 1)
  }

  /** Months counted from year 0, the number `add_months` divides by twelve. */
  function Index(m: YearMonth): int {
    12 * m.year + m.month - 1
  }

  lemma {:induction false} YearLength(year: int)
    ensures DaysBeforeYear(year + 1) == DaysBeforeYear(year) + (if LeapYear(year) then 366 else 365)
  {
    StepQuotient(year, 4);
    StepQuotient(year, 100);
    StepQuotient(year, 400);
  }

  lemma {:induction false} StepQuotient(y: int, d: int)
    requires d > 1
    ensures y / d == (y - 1) / d + (if y % d == 0 then 1 else 0)
  {
    if y % d == 0 {
      assert y - 1 == d * (y / d - 1) + (d - 1);
      QuotientIs(y - 1, d, y / d - 1, d - 1);
    } else {
      assert y - 1 == d * (y / d) + (y % d - 1);
      QuotientIs(y - 1, d, y / d, y % d - 1);
    }
  }

  lemma {:induction false} MultipleBound(d: int, e: int)
    requires d > 0
    ensures e >= 1 ==> d * e >= d
    ensures e <= -1 ==> d * e <= -d
  {}

  lemma {:induction false} QuotientIs(n: int, d: int, q: int, r: int)
    requires d > 0 && n == d * q + r && 0 <= r < d
    ensures n / d == q && n % d == r
  {
    var e := n / d - q;
    assert n == d * (n / d) + n % d;
    assert d * e == r - n % d by { assert d * (n / d - q) == d * (n / d) - d * q; }
    MultipleBound(d, e);
  }

  lemma {:induction false} DaysBeforeDecember(year: int)
    ensures DaysBeforeMonth(YearMonth(year, 12)) == if LeapYear(year) then 335 else 334
  {
    hide LeapYear, DaysBeforeMonth;
    FirstMonth(year);
    for month := 1 to 12
      invariant DaysBeforeMonth(YearMonth(year, month)) ==
                [0, 31, 59, 90, 120, 151, 181, 212, 243, 273, 304, 334][month - 1] + if LeapYear(year) && month > 2 then 1 else 0
    {
      NextMonthStarts(year, month);
    }
  }

  lemma {:induction false} FirstMonth(year: int)
    ensures DaysBeforeMonth(YearMonth(year, 1)) == 0
  {}

  lemma {:induction false} NextMonthStarts(year: int, month: int)
    requires 1 <= month
    ensures DaysBeforeMonth(YearMonth(year, month + 1)) ==
              DaysBeforeMonth(YearMonth(year, month)) + DaysInMonth(YearMonth(year, month))
  {
    hide DaysInMonth;
  }

  /** Months tile time: each ends exactly where its successor starts. */
  lemma {:induction false} MonthsTile(m: YearMonth)
    requires ValidMonth(m)
    ensures MonthDay(NextMonth(m)) == MonthDay(m) + DaysInMonth(m)
    ensures MonthStart(NextMonth(m)) == MonthStart(m) + DaysInMonth(m) * DAY
    ensures MonthStart(m) < MonthStart(NextMonth(m))
  {
    if m.month == 12 {
      hide LeapYear, DaysBeforeYear;
      YearLength(m.year);
      DaysBeforeDecember(m.year);
    }
  }

  lemma {:induction false} MonthsIncrease(m: YearMonth, n: YearMonth)
    requires ValidMonth(m) && ValidMonth(n) && Index(m) < Index(n)
    ensures MonthStart(NextMonth(m)) <= MonthStart(n)
    ensures MonthDay(NextMonth(m)) <= MonthDay(n)
    decreases Index(n) - Index(m)
  {
    MonthsTile(m);
    if Index(NextMonth(m)) < Index(n) {
      MonthsIncrease(NextMonth(m), n);
      MonthsTile(NextMonth(m));
    } else {
      assert NextMonth(m) == n;
    }
  }

  /** The earliest representable instant. */
  const MIN_TIME: int := MonthStart(YearMonth(1, 1))

  /** The calendar month an instant falls in (`replace(day=1, hour=0, ...)`). */
  function MonthOf(t: int): (m: YearMonth)
    requires MIN_TIME <= t
    ensures ValidMonth(m) && MonthStart(m) <= t < MonthStart(NextMonth(m))
  {
    MonthFrom(YearMonth(1, 1), t)
  }

  function MonthFrom(m: YearMonth, t: int): (r: YearMonth)
    requires ValidMonth(m) && MonthStart(m) <= t
    ensures ValidMonth(r) && MonthStart(r) <= t < MonthStart(NextMonth(r))
    decreases t - MonthStart(m)
  {
    MonthsTile(m);
    if t < MonthStart(NextMonth(m)) then m else MonthFrom(NextMonth(m), t)
  }

  lemma {:induction false} MonthUnique(m: YearMonth, t: int)
    requires ValidMonth(m) && MonthStart(m) <= t < MonthStart(NextMonth(m))
    requires MIN_TIME <= t
    ensures MonthOf(t) == m
  {
    hide MonthStart, MonthOf, NextMonth, Index;
    var n := MonthOf(t);
    if Index(n) < Index(m) {
      MonthsIncrease(n, m);
    } else if Index(m) < Index(n) {
      MonthsIncrease(m, n);
    } else {
      SameIndex(m, n);
    }
  }

  lemma {:induction false} SameIndex(m: YearMonth, n: YearMonth)
    requires ValidMonth(m) && ValidMonth(n) && Index(m) == Index(n)
    ensures m == n
  {}

  /** Midnight UTC of the day an instant falls in. */
  function Midnight(t: int): (d: int)
    ensures d <= t < d + DAY && d % DAY == 0
  {
    t - t % DAY
  }
}
