/** The proleptic Gregorian calendar behind event dates: dates, day numbers,
    weekdays and the arithmetic between them. Years are unbounded here. */
module Calendar {

  datatype Date = Date(year: int, month: int, day: int)

  predicate LeapYear(year: int) {
    year % 4 == 0 && (year % 100 != 0 || year % 400 == 0)
  }

  function DaysInMonth(year: int, month: int): (n: int)
    requires 1 <= month <= 12
    ensures 28 <= n <= 31
  {
    if month == 2 then (if LeapYear(year) then 29 else 28)
    else if month == 4 || month == 6 || month == 9 || month == 11 then 30
    else 31
  }

  predicate Valid(d: Date) {
    1 <= d.month <= 12 && 1 <= d.day <= DaysInMonth(d.year, d.month)
  }

  function YearLength(year: int): int { if LeapYear(year) then 366 else 365 }

  /** Days from 1 January of year 1 to 1 January of the year. */
  function DaysBeforeYear(year: int): int
    decreases if year >= 1 then year else 2 - year
  {
    if year == 1 then 0
    else if year > 1 then DaysBeforeYear(year - 1) + YearLength(year - 1)
    else DaysBeforeYear(year + 1) - YearLength(year)
  }

  /** Days of the year before the month. */
  function DaysBeforeMonth(year: int, month: int): int
    requires 1 <= month <= 12
  {
    if month == 1 then 0 else DaysBeforeMonth(year, month - 1) + DaysInMonth(year, month - 1)
  }

  // ----- Months -----

  /** Months numbered consecutively through the years. */
  function MonthNumber(d: Date): int
    requires Valid(d)
  {
    12 * d.year + d.month - 1
  }

  function YearOf(n: int): int { n / 12 }

  function MonthOf(n: int): (m: int)
    ensures 1 <= m <= 12
  {
    n % 12 + 1
  }

  function MonthLength(n: int): (days: int)
    ensures 28 <= days <= 31
  {
    DaysInMonth(YearOf(n), MonthOf(n))
  }

  /** The day number of the first of a month. */
  function MonthStart(n: int): int {
    DaysBeforeYear(YearOf(n)) + DaysBeforeMonth(YearOf(n), MonthOf(n)) + 1
  }

  /** The day number of a date; day 1 is 1 January of year 1. */
  function Ordinal(d: Date): int
    requires Valid(d)
  {
    MonthStart(MonthNumber(d)) + d.day - 1
  }

  lemma YearStep(year: int)
    ensures DaysBeforeYear(year + 1) == DaysBeforeYear(year) + YearLength(year)
  {
  }

  lemma MonthTable(year: int)
    ensures DaysBeforeMonth(year, 3) == YearLength(year) - 306
    ensures DaysBeforeMonth(year, 6) == YearLength(year) - 214
    ensures DaysBeforeMonth(year, 9) == YearLength(year) - 122
    ensures DaysBeforeMonth(year, 12) == YearLength(year) - 31
  {
    assert DaysBeforeMonth(year, 2) == 31;
    assert DaysBeforeMonth(year, 4) == DaysBeforeMonth(year, 3) + 31;
    assert DaysBeforeMonth(year, 5) == DaysBeforeMonth(year, 3) + 61;
    assert DaysBeforeMonth(year, 7) == DaysBeforeMonth(year, 6) + 30;
    assert DaysBeforeMonth(year, 8) == DaysBeforeMonth(year, 6) + 61;
    assert DaysBeforeMonth(year, 10) == DaysBeforeMonth(year, 9) + 30;
    assert DaysBeforeMonth(year, 11) == DaysBeforeMonth(year, 9) + 61;
  }

  /** The next month starts where this one ends. */
  lemma MonthStep(n: int)
    ensures MonthStart(n + 1) == MonthStart(n) + MonthLength(n)
  {
    if MonthOf(n) == 12 {
      assert YearOf(n + 1) == YearOf(n) + 1 && MonthOf(n + 1) == 1;
      YearStep(YearOf(n));
      MonthTable(YearOf(n));
    } else {
      assert YearOf(n + 1) == YearOf(n) && MonthOf(n + 1) == MonthOf(n) + 1;
    }
  }

  // ----- Closed form of the years -----

  lemma MultipleOfFour(x: int)
    ensures 4 * x % 4 == 0
  {
  }

  lemma MultipleOfHundred(x: int)
    ensures 100 * x % 100 == 0
  {
  }

  lemma DivisorsOfYears(year: int)
    ensures (year % 100 == 0 ==> year % 4 == 0) && (year % 400 == 0 ==> year % 100 == 0)
  {
    if year % 100 == 0 { MultipleOfFour(25 * (year / 100)); }
    if year % 400 == 0 { MultipleOfHundred(4 * (year / 400)); }
  }

  lemma QuotientStep(n: int, d: int)
    requires d == 4 || d == 100 || d == 400
    ensures n / d == (n - 1) / d + (if n % d == 0 then 1 else 0)
  {
  }

  lemma LeapDays(year: int)
    ensures var p := year - 1;
      year / 4 - year / 100 + year / 400 == p / 4 - p / 100 + p / 400 + YearLength(year) - 365
  {
    QuotientStep(year, 4);
    QuotientStep(year, 100);
    QuotientStep(year, 400);
    DivisorsOfYears(year);
  }

  /** A leap day every 4 years, not every 100, but every 400. */
  lemma {:induction false} DaysBeforeYearClosed(year: int)
    ensures var p := year - 1; DaysBeforeYear(year) == p * 365 + p / 4 - p / 100 + p / 400
    decreases if year >= 1 then year else 2 - year
  {
    if year > 1 {
      DaysBeforeYearClosed(year - 1);
      LeapDays(year - 1);
    } else if year < 1 {
      DaysBeforeYearClosed(year + 1);
      LeapDays(year);
    }
  }

  /** A sequence of starting days that moves forward. */
  ghost predicate Ascending(start: int -> int) {
    forall i, j :: j == i + 1 ==> start(i) < start(j)
  }

  lemma {:induction false} AscendingInOrder(start: int -> int, a: int, b: int)
    requires Ascending(start) && a < b
    ensures start(a + 1) <= start(b)
    decreases b - a
  {
    if a < b - 1 {
      AscendingInOrder(start, a, b - 1);
      assert start(b - 1) < start(b);
    }
  }

  function MonthStarts(): int -> int { n => MonthStart(n) }

  lemma MonthsAscend()
    ensures Ascending(MonthStarts())
  {
    forall i, j | j == i + 1 ensures MonthStarts()(i) < MonthStarts()(j) {
      MonthStep(i);
    }
  }

  lemma MonthsInOrder(a: int, b: int)
    requires a < b
    ensures MonthStart(a) + MonthLength(a) <= MonthStart(b)
  {
    MonthsAscend();
    AscendingInOrder(MonthStarts(), a, b);
    assert MonthStarts()(a + 1) == MonthStart(a + 1) && MonthStarts()(b) == MonthStart(b);
    MonthStep(a);
  }

  predicate InMonth(o: int, n: int) { MonthStart(n) <= o < MonthStart(n) + MonthLength(n) }

  lemma MonthUnique(o: int, a: int, b: int)
    requires InMonth(o, a) && InMonth(o, b)
    ensures a == b
  {
    if a < b { MonthsInOrder(a, b); }
    if b < a { MonthsInOrder(b, a); }
  }

  lemma OrdinalInMonth(d: Date)
    requires Valid(d)
    ensures YearOf(MonthNumber(d)) == d.year && MonthOf(MonthNumber(d)) == d.month
    ensures Ordinal(d) == MonthStart(MonthNumber(d)) + d.day - 1 && InMonth(Ordinal(d), MonthNumber(d))
  {
  }

  // ----- Dates from day numbers -----

  /** The interval a day falls in, searched from a guess. */
  function Locate(start: int -> int, o: int, guess: int): (n: int)
    requires Ascending(start)
    ensures start(n) <= o < start(n + 1)
    decreases if o < start(guess) then 1 else 0, if o < start(guess) then start(guess) - o else o - start(guess)
  {
    if o < start(guess) then
      assert start(guess - 1) < start(guess);
      Locate(start, o, guess - 1)
    else if o >= start(guess + 1) then
      assert start(guess) < start(guess + 1);
      Locate(start, o, guess + 1)
    else guess
  }

  function MonthContaining(o: int): int {
    MonthsAscend();
    Locate(MonthStarts(), o, 0)
  }

  lemma MonthContains(o: int)
    ensures InMonth(o, MonthContaining(o))
  {
    MonthsAscend();
    var n := Locate(MonthStarts(), o, 0);
    assert MonthStarts()(n) == MonthStart(n) && MonthStarts()(n + 1) == MonthStart(n + 1);
    MonthStep(n);
  }

  function DateOf(n: int, day: int): Date { Date(YearOf(n), MonthOf(n), day) }

  function OnDay(o: int): Date {
    var n := MonthContaining(o);
    DateOf(n, o - MonthStart(n) + 1)
  }

  /** Dates and day numbers correspond one to one. */
  lemma OnDayOrdinal(o: int)
    ensures Valid(OnDay(o)) && Ordinal(OnDay(o)) == o
  {
    var n := MonthContaining(o);
    MonthContains(o);
    assert MonthNumber(OnDay(o)) == n;
    OrdinalInMonth(OnDay(o));
  }

  lemma OrdinalOnDay(d: Date)
    requires Valid(d)
    ensures OnDay(Ordinal(d)) == d
  {
    OrdinalInMonth(d);
    MonthContains(Ordinal(d));
    MonthUnique(Ordinal(d), MonthNumber(d), MonthContaining(Ordinal(d)));
  }

  lemma OrdinalInjective(d: Date, e: Date)
    requires Valid(d) && Valid(e) && Ordinal(d) == Ordinal(e)
    ensures d == e
  {
    OrdinalOnDay(d);
    OrdinalOnDay(e);
  }

  /** Dates compare by year, then month, then day. */
  predicate Before(d: Date, e: Date) {
    d.year < e.year || (d.year == e.year && (d.month < e.month || (d.month == e.month && d.day < e.day)))
  }

  /** That order is the order of the day numbers. */
  lemma BeforeIsEarlier(d: Date, e: Date)
    requires Valid(d) && Valid(e)
    ensures Before(d, e) <==> Ordinal(d) < Ordinal(e)
  {
    OrdinalInMonth(d);
    OrdinalInMonth(e);
    if MonthNumber(d) < MonthNumber(e) { MonthsInOrder(MonthNumber(d), MonthNumber(e)); }
    if MonthNumber(e) < MonthNumber(d) { MonthsInOrder(MonthNumber(e), MonthNumber(d)); }
  }

  function AddDays(d: Date, n: int): Date
    requires Valid(d)
  {
    OnDay(Ordinal(d) + n)
  }

  /** The weekday of a day number; Monday is 0. */
  function WeekdayNumber(o: int): (w: int)
    ensures 0 <= w <= 6
  {
    (o + 6) % 7
  }

  function Weekday(d: Date): (w: int)
    requires Valid(d)
    ensures 0 <= w <= 6
  {
    WeekdayNumber(Ordinal(d))
  }
}
