/** Recurring event dates: what it means for a date to fit a rule, and the nth
    weekday of a month.

    Interval rules are anchored at the reference date itself. Yearly rules have no
    interval. */
module Recurrence {
  import opened Basics
  import opened Calendar

  /** A recurrence rule; a one-off rule holds its parsed date. */
  datatype Rule =
    | Once(date: Option<Date>)
    | Weekly(weekdays: Option<seq<int>>, weekday: Option<int>, interval: int)
    | Monthly(monthDay: Option<int>, weekday: Option<int>, nth: int, interval: int)
    | Yearly(month: Option<int>, monthDay: Option<int>, weekday: Option<int>, nth: int)

  const MONTH_WINDOW: int := 240
  const YEAR_WINDOW: int := 40

  // ----- Fitting a rule -----

  function AtLeastOne(interval: int): (n: int)
    ensures n >= 1
  {
    if interval > 1 then interval else 1
  }

  function WeekdaysOf(rule: Rule): seq<int>
    requires rule.Weekly?
  {
    if rule.weekdays.Some? then rule.weekdays.value
    else if rule.weekday.Some? then [rule.weekday.value] else []
  }

  /** The nth such weekday of its month; any negative nth means the last one. */
  predicate IsNthWeekday(weekday: int, nth: int, d: Date)
    requires Valid(d)
  {
    && Weekday(d) == weekday
    && (if nth > 0 then 7 * (nth - 1) < d.day <= 7 * nth
        else nth < 0 && d.day + 7 > DaysInMonth(d.year, d.month))
  }

  /** A day of the month takes precedence over a weekday. */
  predicate DayFits(monthDay: Option<int>, weekday: Option<int>, nth: int, d: Date)
    requires Valid(d)
  {
    if monthDay.Some? then d.day == monthDay.value
    else weekday.Some? && IsNthWeekday(weekday.value, nth, d)
  }

  function WeeksBetween(d: Date, e: Date): int
    requires Valid(d) && Valid(e)
  {
    (Ordinal(e) - Ordinal(d)) / 7
  }

  /** Whole intervals; anything below one counts as one. */
  predicate InPhase(interval: int, count: int) { count % AtLeastOne(interval) == 0 }

  /** On or after the reference and fitting the rule as anchored there. */
  predicate Fits(rule: Rule, reference: Date, d: Date)
    requires Valid(reference)
  {
    Valid(d) && Ordinal(reference) <= Ordinal(d) &&
    match rule
    case Once(_) => false
    case Weekly(_, _, interval) =>
      && Weekday(d) in WeekdaysOf(rule)
      && InPhase(interval, WeeksBetween(reference, d))
    case Monthly(monthDay, weekday, nth, interval) =>
      && InPhase(interval, MonthNumber(d) - MonthNumber(reference))
      && DayFits(monthDay, weekday, nth, d)
    case Yearly(month, monthDay, weekday, nth) =>
      month == Some(d.month) && DayFits(monthDay, weekday, nth, d)
  }

  /** The part of the future the search looks at. */
  predicate InWindow(rule: Rule, reference: Date, d: Date)
    requires Valid(reference) && Valid(d)
  {
    match rule
    case Monthly(_, _, _, _) => MonthNumber(d) - MonthNumber(reference) < MONTH_WINDOW
    case Yearly(_, _, _, _) => d.year - reference.year < YEAR_WINDOW
    case _ => true
  }

  ghost predicate IsFirst(rule: Rule, reference: Date, d: Date)
    requires Valid(reference)
  {
    Fits(rule, reference, d) && forall e :: Fits(rule, reference, e) ==> Ordinal(d) <= Ordinal(e)
  }

  lemma {:induction false} FirstExists(rule: Rule, reference: Date, d: Date) returns (first: Date)
    requires Valid(reference) && Fits(rule, reference, d)
    ensures IsFirst(rule, reference, first) && Ordinal(first) <= Ordinal(d)
    decreases Ordinal(d) - Ordinal(reference)
  {
    if e: Date :| Fits(rule, reference, e) && Ordinal(e) < Ordinal(d) {
      first := FirstExists(rule, reference, e);
    } else {
      first := d;
    }
  }

  lemma FirstUnique(rule: Rule, reference: Date, d: Date, e: Date)
    requires Valid(reference) && IsFirst(rule, reference, d) && IsFirst(rule, reference, e)
    ensures d == e
  {
    OrdinalInjective(d, e);
  }

  /** An earlier date is in the window too. */
  lemma WindowClosed(rule: Rule, reference: Date, d: Date, e: Date)
    requires Valid(reference) && Valid(d) && Valid(e) && InWindow(rule, reference, d) && Ordinal(e) <= Ordinal(d)
    ensures InWindow(rule, reference, e)
  {
    BeforeIsEarlier(d, e);
  }

  /** The next occurrence: the first fitting date of all, if it is in the window. */
  ghost function Next(rule: Rule, reference: Date): (r: Option<Date>)
    requires Valid(reference)
    ensures rule.Once? ==> r == rule.date
    ensures !rule.Once? && r.Some? ==> IsFirst(rule, reference, r.value) && InWindow(rule, reference, r.value)
    ensures !rule.Once? && r.None? ==> !exists d :: Fits(rule, reference, d) && InWindow(rule, reference, d)
  {
    if rule.Once? then rule.date
    else if exists d :: Fits(rule, reference, d) && InWindow(rule, reference, d) then
      assert exists d :: IsFirst(rule, reference, d) && InWindow(rule, reference, d) by {
        var d :| Fits(rule, reference, d) && InWindow(rule, reference, d);
        var first := FirstExists(rule, reference, d);
        WindowClosed(rule, reference, d, first);
      }
      var d :| IsFirst(rule, reference, d) && InWindow(rule, reference, d);
      Some(d)
    else None
  }

  lemma NextIs(rule: Rule, reference: Date, d: Date)
    requires Valid(reference) && IsFirst(rule, reference, d) && InWindow(rule, reference, d)
    ensures Next(rule, reference) == Some(d)
  {
    assert !rule.Once?;
    FirstUnique(rule, reference, d, Next(rule, reference).value);
  }

  /** Whatever date the search returns, searching from it returns it again. */
  lemma NextIsFixed(rule: Rule, reference: Date)
    requires Valid(reference) && Next(rule, reference).Some? && Valid(Next(rule, reference).value)
    ensures Next(rule, Next(rule, reference).value) == Next(rule, reference)
  {
    if !rule.Once? {
      var d := Next(rule, reference).value;
      assert Fits(rule, d, d);
      NextIs(rule, d, d);
    }
  }

  // ----- The nth weekday of a month -----

  /** Days from the first of the month to the candidate of a positive nth.
      Python's remainder by 7 is never negative, like Dafny's. */
  function Offset(n: int, weekday: int, nth: int): int {
    (weekday - WeekdayNumber(MonthStart(n))) % 7 + (nth - 1) * 7
  }

  /** The day number of the last of a month. */
  function MonthEnd(n: int): int { MonthStart(n) + MonthLength(n) - 1 }

  /** Days back from the last of the month. */
  function BackOffset(n: int, weekday: int): int {
    (WeekdayNumber(MonthEnd(n)) - weekday) % 7
  }

  function NthCandidate(n: int, weekday: int, nth: int): Date {
    if nth > 0 then OnDay(MonthStart(n) + Offset(n, weekday, nth)) else OnDay(MonthEnd(n) - BackOffset(n, weekday))
  }

  function NthWeekdayOfMonth(n: int, weekday: int, nth: int): Option<Date> {
    if !(0 <= weekday <= 6) || nth == 0 then None
    else
      var candidate := NthCandidate(n, weekday, nth);
      if candidate.month == MonthOf(n) then Some(candidate) else None
  }

  lemma DayOfMonth(n: int, k: int)
    requires 0 <= k < MonthLength(n)
    ensures OnDay(MonthStart(n) + k) == DateOf(n, k + 1) && Valid(DateOf(n, k + 1))
    ensures MonthNumber(DateOf(n, k + 1)) == n && Ordinal(DateOf(n, k + 1)) == MonthStart(n) + k
  {
    OrdinalInMonth(DateOf(n, k + 1));
    OrdinalOnDay(DateOf(n, k + 1));
  }

  lemma DayAt(n: int, day: int, o: int)
    requires 1 <= day <= MonthLength(n) && o == MonthStart(n) + day - 1
    ensures OnDay(o) == DateOf(n, day) && Valid(DateOf(n, day)) && MonthNumber(DateOf(n, day)) == n
  {
    DayOfMonth(n, day - 1);
  }

  /** The day of a month starting on day number `start` is the nth weekday `w`. */
  predicate NthOn(start: int, w: int, nth: int, day: int) {
    WeekdayNumber(start + day - 1) == w && 7 * (nth - 1) < day <= 7 * nth
  }

  /** Weekday arithmetic on plain day numbers. */
  lemma NthByDay(start: int, w: int, nth: int, k: int, day: int)
    requires 0 <= w <= 6 && nth > 0 && day >= 1 && k == (w - WeekdayNumber(start)) % 7 + (nth - 1) * 7
    ensures k >= 0
    ensures NthOn(start, w, nth, day) <==> day == k + 1
  {
    assert WeekdayNumber(start) == start + 6 - (start + 6) / 7 * 7;
    assert start + k + 6 == w + 7 * ((nth - 1) + (start + 6) / 7 - (w - WeekdayNumber(start)) / 7);
    assert (start + k + 6) % 7 == w;
    assert 7 * (nth - 1) <= k < 7 * nth;
  }

  lemma WeekdayInMonth(n: int, d: Date)
    requires Valid(d) && MonthNumber(d) == n
    ensures Weekday(d) == WeekdayNumber(MonthStart(n) + d.day - 1)
  {
    OrdinalInMonth(d);
  }

  lemma NthInMonth(n: int, w: int, nth: int, d: Date)
    requires nth > 0 && Valid(d) && MonthNumber(d) == n
    ensures IsNthWeekday(w, nth, d) <==> NthOn(MonthStart(n), w, nth, d.day)
  {
    WeekdayInMonth(n, d);
  }

  /** A positive nth whose candidate stays in the month gives the nth weekday of the month. */
  lemma PositiveInMonth(n: int, w: int, nth: int, d: Date)
    requires 0 <= w <= 6 && nth > 0 && Valid(d) && MonthNumber(d) == n
    ensures IsNthWeekday(w, nth, d) <==> d.day == Offset(n, w, nth) + 1
  {
    NthInMonth(n, w, nth, d);
    NthByDay(MonthStart(n), w, nth, Offset(n, w, nth), d.day);
  }

  lemma FromMonthEnd(n: int, w: int, nth: int, d: Date, back: int)
    requires nth < 0 && Valid(d) && MonthNumber(d) == n && back == MonthLength(n) - d.day
    ensures back >= 0
    ensures IsNthWeekday(w, nth, d) <==> WeekdayNumber(MonthEnd(n) - back) == w && back < 7
  {
    WeekdayInMonth(n, d);
    OrdinalInMonth(d);
  }

  lemma NegativeInMonth(n: int, w: int, nth: int, d: Date)
    requires 0 <= w <= 6 && nth < 0 && Valid(d) && MonthNumber(d) == n
    ensures IsNthWeekday(w, nth, d) <==> d.day == MonthLength(n) - BackOffset(n, w)
  {
    FromMonthEnd(n, w, nth, d, MonthLength(n) - d.day);
    LastWeekday(MonthEnd(n), w, MonthLength(n) - d.day);
  }

  lemma LastWeekday(last: int, w: int, back: int)
    requires 0 <= w <= 6 && back >= 0
    ensures WeekdayNumber(last - back) == w && back < 7 <==> back == (WeekdayNumber(last) - w) % 7
  {
    assert WeekdayNumber(last) == last + 6 - (last + 6) / 7 * 7;
    assert last - back + 6 == WeekdayNumber(last) - back + 7 * ((last + 6) / 7);
  }

  /** The candidate of a positive nth falls into the same month of a later year. */
  predicate LandsLater(n: int, weekday: int, nth: int) {
    && 0 <= weekday <= 6 && nth > 0
    && NthCandidate(n, weekday, nth).month == MonthOf(n) && NthCandidate(n, weekday, nth).year != YearOf(n)
  }

  /** `r` is the date of month `n` that is its nth weekday, if there is one. */
  ghost predicate IsNthOf(n: int, weekday: int, nth: int, r: Option<Date>) {
    forall d :: Valid(d) ==> (r == Some(d) <==> MonthNumber(d) == n && IsNthWeekday(weekday, nth, d))
  }

  /** The weekdays counted from are those of the first and the last of the month. */
  lemma FirstAndLast(n: int)
    ensures Valid(DateOf(n, 1)) && Weekday(DateOf(n, 1)) == WeekdayNumber(MonthStart(n))
    ensures Valid(DateOf(n, MonthLength(n))) && Weekday(DateOf(n, MonthLength(n))) == WeekdayNumber(MonthEnd(n))
  {
    DayOfMonth(n, 0);
    DayOfMonth(n, MonthLength(n) - 1);
  }

  lemma BackOffsetNatural(n: int, weekday: int)
    ensures 0 <= BackOffset(n, weekday) <= 6
  {
    RemainderNatural(WeekdayNumber(MonthEnd(n)) - weekday);
  }

  lemma NegativeCandidate(n: int, weekday: int, nth: int, day: int)
    requires nth < 0 && day == MonthLength(n) - BackOffset(n, weekday)
    ensures NthCandidate(n, weekday, nth) == DateOf(n, day) && Valid(DateOf(n, day)) && MonthNumber(DateOf(n, day)) == n
  {
    BackOffsetNatural(n, weekday);
    var o := MonthEnd(n) - BackOffset(n, weekday);
    assert NthCandidate(n, weekday, nth) == OnDay(o);
    DayAt(n, day, o);
  }

  lemma NthNegativeCorrect(n: int, weekday: int, nth: int)
    requires 0 <= weekday <= 6 && nth < 0
    ensures IsNthOf(n, weekday, nth, NthWeekdayOfMonth(n, weekday, nth))
  {
    var day := MonthLength(n) - BackOffset(n, weekday);
    NegativeCandidate(n, weekday, nth, day);
    forall d | Valid(d)
      ensures d == DateOf(n, day) <==> MonthNumber(d) == n && IsNthWeekday(weekday, nth, d)
    {
      OrdinalInMonth(d);
      if MonthNumber(d) == n { NegativeInMonth(n, weekday, nth, d); }
    }
  }

  lemma OffsetNatural(n: int, weekday: int, nth: int)
    requires nth > 0
    ensures Offset(n, weekday, nth) >= 0
  {
    RemainderNatural(weekday - WeekdayNumber(MonthStart(n)));
  }

  lemma RemainderNatural(x: int)
    ensures 0 <= x % 7 <= 6
  {
  }

  lemma PositiveCandidate(n: int, weekday: int, nth: int)
    requires nth > 0
    ensures Offset(n, weekday, nth) >= 0 && Valid(NthCandidate(n, weekday, nth))
    ensures Ordinal(NthCandidate(n, weekday, nth)) == MonthStart(n) + Offset(n, weekday, nth)
  {
    OffsetNatural(n, weekday, nth);
    OnDayOrdinal(MonthStart(n) + Offset(n, weekday, nth));
  }

  lemma CandidateOn(n: int, weekday: int, nth: int, m: int, day: int)
    requires nth > 0 && 1 <= day <= MonthLength(m) && MonthStart(n) + Offset(n, weekday, nth) == MonthStart(m) + day - 1
    ensures NthCandidate(n, weekday, nth) == DateOf(m, day) && Valid(DateOf(m, day)) && MonthNumber(DateOf(m, day)) == m
  {
    var o := MonthStart(n) + Offset(n, weekday, nth);
    assert NthCandidate(n, weekday, nth) == OnDay(o);
    DayAt(m, day, o);
  }

  lemma OnlyOnDay(n: int, weekday: int, nth: int, day: int)
    requires 0 <= weekday <= 6 && nth > 0 && day == Offset(n, weekday, nth) + 1
    ensures IsNthOf(n, weekday, nth, Some(DateOf(n, day)))
  {
    forall d | Valid(d)
      ensures d == DateOf(n, day) <==> MonthNumber(d) == n && IsNthWeekday(weekday, nth, d)
    {
      OrdinalInMonth(d);
      if MonthNumber(d) == n { PositiveInMonth(n, weekday, nth, d); }
    }
  }

  lemma WithinMonth(n: int, weekday: int, nth: int)
    requires 0 <= weekday <= 6 && nth > 0 && Offset(n, weekday, nth) < MonthLength(n)
    ensures !LandsLater(n, weekday, nth) && IsNthOf(n, weekday, nth, NthWeekdayOfMonth(n, weekday, nth))
  {
    OffsetNatural(n, weekday, nth);
    CandidateOn(n, weekday, nth, n, Offset(n, weekday, nth) + 1);
    OnlyOnDay(n, weekday, nth, Offset(n, weekday, nth) + 1);
  }

  lemma BeyondMonth(n: int, weekday: int, nth: int)
    requires 0 <= weekday <= 6 && nth > 0 && Offset(n, weekday, nth) >= MonthLength(n)
    ensures forall d :: Valid(d) && MonthNumber(d) == n ==> !IsNthWeekday(weekday, nth, d)
    ensures NthWeekdayOfMonth(n, weekday, nth).Some? <==> LandsLater(n, weekday, nth)
    ensures NthWeekdayOfMonth(n, weekday, nth).Some? ==> Valid(NthWeekdayOfMonth(n, weekday, nth).value)
  {
    PositiveCandidate(n, weekday, nth);
    var candidate := NthCandidate(n, weekday, nth);
    OrdinalInMonth(candidate);
    assert MonthNumber(candidate) != n;
    forall d | Valid(d) && MonthNumber(d) == n ensures !IsNthWeekday(weekday, nth, d) {
      OrdinalInMonth(d);
      PositiveInMonth(n, weekday, nth, d);
    }
  }

  lemma NthPositiveCorrect(n: int, weekday: int, nth: int)
    requires 0 <= weekday <= 6 && nth > 0
    ensures IsNthOf(n, weekday, nth, NthWeekdayOfMonth(n, weekday, nth)) <==> !LandsLater(n, weekday, nth)
  {
    if Offset(n, weekday, nth) < MonthLength(n) {
      WithinMonth(n, weekday, nth);
    } else {
      BeyondMonth(n, weekday, nth);
    }
  }

  /** The computed date is the nth weekday of the month exactly unless the
      candidate lands in the same month of a later year. */
  lemma NthWeekdayCorrect(n: int, weekday: int, nth: int)
    ensures IsNthOf(n, weekday, nth, NthWeekdayOfMonth(n, weekday, nth)) <==> !LandsLater(n, weekday, nth)
  {
    if 0 <= weekday <= 6 && nth > 0 {
      NthPositiveCorrect(n, weekday, nth);
    } else if 0 <= weekday <= 6 && nth < 0 {
      NthNegativeCorrect(n, weekday, nth);
    }
  }

  /** The same month of the next year starts at least 365 days later. */
  lemma YearApart(n: int)
    ensures MonthStart(n + 12) >= MonthStart(n) + 365
  {
    assert YearOf(n + 12) == YearOf(n) + 1 && MonthOf(n + 12) == MonthOf(n);
    YearStep(YearOf(n));
    MonthDrift(YearOf(n), MonthOf(n));
  }

  /** From year to year, the days before a month differ by the leap days only. */
  lemma {:induction false} MonthDrift(year: int, month: int)
    requires 1 <= month <= 12
    ensures DaysBeforeMonth(year + 1, month) + YearLength(year) >= DaysBeforeMonth(year, month) + 365
    ensures month <= 2 ==> DaysBeforeMonth(year + 1, month) == DaysBeforeMonth(year, month)
    ensures month > 2 ==>
      DaysBeforeMonth(year + 1, month) + YearLength(year) == DaysBeforeMonth(year, month) + YearLength(year + 1)
    decreases month
  {
    if month > 1 { MonthDrift(year, month - 1); }
  }

  const LARGEST_SAFE_NTH: int := 52

  lemma MonthWithinYear(o: int, n: int, m: int)
    requires InMonth(o, m) && MonthStart(n) <= o < MonthStart(n) + 365
    ensures n <= m < n + 12
  {
    YearApart(n);
    if m < n { MonthsInOrder(m, n); }
    if m > n + 12 { MonthsInOrder(n + 12, m); }
  }

  lemma SameMonthSameYear(d: Date, n: int)
    requires Valid(d) && n <= MonthNumber(d) < n + 12 && d.month == MonthOf(n)
    ensures d.year == YearOf(n)
  {
  }

  lemma OffsetBelow(n: int, weekday: int, nth: int)
    requires nth <= LARGEST_SAFE_NTH
    ensures Offset(n, weekday, nth) < 365
  {
    RemainderNatural(weekday - WeekdayNumber(MonthStart(n)));
  }

  /** Up to 52 weeks never reach the same month of the next year. */
  lemma SmallNthStays(n: int, weekday: int, nth: int)
    requires nth <= LARGEST_SAFE_NTH
    ensures !LandsLater(n, weekday, nth)
  {
    if nth > 0 {
      var candidate := NthCandidate(n, weekday, nth);
      PositiveCandidate(n, weekday, nth);
      OffsetBelow(n, weekday, nth);
      OrdinalInMonth(candidate);
      MonthWithinYear(Ordinal(candidate), n, MonthNumber(candidate));
      if candidate.month == MonthOf(n) { SameMonthSameYear(candidate, n); }
    }
  }

  lemma MondayOffset(n: int, w: int, nth: int)
    requires WeekdayNumber(MonthStart(n)) == 6 && w == 0 && nth == 53
    ensures Offset(n, w, nth) == 365
  {
  }

  lemma YearLater(n: int)
    ensures MonthOf(n + 12) == MonthOf(n) && YearOf(n + 12) == YearOf(n) + 1
  {
  }

  /** Where a month starts on a Sunday and the same month of the next year 365
      days later, the month has no 53rd Monday; a date of the later one is given. */
  lemma LargeNthLands(n: int)
    requires WeekdayNumber(MonthStart(n)) == 6 && MonthStart(n + 12) == MonthStart(n) + 365
    ensures NthWeekdayOfMonth(n, 0, 53) == Some(DateOf(n + 12, 1)) && LandsLater(n, 0, 53)
  {
    MondayOffset(n, 0, 53);
    CandidateOn(n, 0, 53, n + 12, 1);
    YearLater(n);
  }

  lemma DaysBefore2023(year: int)
    requires year == 2023
    ensures DaysBeforeYear(year) == 738520 && !LeapYear(year)
  {
    DaysBeforeYearClosed(year);
  }

  lemma JanuaryStart(n: int)
    requires MonthOf(n) == 1
    ensures MonthStart(n) == DaysBeforeYear(YearOf(n)) + 1
  {
  }

  /** January 2023 is such a month. */
  lemma January2023(n: int)
    requires n == 12 * 2023
    ensures WeekdayNumber(MonthStart(n)) == 6 && MonthStart(n + 12) == MonthStart(n) + 365
  {
    assert YearOf(n) == 2023 && MonthOf(n) == 1;
    YearLater(n);
    JanuaryStart(n);
    JanuaryStart(n + 12);
    DaysBefore2023(YearOf(n));
    YearStep(YearOf(n));
  }

  // ----- Searching -----

  /** The candidate of one month. */
  function MonthCandidate(n: int, monthDay: Option<int>, weekday: Option<int>, nth: int): Option<Date> {
    if monthDay.Some? then
      if 1 <= monthDay.value <= MonthLength(n) then Some(DateOf(n, monthDay.value)) else None
    else if weekday.Some? then NthWeekdayOfMonth(n, weekday.value, nth)
    else None
  }

  /** The day of month `n` a rule names, which may lie outside the month; 0 for none. */
  function FittingDay(monthDay: Option<int>, weekday: Option<int>, nth: int, n: int): int {
    if monthDay.Some? then monthDay.value
    else if weekday.None? || !(0 <= weekday.value <= 6) || nth == 0 then 0
    else if nth > 0 then Offset(n, weekday.value, nth) + 1
    else MonthLength(n) - BackOffset(n, weekday.value)
  }

  /** Month `n` has the day a rule names. */
  predicate Room(monthDay: Option<int>, weekday: Option<int>, nth: int, n: int) {
    1 <= FittingDay(monthDay, weekday, nth, n) <= MonthLength(n)
  }

  /** A date of the month fits exactly when it falls on that day. */
  lemma FittingDayIs(monthDay: Option<int>, weekday: Option<int>, nth: int, n: int, d: Date)
    requires Valid(d) && MonthNumber(d) == n
    ensures DayFits(monthDay, weekday, nth, d) <==> d.day == FittingDay(monthDay, weekday, nth, n)
  {
    if monthDay.None? && weekday.Some? && 0 <= weekday.value <= 6 && nth != 0 {
      FittingWeekdayIs(monthDay, weekday, nth, n, d);
    }
  }

  lemma FittingWeekdayIs(monthDay: Option<int>, weekday: Option<int>, nth: int, n: int, d: Date)
    requires monthDay.None? && weekday.Some? && 0 <= weekday.value <= 6 && nth != 0 && Valid(d) && MonthNumber(d) == n
    ensures DayFits(monthDay, weekday, nth, d) <==> d.day == FittingDay(monthDay, weekday, nth, n)
  {
    if nth > 0 {
      FittingPositive(monthDay, weekday, nth, n, d);
    } else {
      FittingNegative(monthDay, weekday, nth, n, d);
    }
  }

  lemma FittingPositive(monthDay: Option<int>, weekday: Option<int>, nth: int, n: int, d: Date)
    requires monthDay.None? && weekday.Some? && 0 <= weekday.value <= 6 && nth > 0 && Valid(d) && MonthNumber(d) == n
    ensures DayFits(monthDay, weekday, nth, d) <==> d.day == FittingDay(monthDay, weekday, nth, n)
  {
    var w, day := weekday.value, Offset(n, weekday.value, nth) + 1;
    assert FittingDay(monthDay, weekday, nth, n) == day;
    assert IsNthWeekday(w, nth, d) <==> d.day == day by { PositiveInMonth(n, w, nth, d); }
  }

  lemma FittingNegative(monthDay: Option<int>, weekday: Option<int>, nth: int, n: int, d: Date)
    requires monthDay.None? && weekday.Some? && 0 <= weekday.value <= 6 && nth < 0 && Valid(d) && MonthNumber(d) == n
    ensures DayFits(monthDay, weekday, nth, d) <==> d.day == FittingDay(monthDay, weekday, nth, n)
  {
    var w, day := weekday.value, MonthLength(n) - BackOffset(n, weekday.value);
    assert FittingDay(monthDay, weekday, nth, n) == day;
    assert IsNthWeekday(w, nth, d) <==> d.day == day by { NegativeInMonth(n, w, nth, d); }
  }

  /** A month's candidate is the only date of that month that fits. */
  lemma CandidateFits(n: int, monthDay: Option<int>, weekday: Option<int>, nth: int, d: Date)
    requires Valid(d) && (monthDay.Some? || nth <= LARGEST_SAFE_NTH)
    ensures MonthCandidate(n, monthDay, weekday, nth) == Some(d)
      <==> MonthNumber(d) == n && DayFits(monthDay, weekday, nth, d)
  {
    OrdinalInMonth(d);
    if monthDay.None? && weekday.Some? {
      NthWeekdayCorrect(n, weekday.value, nth);
      SmallNthStays(n, weekday.value, nth);
    }
  }

  lemma CandidateValid(n: int, monthDay: Option<int>, weekday: Option<int>, nth: int)
    requires MonthCandidate(n, monthDay, weekday, nth).Some?
    ensures Valid(MonthCandidate(n, monthDay, weekday, nth).value)
  {
    if monthDay.None? {
      if nth > 0 { PositiveCandidate(n, weekday.value, nth); } else {
        NegativeCandidate(n, weekday.value, nth, MonthLength(n) - BackOffset(n, weekday.value));
      }
    }
  }

  /** Dates of earlier months come first. */
  lemma EarlierMonth(d: Date, e: Date)
    requires Valid(d) && Valid(e) && MonthNumber(d) < MonthNumber(e)
    ensures Ordinal(d) < Ordinal(e)
  {
    BeforeIsEarlier(d, e);
  }

  /** A date moved by whole months, its day clamped to the month's length. */
  function AddMonths(d: Date, months: int): Date
    requires Valid(d)
  {
    var n := MonthNumber(d) + months;
    DateOf(n, if d.day < MonthLength(n) then d.day else MonthLength(n))
  }

  /** No month has a sixth such weekday. */
  lemma NoSixth(weekday: Option<int>, nth: int, d: Date)
    requires Valid(d) && nth > 5
    ensures !DayFits(None, weekday, nth, d)
  {
  }

  /** Rules whose nth, when it is used, stays within a year. */
  predicate Supported(rule: Rule) {
    (rule.Monthly? || rule.Yearly?) && rule.monthDay.None? && rule.weekday.Some? ==> rule.nth <= LARGEST_SAFE_NTH
  }

  lemma NextDay(d: Date)
    requires Valid(d)
    ensures Valid(AddDays(d, 1)) && Ordinal(AddDays(d, 1)) == Ordinal(d) + 1
  {
    OnDayOrdinal(Ordinal(d) + 1);
  }

  method FirstWeekdayOnOrAfter(start: Date, weekdays: seq<int>) returns (r: Option<Date>)
    requires Valid(start)
    ensures r.Some? <==> exists w :: 0 <= w <= 6 && w in weekdays
    ensures r.Some? ==>
      && Valid(r.value) && Weekday(r.value) in weekdays && Ordinal(start) <= Ordinal(r.value) < Ordinal(start) + 7
      && forall d :: Valid(d) && Ordinal(start) <= Ordinal(d) < Ordinal(r.value) ==> Weekday(d) !in weekdays
  {
    if weekdays == [] { return None; }
    ghost var from := Ordinal(start);
    var candidate := start;
    for i := 0 to 14
      invariant Valid(candidate) && Ordinal(candidate) == from + i
      invariant forall o :: from <= o < from + i ==> WeekdayNumber(o) !in weekdays
    {
      if Weekday(candidate) in weekdays {
        ghost var same := AllWeekdays(from, Weekday(candidate));
        return Some(candidate);
      }
      NextDay(candidate);
      candidate := AddDays(candidate, 1);
    }
    forall w | 0 <= w <= 6 ensures w !in weekdays {
      var o := AllWeekdays(from, w);
    }
    return None;
  }

  /** Seven consecutive days show every weekday. */
  lemma AllWeekdays(start: int, w: int) returns (o: int)
    requires 0 <= w <= 6
    ensures start <= o < start + 7 && WeekdayNumber(o) == w
  {
    o := start + (w - WeekdayNumber(start)) % 7;
    NthByDay(start, w, 1, o - start, o - start + 1);
  }
}
