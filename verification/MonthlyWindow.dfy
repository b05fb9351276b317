/** Monthly rules: exactly which of them the window of 240 months is too short for,
    whatever day or weekday they name. */
module MonthlyWindow {
  import opened Basics
  import opened Calendar
  import opened Recurrence
  import opened OccurrenceSearch
  import opened OccurrenceWindow
  import opened FifthWeekday

  // ----- The calendar repeats -----

  /** Four hundred years, in months. */
  const CYCLE: int := 4800

  lemma LeapCycle(year: int)
    ensures LeapYear(year + 400) == LeapYear(year)
  {
  }

  lemma {:induction false} MonthsBeforeCycle(year: int, month: int)
    requires 1 <= month <= 12
    ensures DaysBeforeMonth(year + 400, month) == DaysBeforeMonth(year, month)
    decreases month
  {
    if month > 1 {
      LeapCycle(year);
      MonthsBeforeCycle(year, month - 1);
    }
  }

  lemma CycleLater(n: int)
    ensures MonthOf(n + CYCLE) == MonthOf(n) && YearOf(n + CYCLE) == YearOf(n) + 400
  {
  }

  lemma DaysOfCycle(year: int)
    ensures DaysBeforeYear(year + 400) == DaysBeforeYear(year) + 146097
  {
    DaysBeforeYearClosed(year);
    DaysBeforeYearClosed(year + 400);
    QuotientCycle(year - 1);
  }

  lemma QuotientCycle(p: int)
    ensures (p + 400) / 4 == p / 4 + 100 && (p + 400) / 100 == p / 100 + 4 && (p + 400) / 400 == p / 400 + 1
  {
  }

  /** Month lengths and weekdays repeat: 146097 days are whole weeks. */
  lemma MonthCycle(n: int)
    ensures MonthLength(n + CYCLE) == MonthLength(n) && MonthStart(n + CYCLE) == MonthStart(n) + 146097
  {
    CycleLater(n);
    LeapCycle(YearOf(n));
    MonthsBeforeCycle(YearOf(n), MonthOf(n));
    DaysOfCycle(YearOf(n));
  }

  lemma LeadCycle(n: int, w: int)
    ensures Lead(n + CYCLE, w) == Lead(n, w)
  {
    MonthCycle(n);
    WeeksOfCycle(MonthStart(n));
  }

  lemma WeeksOfCycle(o: int)
    ensures WeekdayNumber(o + 146097) == WeekdayNumber(o)
  {
    assert o + 146097 + 6 == o + 6 + 7 * 20871;
  }

  lemma OffsetCycle(n: int, w: int, nth: int)
    ensures Offset(n + CYCLE, w, nth) == Offset(n, w, nth)
  {
    LeadCycle(n, w);
  }

  lemma RoomCycle(monthDay: Option<int>, weekday: Option<int>, nth: int, n: int, m: int)
    requires m == n + CYCLE
    ensures Room(monthDay, weekday, nth, m) == Room(monthDay, weekday, nth, n)
  {
    MonthCycle(n);
    if monthDay.None? && weekday.Some? && 0 <= weekday.value <= 6 {
      if nth < 0 {
        EarlyRoom(monthDay, weekday, nth, n);
        EarlyRoom(monthDay, weekday, nth, m);
      } else if nth > 0 {
        OffsetCycle(n, weekday.value, nth);
      }
    }
  }

  lemma {:induction false} RoomCycles(monthDay: Option<int>, weekday: Option<int>, nth: int, n: int, j: nat, m: int)
    requires m == n + CYCLE * j
    ensures Room(monthDay, weekday, nth, m) == Room(monthDay, weekday, nth, n)
    decreases j
  {
    if j > 0 {
      var before := m - CYCLE;
      RoomCycles(monthDay, weekday, nth, n, j - 1, before);
      RoomCycle(monthDay, weekday, nth, before, m);
    } else {
      assert m == n;
    }
  }

  // ----- Months of the interval -----

  function Interval(rule: Rule): (i: int)
    requires rule.Monthly?
    ensures i >= 1
  {
    AtLeastOne(rule.interval)
  }

  /** The month k intervals after the reference's. */
  function After(rule: Rule, reference: Date, k: int): int
    requires rule.Monthly? && Valid(reference)
  {
    MonthNumber(reference) + k * Interval(rule)
  }

  /** It has the day the rule names. */
  predicate RoomAfter(rule: Rule, reference: Date, k: int)
    requires rule.Monthly? && Valid(reference)
  {
    Room(rule.monthDay, rule.weekday, rule.nth, After(rule, reference, k))
  }

  lemma Monotone(a: int, b: int, c: int)
    requires a <= b && c >= 0
    ensures a * c <= b * c
  {
  }

  lemma Quotient(x: int, i: int)
    requires i >= 1
    ensures x / i * i <= x < (x / i + 1) * i && x == x / i * i + x % i
  {
  }

  lemma Multiples(k: int, i: int)
    requires i >= 1
    ensures k * i % i == 0
    ensures k >= 1 ==> k * i >= i && k * i >= k
  {
    var q := k * i / i;
    Quotient(k * i, i);
    if q < k {
      Monotone(q + 1, k, i);
    } else if q > k {
      Monotone(k + 1, q, i);
    }
    if k >= 1 {
      Monotone(1, k, i);
      Monotone(1, i, k);
    }
  }

  /** Open months after the first are whole intervals away. */
  lemma OpenLater(rule: Rule, reference: Date, k: int)
    requires rule.Monthly? && Valid(reference) && k >= 1
    ensures Open(rule, reference, After(rule, reference, k)) <==> RoomAfter(rule, reference, k)
  {
    Multiples(k, Interval(rule));
  }

  lemma IntervalsTo(rule: Rule, reference: Date, n: int) returns (k: int)
    requires rule.Monthly? && Valid(reference) && Open(rule, reference, n) && n > MonthNumber(reference)
    ensures k >= 1 && n == After(rule, reference, k)
  {
    var x, i := n - MonthNumber(reference), Interval(rule);
    k := x / i;
    Quotient(x, i);
    assert x == k * i;
    if k < 1 { Monotone(k, 0, i); }
  }

  /** The search finds a date exactly when this month's is still to come or one of
      the months k intervals ahead, below 240, has the day. */
  lemma MonthlySearch(rule: Rule, reference: Date)
    requires rule.Monthly? && Valid(reference)
    ensures Next(rule, reference).Some? <==>
      || Open(rule, reference, MonthNumber(reference))
      || (exists k :: 1 <= k && k * Interval(rule) < MONTH_WINDOW && RoomAfter(rule, reference, k))
  {
    OpenMonths(rule, reference);
    var m := MonthNumber(reference);
    if n :| Open(rule, reference, n) && n < WindowEnd(rule, reference) {
      if n > m {
        var k := IntervalsTo(rule, reference, n);
        OpenLater(rule, reference, k);
      }
    }
    if Open(rule, reference, m) { assert m < WindowEnd(rule, reference); }
    if k :| 1 <= k && k * Interval(rule) < MONTH_WINDOW && RoomAfter(rule, reference, k) {
      OpenLater(rule, reference, k);
      assert Open(rule, reference, After(rule, reference, k));
    }
  }

  /** Intervals can be counted down by whole cycles. */
  lemma CountDown(rule: Rule, reference: Date, k: int) returns (few: int)
    requires rule.Monthly? && Valid(reference) && k >= 1 && RoomAfter(rule, reference, k)
    ensures 1 <= few <= CYCLE && RoomAfter(rule, reference, few)
  {
    var j := (k - 1) / CYCLE;
    few := k - CYCLE * j;
    var n, m, i := After(rule, reference, few), After(rule, reference, k), Interval(rule);
    assert k * i == few * i + CYCLE * (j * i) by { assert k == few + CYCLE * j; }
    Monotone(0, j, i);
    RoomCycles(rule.monthDay, rule.weekday, rule.nth, n, j * i, m);
  }

  /** Whether a monthly rule has a fitting date at all is decided within 4800
      intervals. */
  lemma MonthlySatisfied(rule: Rule, reference: Date)
    requires rule.Monthly? && Valid(reference)
    ensures Satisfied(rule, reference) <==>
      || Open(rule, reference, MonthNumber(reference))
      || (exists k :: 1 <= k <= CYCLE && RoomAfter(rule, reference, k))
  {
    OpenMonths(rule, reference);
    if n :| Open(rule, reference, n) {
      if n > MonthNumber(reference) {
        var k := IntervalsTo(rule, reference, n);
        OpenLater(rule, reference, k);
        var few := CountDown(rule, reference, k);
      }
    }
    if k :| 1 <= k <= CYCLE && RoomAfter(rule, reference, k) {
      OpenLater(rule, reference, k);
      assert Open(rule, reference, After(rule, reference, k));
    }
  }

  /** The number of intervals to the first later month with the day. */
  ghost predicate FirstRoom(rule: Rule, reference: Date, k: int)
    requires rule.Monthly? && Valid(reference)
  {
    1 <= k && RoomAfter(rule, reference, k) && forall l :: 1 <= l < k ==> !RoomAfter(rule, reference, l)
  }

  /** With the first later month k intervals away, the search misses it exactly when
      this month's date is past and those k intervals make up the window. */
  lemma MissedIff(rule: Rule, reference: Date, k: int)
    requires rule.Monthly? && Valid(reference) && FirstRoom(rule, reference, k)
    ensures Satisfied(rule, reference)
    ensures Next(rule, reference).None?
      <==> !Open(rule, reference, MonthNumber(reference)) && k * Interval(rule) >= MONTH_WINDOW
  {
    MonthlySearch(rule, reference);
    OpenMonths(rule, reference);
    OpenLater(rule, reference, k);
    assert Open(rule, reference, After(rule, reference, k));
    if l :| 1 <= l && l * Interval(rule) < MONTH_WINDOW && RoomAfter(rule, reference, l) {
      assert k <= l;
      Monotone(k, l, Interval(rule));
    }
  }

  /** Without one there is nothing to find but this month's date. */
  lemma NeverIff(rule: Rule, reference: Date)
    requires rule.Monthly? && Valid(reference) && forall k :: 1 <= k ==> !RoomAfter(rule, reference, k)
    ensures Satisfied(rule, reference) <==> Open(rule, reference, MonthNumber(reference))
    ensures Next(rule, reference).Some? <==> Satisfied(rule, reference)
  {
    MonthlySearch(rule, reference);
    MonthlySatisfied(rule, reference);
  }

  // ----- Days every month has -----

  /** Days 1 to 28, the last weekday and the first four: missed exactly when this
      month's date is past and the interval is the window or more. */
  lemma MonthlyEarly(rule: Rule, reference: Date)
    requires rule.Monthly? && Valid(reference)
    requires if rule.monthDay.Some? then 1 <= rule.monthDay.value <= 28
             else rule.weekday.Some? && 0 <= rule.weekday.value <= 6 && (rule.nth < 0 || 1 <= rule.nth <= 4)
    ensures Satisfied(rule, reference)
    ensures Next(rule, reference).None?
      <==> !Open(rule, reference, MonthNumber(reference)) && Interval(rule) >= MONTH_WINDOW
  {
    if rule.monthDay.None? { EarlyRoom(rule.monthDay, rule.weekday, rule.nth, After(rule, reference, 1)); }
    assert FirstRoom(rule, reference, 1);
    MissedIff(rule, reference, 1);
  }

  // ----- Days 29 to 31 -----

  lemma DayRoom(rule: Rule, reference: Date, k: int)
    requires rule.Monthly? && Valid(reference) && rule.monthDay.Some? && rule.monthDay.value >= 1
    ensures RoomAfter(rule, reference, k) <==> rule.monthDay.value <= MonthLength(After(rule, reference, k))
  {
  }

  /** One interval and two never both lead to the same month of the year, unless all do. */
  lemma NotBoth(rule: Rule, reference: Date)
    requires rule.Monthly? && Valid(reference)
    ensures MonthOf(After(rule, reference, 1)) == MonthOf(After(rule, reference, 2)) <==> Interval(rule) % 12 == 0
  {
    var i := Interval(rule);
    assert After(rule, reference, 2) == After(rule, reference, 1) + i;
    SameMonthOfYear(After(rule, reference, 1), i);
  }

  lemma SameMonthOfYear(n: int, i: int)
    ensures MonthOf(n + i) == MonthOf(n) <==> i % 12 == 0
  {
  }

  lemma {:induction false} WholeYears(rule: Rule, reference: Date, k: nat)
    requires rule.Monthly? && Valid(reference) && Interval(rule) % 12 == 0
    ensures MonthOf(After(rule, reference, k)) == reference.month
    ensures YearOf(After(rule, reference, k)) == reference.year + k * (Interval(rule) / 12)
    decreases k
  {
    var years := Interval(rule) / 12;
    OrdinalInMonth(reference);
    assert After(rule, reference, k) == MonthNumber(reference) + 12 * (k * years) by {
      assert Interval(rule) == 12 * years;
      assert k * (12 * years) == 12 * (k * years);
    }
    YearsLater(MonthNumber(reference), k * years);
  }

  /** Only February is too short for the thirtieth. */
  lemma ThirtyDays(n: int)
    ensures MonthLength(n) >= 30 <==> MonthOf(n) != 2
  {
  }

  /** Day 30: missed exactly when this month's is past and the interval is 240 or
      more, or 120 or more where it leads to February first; in February by whole
      years there is none. */
  lemma MonthlyThirtieth(rule: Rule, reference: Date)
    requires rule.Monthly? && Valid(reference) && rule.monthDay == Some(30)
    ensures Satisfied(rule, reference) && Next(rule, reference).None? <==>
      && !Open(rule, reference, MonthNumber(reference))
      && (if MonthOf(After(rule, reference, 1)) != 2 then Interval(rule) >= 240
          else Interval(rule) % 12 != 0 && Interval(rule) >= 120)
  {
    var one, two := After(rule, reference, 1), After(rule, reference, 2);
    DayRoom(rule, reference, 1);
    DayRoom(rule, reference, 2);
    ThirtyDays(one);
    ThirtyDays(two);
    NotBoth(rule, reference);
    if MonthOf(one) != 2 {
      assert FirstRoom(rule, reference, 1);
      MissedIff(rule, reference, 1);
    } else if Interval(rule) % 12 != 0 {
      assert FirstRoom(rule, reference, 2);
      MissedIff(rule, reference, 2);
    } else {
      forall k | 1 <= k ensures !RoomAfter(rule, reference, k) {
        WholeYears(rule, reference, 1);
        WholeYears(rule, reference, k);
        DayRoom(rule, reference, k);
        ThirtyDays(After(rule, reference, k));
      }
      NeverIff(rule, reference);
    }
  }

  /** So 121 is the first interval to miss it: asked for on 31 January, the first
      month met is February. */
  lemma ThirtiethExample(rule: Rule, reference: Date)
    requires rule == Monthly(Some(30), None, 1, 121) && Valid(reference) && reference.month == 1 && reference.day == 31
    ensures Next(rule, reference) == None && Satisfied(rule, reference)
  {
    var m := MonthNumber(reference);
    OrdinalInMonth(reference);
    YearsLater(m + 1, 10);
    MonthAfter(m, 1);
    MonthlyThirtieth(rule, reference);
  }

  /** Months with 31 days, by their number. */
  predicate Long(n: int) {
    var m := n % 12;
    m != 1 && m != 3 && m != 5 && m != 8 && m != 10
  }

  lemma ThirtyOneDays(n: int)
    ensures MonthLength(n) >= 31 <==> Long(n)
  {
  }

  predicate LongAt(a: int, r: int, l: int) { Long(a + l * r) }

  /** Intervals from a short month to the first long one, read off the month of the
      year and the interval modulo twelve; 0 when there is none. */
  function LongSteps(a: int, r: int): (k: int)
    ensures 0 <= k <= 5 && (k >= 1 ==> LongAt(a, r, k))
    ensures forall l :: 1 <= l < k ==> !LongAt(a, r, l)
  {
    if LongAt(a, r, 1) then 1
    else if LongAt(a, r, 2) then 2
    else if LongAt(a, r, 3) then 3
    else if LongAt(a, r, 4) then 4
    else if LongAt(a, r, 5) then 5
    else 0
  }

  /** The same without division, for the first six years. */
  predicate LongClock(x: int)
    requires 0 <= x < 72
  {
    var m := if x < 12 then x else if x < 24 then x - 12 else if x < 36 then x - 24
             else if x < 48 then x - 36 else if x < 60 then x - 48 else x - 60;
    m != 1 && m != 3 && m != 5 && m != 8 && m != 10
  }

  lemma LongIsClock(x: int)
    requires 0 <= x < 72
    ensures Long(x) == LongClock(x)
  {
  }

  /** From a short month, every remainder but zero reaches a long one in four steps,
      five and seven perhaps in five. */
  lemma ClockReaches(a: int, r: int)
    requires (a == 1 || a == 3 || a == 5 || a == 8 || a == 10) && 1 <= r < 12
    ensures LongClock(a + r) || LongClock(a + 2 * r) || LongClock(a + 3 * r) || LongClock(a + 4 * r)
      || ((r == 5 || r == 7) && LongClock(a + 5 * r))
  {
  }

  lemma ShortMonths(a: int)
    requires 0 <= a < 12 && !Long(a)
    ensures a == 1 || a == 3 || a == 5 || a == 8 || a == 10
  {
  }

  lemma LongReached(a: int, r: int)
    requires 0 <= a < 12 && !Long(a) && 1 <= r < 12
    ensures LongAt(a, r, 1) || LongAt(a, r, 2) || LongAt(a, r, 3) || LongAt(a, r, 4)
      || ((r == 5 || r == 7) && LongAt(a, r, 5))
  {
    ShortMonths(a);
    ClockReaches(a, r);
    LongAtClock(a, r);
  }

  lemma SomeLong(a: int, r: int)
    requires 0 <= a < 12 && !Long(a) && 1 <= r < 12
    ensures LongSteps(a, r) >= 1 && (LongSteps(a, r) == 5 ==> r == 5 || r == 7)
  {
    LongReached(a, r);
  }

  lemma LongAtClock(a: int, r: int)
    requires 0 <= a < 12 && 1 <= r < 12
    ensures LongAt(a, r, 1) == LongClock(a + r) && LongAt(a, r, 2) == LongClock(a + 2 * r)
    ensures LongAt(a, r, 3) == LongClock(a + 3 * r) && LongAt(a, r, 4) == LongClock(a + 4 * r)
    ensures LongAt(a, r, 5) == LongClock(a + 5 * r)
  {
    LongIsClock(a + r);
    LongIsClock(a + 2 * r);
    LongIsClock(a + 3 * r);
    LongIsClock(a + 4 * r);
    LongIsClock(a + 5 * r);
  }

  lemma LongCongruent(x: int, z: int)
    ensures Long(x + 12 * z) == Long(x)
  {
  }

  /** Whether a month of the interval is long depends on remainders only. */
  lemma LongAfter(rule: Rule, reference: Date, l: int)
    requires rule.Monthly? && Valid(reference) && rule.monthDay == Some(31)
    ensures RoomAfter(rule, reference, l) <==> LongAt(MonthNumber(reference) % 12, Interval(rule) % 12, l)
  {
    var m, i := MonthNumber(reference), Interval(rule);
    DayRoom(rule, reference, l);
    ThirtyOneDays(After(rule, reference, l));
    Congruent(m, i, l);
    LongCongruent(m % 12 + l * (i % 12), m / 12 + l * (i / 12));
  }

  lemma Congruent(m: int, i: int, l: int)
    ensures m + l * i == m % 12 + l * (i % 12) + 12 * (m / 12 + l * (i / 12))
  {
    Distribute(l, i / 12, i % 12);
  }

  lemma Distribute(l: int, q: int, r: int)
    ensures l * (12 * q + r) == 12 * (l * q) + l * r
  {
  }

  lemma FirstLong(rule: Rule, reference: Date, k: int)
    requires rule.Monthly? && Valid(reference) && rule.monthDay == Some(31)
    requires k == LongSteps(MonthNumber(reference) % 12, Interval(rule) % 12) && k >= 1
    ensures FirstRoom(rule, reference, k)
  {
    forall l | 1 <= l <= k
      ensures RoomAfter(rule, reference, l) <==> LongAt(MonthNumber(reference) % 12, Interval(rule) % 12, l)
    {
      LongAfter(rule, reference, l);
    }
  }

  lemma LongNow(rule: Rule, reference: Date)
    requires rule.Monthly? && Valid(reference) && rule.monthDay == Some(31)
    ensures Open(rule, reference, MonthNumber(reference)) <==> Long(MonthNumber(reference))
  {
    ThirtyOneDays(MonthNumber(reference));
    AlwaysInPhase(rule.interval, 0);
  }

  /** Day 31: missed exactly when this month is short and the first long month of
      the interval lies 240 months ahead or more. */
  lemma MonthlyThirtyFirst(rule: Rule, reference: Date)
    requires rule.Monthly? && Valid(reference) && rule.monthDay == Some(31)
    ensures var k := LongSteps(MonthNumber(reference) % 12, Interval(rule) % 12);
      Satisfied(rule, reference) && Next(rule, reference).None?
      <==> !Long(MonthNumber(reference)) && k >= 1 && k * Interval(rule) >= 240
  {
    var k := LongSteps(MonthNumber(reference) % 12, Interval(rule) % 12);
    LongNow(rule, reference);
    if k >= 1 {
      FirstLong(rule, reference, k);
      MissedIff(rule, reference, k);
    } else {
      NoLong(rule, reference);
    }
  }

  lemma NeverLong(a: int, r: int, k: int)
    requires 0 <= a < 12 && 0 <= r < 12 && !Long(a) && LongSteps(a, r) == 0
    ensures !LongAt(a, r, k)
  {
    if r != 0 { SomeLong(a, r); }
  }

  lemma NoLongAhead(rule: Rule, reference: Date, a: int, r: int)
    requires rule.Monthly? && Valid(reference) && rule.monthDay == Some(31)
    requires a == MonthNumber(reference) % 12 && r == Interval(rule) % 12 && !Long(a) && LongSteps(a, r) == 0
    ensures Next(rule, reference).Some? || !Satisfied(rule, reference)
  {
    forall k | 1 <= k ensures !RoomAfter(rule, reference, k) {
      LongAfter(rule, reference, k);
      NeverLong(a, r, k);
    }
    NeverIff(rule, reference);
  }

  lemma NoLong(rule: Rule, reference: Date)
    requires rule.Monthly? && Valid(reference) && rule.monthDay == Some(31)
    requires LongSteps(MonthNumber(reference) % 12, Interval(rule) % 12) == 0
    ensures Next(rule, reference).Some? || !Satisfied(rule, reference)
  {
    var a := MonthNumber(reference) % 12;
    LongNow(rule, reference);
    LongCongruent(a, MonthNumber(reference) / 12);
    if Long(a) {
      MonthlySearch(rule, reference);
    } else {
      NoLongAhead(rule, reference, a, Interval(rule) % 12);
    }
  }

  lemma FewMonths(i: int, k: int)
    requires 1 <= i <= 52 && 1 <= k <= 5 && (k == 5 ==> i % 12 == 5 || i % 12 == 7)
    ensures k * i < 240
  {
    if k == 5 {
      assert i <= 47;
    } else {
      Monotone(k, 4, i);
    }
  }

  /** So intervals up to 52 are safe for day 31. */
  lemma ThirtyFirstSafe(rule: Rule, reference: Date)
    requires rule.Monthly? && Valid(reference) && rule.monthDay == Some(31) && Interval(rule) <= 52
    ensures Satisfied(rule, reference) ==> Next(rule, reference).Some?
  {
    var m, r := MonthNumber(reference), Interval(rule) % 12;
    var k := LongSteps(m % 12, r);
    MonthlyThirtyFirst(rule, reference);
    LongCongruent(m % 12, m / 12);
    if !Long(m) && k >= 1 {
      ShortStays(m % 12, r);
      FewMonths(Interval(rule), k);
    }
  }

  lemma ShortStays(a: int, r: int)
    requires 0 <= a < 12 && 0 <= r < 12 && !Long(a) && LongSteps(a, r) >= 1
    ensures LongSteps(a, r) == 5 ==> r == 5 || r == 7
  {
    if r != 0 { SomeLong(a, r); }
  }

  lemma FromJune(a: int, r: int)
    requires a == 5 && r == 5
    ensures LongSteps(a, r) == 5 && !Long(a)
  {
  }

  /** And 53 is not: asked for in June, the first long month is five intervals away. */
  lemma ThirtyFirstExample(rule: Rule, reference: Date)
    requires rule == Monthly(Some(31), None, 1, 53) && Valid(reference) && reference.month == 6
    ensures Next(rule, reference) == None && Satisfied(rule, reference)
  {
    var m := MonthNumber(reference);
    FromJune(m % 12, Interval(rule) % 12);
    LongCongruent(m % 12, m / 12);
    MonthlyThirtyFirst(rule, reference);
  }

  lemma TwentyNineDays(n: int)
    ensures MonthLength(n) >= 29 <==> MonthOf(n) != 2 || LeapYear(YearOf(n))
  {
  }

  /** Day 29, where the interval leaves February: missed exactly when this month's is
      past and one interval, or two where the first leads to a common February, make
      up the window. */
  lemma MonthlyTwentyNinth(rule: Rule, reference: Date)
    requires rule.Monthly? && Valid(reference) && rule.monthDay == Some(29)
    requires reference.month != 2 || Interval(rule) % 12 != 0
    ensures Satisfied(rule, reference)
    ensures var one := After(rule, reference, 1);
      var k := if MonthOf(one) == 2 && !LeapYear(YearOf(one)) then 2 else 1;
      Next(rule, reference).None? <==> !Open(rule, reference, MonthNumber(reference)) && k * Interval(rule) >= 240
  {
    var one, two := After(rule, reference, 1), After(rule, reference, 2);
    DayRoom(rule, reference, 1);
    DayRoom(rule, reference, 2);
    TwentyNineDays(one);
    TwentyNineDays(two);
    if RoomAfter(rule, reference, 1) {
      assert FirstRoom(rule, reference, 1);
      MissedIff(rule, reference, 1);
    } else {
      if Interval(rule) % 12 == 0 { WholeYears(rule, reference, 1); }
      NotBoth(rule, reference);
      assert FirstRoom(rule, reference, 2);
      MissedIff(rule, reference, 2);
    }
  }

  /** Day 29 of February by whole years: the leap years of the progression. */
  lemma LeapDays(rule: Rule, reference: Date, k: nat)
    requires rule.Monthly? && Valid(reference) && rule.monthDay == Some(29)
    requires reference.month == 2 && Interval(rule) % 12 == 0
    ensures RoomAfter(rule, reference, k) <==> LeapYear(reference.year + k * (Interval(rule) / 12))
    ensures Open(rule, reference, MonthNumber(reference)) <==> LeapYear(reference.year)
  {
    DayRoom(rule, reference, k);
    WholeYears(rule, reference, k);
    TwentyNineDays(After(rule, reference, k));
    TwentyNineDays(MonthNumber(reference));
    OrdinalInMonth(reference);
    AlwaysInPhase(rule.interval, 0);
  }

  /** The first leap year of the progression is k intervals away. */
  ghost predicate FirstLeap(year: int, step: int, k: int) {
    1 <= k && LeapYear(year + k * step) && forall l :: 1 <= l < k ==> !LeapAfter(year, step, l)
  }

  predicate LeapAfter(year: int, step: int, l: int) { LeapYear(year + l * step) }

  /** It is missed exactly when this year has none and those k intervals make up the window. */
  lemma MonthlyLeapDay(rule: Rule, reference: Date, k: nat)
    requires rule.Monthly? && Valid(reference) && rule.monthDay == Some(29)
    requires reference.month == 2 && Interval(rule) % 12 == 0 && FirstLeap(reference.year, Interval(rule) / 12, k)
    ensures Satisfied(rule, reference)
    ensures Next(rule, reference).None? <==> !LeapYear(reference.year) && k * Interval(rule) >= 240
  {
    forall l: nat | 1 <= l <= k
      ensures RoomAfter(rule, reference, l) <==> LeapAfter(reference.year, Interval(rule) / 12, l)
    {
      LeapDays(rule, reference, l);
    }
    LeapDays(rule, reference, k);
    assert FirstRoom(rule, reference, k);
    MissedIff(rule, reference, k);
  }

  /** Leap years that every second year can meet come within eight years. */
  lemma EvenLeap(year: int, half: int) returns (k: int)
    requires year == 2 * half
    ensures 1 <= k <= 4 && LeapYear(year + k * 2)
  {
    var q := RoundUp(year + 1);
    if Skipped(q) {
      CenturiesApart(q, q + 1);
      q := q + 1;
    }
    QuadYears(q);
    k := 2 * q - half;
    assert year + k * 2 == 4 * q;
  }

  /** So intervals up to 35 are safe for day 29. */
  lemma TwentyNinthSafe(rule: Rule, reference: Date)
    requires rule.Monthly? && Valid(reference) && rule.monthDay == Some(29) && Interval(rule) <= 35
    ensures Satisfied(rule, reference) ==> Next(rule, reference).Some?
  {
    if reference.month != 2 || Interval(rule) % 12 != 0 {
      MonthlyTwentyNinth(rule, reference);
    } else {
      LeapDaySafe(rule, reference);
    }
  }

  lemma LeapDaySafe(rule: Rule, reference: Date)
    requires rule.Monthly? && Valid(reference) && rule.monthDay == Some(29)
    requires reference.month == 2 && (Interval(rule) == 12 || Interval(rule) == 24)
    ensures Satisfied(rule, reference) ==> Next(rule, reference).Some?
  {
    if Interval(rule) == 12 {
      var j := LeapSoon(reference.year + 1);
      LeapDayFound(rule, reference, j + 1);
    } else if reference.year % 2 == 0 {
      var k := EvenLeap(reference.year, reference.year / 2);
      LeapDayFound(rule, reference, k);
    } else {
      OddYearsNever(rule, reference);
    }
  }

  lemma LeapDayFound(rule: Rule, reference: Date, k: nat)
    requires rule.Monthly? && Valid(reference) && rule.monthDay == Some(29)
    requires reference.month == 2 && Interval(rule) % 12 == 0 && 1 <= k && k * Interval(rule) < 240
    requires LeapYear(reference.year + k * (Interval(rule) / 12))
    ensures Next(rule, reference).Some?
  {
    LeapDays(rule, reference, k);
    MonthlySearch(rule, reference);
  }

  lemma OddYearsNever(rule: Rule, reference: Date)
    requires rule.Monthly? && Valid(reference) && rule.monthDay == Some(29)
    requires reference.month == 2 && Interval(rule) == 24 && reference.year % 2 != 0
    ensures Satisfied(rule, reference) ==> Next(rule, reference).Some?
  {
    forall k | 1 <= k ensures !RoomAfter(rule, reference, k) { LeapDays(rule, reference, k); }
    NeverIff(rule, reference);
  }

  lemma SeventhFrom2091(year: int)
    requires year == 2091
    ensures FirstLeap(year, 3, 7) && !LeapYear(year)
  {
    assert forall l :: 1 <= l < 7 ==> !LeapAfter(year, 3, l);
  }

  /** And 36 is not: asked for in February 2091, the first leap year met is 2112. */
  lemma TwentyNinthExample(rule: Rule, reference: Date)
    requires rule == Monthly(Some(29), None, 1, 36) && Valid(reference) && reference.month == 2 && reference.year == 2091
    ensures Next(rule, reference) == None && Satisfied(rule, reference)
  {
    SeventhFrom2091(reference.year);
    MonthlyLeapDay(rule, reference, 7);
  }

  // ----- The fifth weekday -----

  /** Twelve months are whole intervals when the interval divides the year. */
  lemma StepsOfYear(i: int, b: int, j: int) returns (k: int)
    requires (i == 1 || i == 2 || i == 3 || i == 4 || i == 6) && 1 <= b <= 2 && 0 <= j <= 6
    ensures k >= 1 && k * i == b * i + 12 * j < 240
  {
    k := b + 12 / i * j;
  }

  lemma RoomAt(rule: Rule, reference: Date, k: int, m: int)
    requires rule.Monthly? && Valid(reference) && After(rule, reference, k) == m
    requires Room(rule.monthDay, rule.weekday, rule.nth, m)
    ensures RoomAfter(rule, reference, k)
  {
  }

  lemma FifthByDivisor(rule: Rule, reference: Date) returns (k: int)
    requires rule.Monthly? && Valid(reference) && rule.monthDay.None? && rule.nth == 5
    requires rule.weekday.Some? && 0 <= rule.weekday.value <= 6
    requires var i := Interval(rule); i == 1 || i == 2 || i == 3 || i == 4 || i == 6
    ensures 1 <= k && k * Interval(rule) < MONTH_WINDOW && RoomAfter(rule, reference, k)
  {
    NotBoth(rule, reference);
    var b := if MonthOf(After(rule, reference, 1)) != 2 then 1 else 2;
    var j, m := FifthSoon(rule.monthDay, rule.weekday, rule.nth, After(rule, reference, b));
    k := StepsOfYear(Interval(rule), b, j);
    RoomAt(rule, reference, k, m);
  }

  lemma FifthByOther(rule: Rule, reference: Date) returns (k: int)
    requires rule.Monthly? && Valid(reference) && rule.monthDay.None? && rule.nth == 5
    requires rule.weekday.Some? && 0 <= rule.weekday.value <= 6
    requires var i := Interval(rule); i == 5 || 7 <= i <= 11
    ensures 1 <= k && k * Interval(rule) < MONTH_WINDOW && RoomAfter(rule, reference, k)
  {
    var m;
    k, m := FifthAhead(MonthNumber(reference), rule.weekday.value, Interval(rule));
    FifthRoom(rule.monthDay, rule.weekday, rule.nth, m);
    RoomAt(rule, reference, k, m);
  }

  /** Intervals up to 11 are safe for the fifth weekday. */
  lemma FifthSafe(rule: Rule, reference: Date)
    requires rule.Monthly? && Valid(reference) && rule.monthDay.None? && rule.nth == 5
    requires rule.weekday.Some? && 0 <= rule.weekday.value <= 6 && Interval(rule) <= 11
    ensures Next(rule, reference).Some?
  {
    var i := Interval(rule);
    MonthlySearch(rule, reference);
    if i == 5 || i >= 7 {
      var k := FifthByOther(rule, reference);
    } else {
      var k := FifthByDivisor(rule, reference);
    }
  }

  /** Yearly in February it is the fifth weekday of February that counts. */
  lemma FifthFebruaries(rule: Rule, reference: Date, k: nat, year: int)
    requires rule.Monthly? && Valid(reference) && rule.monthDay.None? && rule.nth == 5 && year == reference.year + k
    requires rule.weekday.Some? && 0 <= rule.weekday.value <= 6 && reference.month == 2 && Interval(rule) == 12
    ensures RoomAfter(rule, reference, k) <==> FifthInFebruary(year, rule.weekday.value)
  {
    FebruaryRoom(rule.monthDay, rule.weekday, rule.nth, year, After(rule, reference, k));
  }

  /** In the gap after such a February the next one is forty years away. */
  lemma GapOfForty(year: int, w: int, y: int)
    requires FifthInFebruary(year, w) && CenturyBetween(year) && year < y <= year + 40
    ensures FifthInFebruary(y, w) <==> y == year + 40
  {
    var q := QuadOf(year);
    CenturyBetweenIs(q);
    var c :| q + 3 <= c <= q + 7 && Skipped(c);
    AcrossCentury(q, w, c, 10);
    if FifthInFebruary(y, w) { NoFebruaryIn(q, w, c, y); }
  }

  /** And twelve is not: the year after such a February, the next one is 39 years away. */
  lemma FifthMissed(rule: Rule, reference: Date, k: nat)
    requires rule.Monthly? && Valid(reference) && rule.monthDay.None? && rule.nth == 5 && k == 39
    requires rule.weekday.Some? && 0 <= rule.weekday.value <= 6 && reference.month == 2 && Interval(rule) == 12
    requires FifthInFebruary(reference.year - 1, rule.weekday.value) && CenturyBetween(reference.year - 1)
    ensures Next(rule, reference) == None && Satisfied(rule, reference)
  {
    forall l: nat | l <= k ensures RoomAfter(rule, reference, l) <==> l == k { RoomInGap(rule, reference, l); }
    assert FirstRoom(rule, reference, k);
    assert !RoomAfter(rule, reference, 0);
    MissedIff(rule, reference, k);
  }

  lemma RoomInGap(rule: Rule, reference: Date, l: nat)
    requires rule.Monthly? && Valid(reference) && rule.monthDay.None? && rule.nth == 5 && l <= 39
    requires rule.weekday.Some? && 0 <= rule.weekday.value <= 6 && reference.month == 2 && Interval(rule) == 12
    requires FifthInFebruary(reference.year - 1, rule.weekday.value) && CenturyBetween(reference.year - 1)
    ensures RoomAfter(rule, reference, l) <==> l == 39
  {
    var year := reference.year + l;
    GapOfForty(reference.year - 1, rule.weekday.value, year);
    FifthFebruaries(rule, reference, l, year);
  }

  /** For instance the fifth Monday of February, asked for in February 2073. */
  lemma FifthExample(rule: Rule, reference: Date)
    requires rule == Monthly(None, Some(0), 5, 12) && Valid(reference) && reference.month == 2 && reference.year == 2073
    ensures Next(rule, reference) == None && Satisfied(rule, reference)
  {
    February2072(reference.year - 1);
    FifthMissed(rule, reference, 39);
  }
}
