/** How far ahead the search for the next occurrence has to look, and exactly when
    its window of 240 months or 40 years is too short. */
module OccurrenceWindow {
  import opened Basics
  import opened Calendar
  import opened Recurrence
  import opened OccurrenceSearch

  /** A weekly rule that names a weekday is always found within the week. */
  lemma WeeklyWindow(rule: Rule, reference: Date, w: int)
    requires rule.Weekly? && Valid(reference) && 0 <= w <= 6 && w in WeekdaysOf(rule)
    ensures Next(rule, reference).Some? && Ordinal(Next(rule, reference).value) < Ordinal(reference) + 7
  {
    var o := AllWeekdays(Ordinal(reference), w);
    OnDayOrdinal(o);
    var d := OnDay(o);
    FirstWeek(rule.interval, reference, d);
    assert Weekday(d) == w;
    assert Fits(rule, reference, d);
    var first := FirstExists(rule, reference, d);
    NextIs(rule, reference, first);
  }

  // ----- Months that hold a fitting date -----

  /** Month `n` holds a date that fits the rule as anchored at the reference. */
  predicate Open(rule: Rule, reference: Date, n: int)
    requires (rule.Monthly? || rule.Yearly?) && Valid(reference)
  {
    && Allows(rule, reference, n) && MonthNumber(reference) <= n && Room(rule.monthDay, rule.weekday, rule.nth, n)
    && (n == MonthNumber(reference) ==> reference.day <= FittingDay(rule.monthDay, rule.weekday, rule.nth, n))
  }

  lemma OpenFits(rule: Rule, reference: Date, n: int) returns (d: Date)
    requires (rule.Monthly? || rule.Yearly?) && Valid(reference) && Open(rule, reference, n)
    ensures Fits(rule, reference, d) && MonthNumber(d) == n
  {
    var day := FittingDay(rule.monthDay, rule.weekday, rule.nth, n);
    DayOfMonth(n, day - 1);
    d := DateOf(n, day);
    if n == MonthNumber(reference) {
      OrdinalInMonth(reference);
    } else {
      EarlierMonth(reference, d);
    }
    FitsInMonth(rule, reference, n, d);
  }

  lemma FitsOpens(rule: Rule, reference: Date, d: Date)
    requires (rule.Monthly? || rule.Yearly?) && Valid(reference) && Fits(rule, reference, d)
    ensures Open(rule, reference, MonthNumber(d))
  {
    NothingBeforeReference(rule, reference);
    FitsInMonth(rule, reference, MonthNumber(d), d);
    OrdinalInMonth(d);
    OrdinalInMonth(reference);
  }

  ghost predicate Satisfied(rule: Rule, reference: Date)
    requires Valid(reference)
  {
    exists d :: Fits(rule, reference, d)
  }

  /** Fitting dates are open months; the search finds one exactly when it is in the window. */
  lemma OpenMonths(rule: Rule, reference: Date)
    requires (rule.Monthly? || rule.Yearly?) && Valid(reference)
    ensures Satisfied(rule, reference) <==> exists n :: Open(rule, reference, n)
    ensures Next(rule, reference).Some? <==> exists n :: Open(rule, reference, n) && n < WindowEnd(rule, reference)
  {
    if d :| Fits(rule, reference, d) { FitsOpens(rule, reference, d); }
    if n :| Open(rule, reference, n) {
      var d := OpenFits(rule, reference, n);
    }
    if n :| Open(rule, reference, n) && n < WindowEnd(rule, reference) {
      var d := OpenFits(rule, reference, n);
      WindowIs(rule, reference, d);
    }
    if Next(rule, reference).Some? {
      var d := Next(rule, reference).value;
      FitsOpens(rule, reference, d);
      WindowIs(rule, reference, d);
    }
  }

  // ----- Leap years and weekdays from year to year -----

  predicate CommonCentury(year: int) { year % 100 == 0 && year % 400 != 0 }

  lemma LeapIffNotCommon(year: int)
    requires year % 4 == 0
    ensures LeapYear(year) <==> !CommonCentury(year)
  {
  }

  /** Leap years are at most eight years apart. */
  lemma LeapSoon(year: int) returns (j: int)
    ensures 0 <= j < 8 && LeapYear(year + j)
  {
    j := (-year) % 4;
    assert (year + j) % 4 == 0;
    if !LeapYear(year + j) {
      LeapIffNotCommon(year + j);
      j := j + 4;
      NextQuadIsLeap(year + j - 4);
    }
  }

  lemma NextQuadIsLeap(year: int)
    requires CommonCentury(year)
    ensures LeapYear(year + 4)
  {
  }

  /** From one year to the next a month starts one or two weekdays later. */
  lemma YearShift(n: int)
    ensures 365 <= MonthStart(n + 12) - MonthStart(n) <= 366
  {
    YearLater(n);
    YearStep(YearOf(n));
    MonthDrift(YearOf(n), MonthOf(n));
  }

  /** How far into the month the weekday first comes. */
  function Lead(n: int, w: int): (x: int)
    ensures 0 <= x <= 6
  {
    (w - WeekdayNumber(MonthStart(n))) % 7
  }

  lemma LeadShift(n: int, w: int)
    requires Lead(n, w) >= 2
    ensures Lead(n, w) - 2 <= Lead(n + 12, w) <= Lead(n, w) - 1
  {
    YearShift(n);
    WeekdayShift(MonthStart(n), MonthStart(n + 12) - MonthStart(n), w);
  }

  lemma WeekdayShift(start: int, days: int, w: int)
    requires (days == 365 || days == 366) && (w - WeekdayNumber(start)) % 7 >= 2
    ensures (w - WeekdayNumber(start + days)) % 7 == (w - WeekdayNumber(start)) % 7 - (days - 364)
  {
  }

  /** The fifth weekday needs days beyond the twenty-eighth. */
  lemma FifthRoom(monthDay: Option<int>, weekday: Option<int>, nth: int, n: int)
    requires monthDay.None? && weekday.Some? && 0 <= weekday.value <= 6 && nth == 5
    ensures Room(monthDay, weekday, nth, n) <==> Lead(n, weekday.value) + 28 < MonthLength(n)
  {
  }

  lemma LongMonth(n: int)
    requires MonthOf(n) != 2
    ensures MonthLength(n) >= 30
  {
  }

  /** The lead falls by one or two a year and cannot jump over the first two days. */
  lemma {:induction false} LeadReaches(n: int, w: int) returns (j: int)
    ensures 0 <= j <= 6 && j <= Lead(n, w) && Lead(n + 12 * j, w) < 2
    decreases Lead(n, w)
  {
    if Lead(n, w) < 2 {
      j := 0;
    } else {
      LeadShift(n, w);
      var more := LeadReaches(n + 12, w);
      j := more + 1;
      assert n + 12 + 12 * more == n + 12 * j;
    }
  }

  lemma YearsLater(n: int, j: int)
    ensures MonthOf(n + 12 * j) == MonthOf(n) && YearOf(n + 12 * j) == YearOf(n) + j
  {
  }

  /** A month other than February has the fifth weekday within seven years. */
  lemma FifthSoon(monthDay: Option<int>, weekday: Option<int>, nth: int, n: int) returns (j: int, m: int)
    requires monthDay.None? && weekday.Some? && 0 <= weekday.value <= 6 && nth == 5 && MonthOf(n) != 2
    ensures 0 <= j <= 6 && m == n + 12 * j && Room(monthDay, weekday, nth, m)
  {
    j := LeadReaches(n, weekday.value);
    m := n + 12 * j;
    YearsLater(n, j);
    LongMonth(m);
    FifthRoom(monthDay, weekday, nth, m);
  }

  // ----- The fifth weekday in February -----

  /** Day number of 1 February. */
  function February(year: int): int { MonthStart(12 * year + 1) }

  /** February of the year has five of the weekday: it has 29 days and starts on it. */
  predicate FifthInFebruary(year: int, w: int) {
    LeapYear(year) && WeekdayNumber(February(year)) == w
  }

  lemma FebruaryIs(year: int)
    ensures YearOf(12 * year + 1) == year && MonthOf(12 * year + 1) == 2
    ensures MonthLength(12 * year + 1) == (if LeapYear(year) then 29 else 28)
    ensures February(year) == DaysBeforeYear(year) + 32
  {
    var month := MonthOf(12 * year + 1);
    assert DaysBeforeMonth(year, month - 1) == 0;
    assert DaysBeforeMonth(year, month) == 31;
  }

  lemma FebruaryRoom(monthDay: Option<int>, weekday: Option<int>, nth: int, year: int, n: int)
    requires monthDay.None? && weekday.Some? && 0 <= weekday.value <= 6 && nth == 5 && n == 12 * year + 1
    ensures Room(monthDay, weekday, nth, n) <==> FifthInFebruary(year, weekday.value)
  {
    FebruaryIs(year);
    FifthRoom(monthDay, weekday, nth, n);
  }

  /** Leap years are multiples of four, written 4q from here on; 4q is a common
      century when 25 divides q and 100 does not. */
  predicate Skipped(q: int) { q % 25 == 0 && q % 100 != 0 }

  lemma ByFour(x: int, a: int, b: int)
    requires x == 4 * a + b && 0 <= b < 4
    ensures x % 4 == b
  {
  }

  lemma ByHundred(x: int, a: int, b: int)
    requires x == 100 * a + b && 0 <= b < 100
    ensures x % 100 == b
  {
  }

  lemma ByFourHundred(x: int, a: int, b: int)
    requires x == 400 * a + b && 0 <= b < 400
    ensures x % 400 == b
  {
  }

  lemma QuadCenturies(q: int)
    ensures 4 * q % 4 == 0 && (4 * q % 100 == 0 <==> q % 25 == 0) && (4 * q % 400 == 0 <==> q % 100 == 0)
  {
    ByFour(4 * q, q, 0);
    ByHundred(4 * q, q / 25, 4 * (q % 25));
    ByFourHundred(4 * q, q / 100, 4 * (q % 100));
  }

  lemma OddYears(q: int)
    ensures !LeapYear(4 * q + 1) && !LeapYear(4 * q + 2) && !LeapYear(4 * q + 3)
  {
    ByFour(4 * q + 1, q, 1);
    ByFour(4 * q + 2, q, 2);
    ByFour(4 * q + 3, q, 3);
  }

  lemma QuadYears(q: int)
    ensures LeapYear(4 * q) <==> !Skipped(q)
    ensures CommonCentury(4 * q) <==> Skipped(q)
    ensures !LeapYear(4 * q + 1) && !LeapYear(4 * q + 2) && !LeapYear(4 * q + 3)
  {
    QuadCenturies(q);
    OddYears(q);
  }

  lemma FourYears(q: int)
    ensures February(4 * (q + 1)) == February(4 * q) + (if Skipped(q) then 1460 else 1461)
  {
    QuadYears(q);
    FebruaryIs(4 * q);
    FebruaryIs(4 * q + 4);
    YearStep(4 * q);
    YearStep(4 * q + 1);
    YearStep(4 * q + 2);
    YearStep(4 * q + 3);
  }

  /** Common centuries among q, q + 1, ..., q + k - 1. */
  function Commons(q: int, k: nat): nat {
    if k == 0 then 0 else Commons(q, k - 1) + if Skipped(q + k - 1) then 1 else 0
  }

  lemma {:induction false} FebruaryAfter(q: int, k: nat)
    ensures February(4 * (q + k)) == February(4 * q) + 1461 * k - Commons(q, k)
    decreases k
  {
    if k > 0 {
      FebruaryAfter(q, k - 1);
      FourYears(q + k - 1);
    }
  }

  /** Common centuries are at least a hundred years apart. */
  lemma CenturiesApart(c: int, p: int)
    requires Skipped(c) && -25 < c - p < 25 && c != p
    ensures !Skipped(p)
  {
  }

  lemma {:induction false} NoCommons(q: int, k: nat)
    requires forall p :: q <= p < q + k ==> !Skipped(p)
    ensures Commons(q, k) == 0
    decreases k
  {
    if k > 0 { NoCommons(q, k - 1); }
  }

  lemma {:induction false} OneCommon(q: int, c: int, k: nat)
    requires Skipped(c) && q <= c < q + 25 && k <= 25
    ensures Commons(q, k) == if c < q + k then 1 else 0
    decreases k
  {
    if k > 0 {
      OneCommon(q, c, k - 1);
      if c != q + k - 1 { CenturiesApart(c, q + k - 1); }
    }
  }

  lemma WeeksPass(start: int, k: nat, c: nat)
    ensures WeekdayNumber(start + 1461 * k - c) == (WeekdayNumber(start) + 5 * k - c) % 7
  {
    assert start + 1461 * k - c + 6 == (start + 6) / 7 * 7 + WeekdayNumber(start) + 5 * k - c + 7 * (208 * k);
  }

  /** The weekday of 1 February, k times four years on. */
  lemma FebruaryWeekday(q: int, k: nat, w: int)
    ensures FifthInFebruary(4 * (q + k), w)
      <==> !Skipped(q + k) && (WeekdayNumber(February(4 * q)) + 5 * k - Commons(q, k)) % 7 == w
  {
    QuadYears(q + k);
    FebruaryAfter(q, k);
    WeeksPass(February(4 * q), k, Commons(q, k));
  }

  /** Steps of four years after which the weekday comes round, century years aside:
      five days a step, and three undoes five modulo seven. */
  function StepsTo(from: int, w: int): (r: int)
    ensures 0 <= r <= 6
  {
    3 * (w - from) % 7
  }

  lemma StepsReach(from: int, w: int)
    requires 0 <= w <= 6
    ensures (from + 5 * StepsTo(from, w)) % 7 == w && (from + 5 * (StepsTo(from, w) + 3) - 1) % 7 == w
  {
    var r := StepsTo(from, w);
    assert 3 * (w - from) == 3 * (w - from) / 7 * 7 + r;
    assert from + 5 * r == w + 7 * (2 * (w - from) - 5 * (3 * (w - from) / 7));
  }

  /** The common century among q, ..., q + 9, if there is one. */
  lemma CenturyAhead(q: int) returns (found: bool, c: int)
    ensures found ==> q <= c < q + 10 && Skipped(c)
    ensures !found ==> forall p :: q <= p < q + 10 ==> !Skipped(p)
  {
    if p :| q <= p < q + 10 && Skipped(p) {
      found, c := true, p;
    } else {
      found, c := false, q;
    }
  }

  /** Any ten of them in a row, forty years, hold every weekday. */
  lemma EveryFortyYears(q: int, w: int) returns (k: nat)
    requires 0 <= w <= 6
    ensures k <= 9 && FifthInFebruary(4 * (q + k), w)
  {
    var found, c := CenturyAhead(q);
    var from := WeekdayNumber(February(4 * q));
    var r := StepsTo(from, w);
    StepsReach(from, w);
    if found && c <= q + r {
      k := r + 3;
      OneCommon(q, c, k);
      CenturiesApart(c, q + k);
    } else {
      k := r;
      if found {
        OneCommon(q, c, k);
        CenturiesApart(c, q + k);
      } else {
        NoCommons(q, k);
      }
    }
    FebruaryWeekday(q, k, w);
  }

  /** A common century falls twelve to twenty-eight years after the year. */
  predicate CenturyBetween(year: int) {
    exists c :: year + 12 <= c <= year + 28 && CommonCentury(c)
  }

  lemma CenturyBetweenIs(q: int)
    ensures CenturyBetween(4 * q) <==> exists c :: q + 3 <= c <= q + 7 && Skipped(c)
  {
    if y :| 4 * q + 12 <= y <= 4 * q + 28 && CommonCentury(y) {
      var c := CenturyQuad(y);
      assert q + 3 <= c <= q + 7 && Skipped(c);
    }
    if c :| q + 3 <= c <= q + 7 && Skipped(c) {
      QuadYears(c);
      assert 4 * q + 12 <= 4 * c <= 4 * q + 28 && CommonCentury(4 * c);
    }
  }

  lemma CenturyQuad(year: int) returns (c: int)
    requires CommonCentury(year)
    ensures year == 4 * c && Skipped(c)
  {
    c := 25 * (year / 100);
    assert year == 4 * c;
    QuadYears(c);
  }

  lemma WholeWeeks(w: int, days: int)
    requires 0 <= w <= 6
    ensures (w + days) % 7 == w <==> days % 7 == 0
  {
  }

  /** Given one such February, when the weekday comes round. */
  lemma ComesRound(q: int, w: int, k: nat, commons: nat)
    requires FifthInFebruary(4 * q, w) && commons == Commons(q, k)
    ensures FifthInFebruary(4 * (q + k), w) <==> !Skipped(q + k) && (5 * k - commons) % 7 == 0
  {
    FebruaryWeekday(q, k, w);
    WholeWeeks(w, 5 * k - commons);
  }

  /** Across a common century it comes round after forty years and not before. */
  lemma AcrossCentury(q: int, w: int, c: int, k: nat)
    requires FifthInFebruary(4 * q, w) && q + 3 <= c <= q + 7 && Skipped(c) && 1 <= k <= 10
    ensures FifthInFebruary(4 * (q + k), w) <==> k == 10
  {
    var commons := if c < q + k then 1 else 0;
    OneCommon(q, c, k);
    ComesRound(q, w, k, commons);
    Sevens(k, commons);
    if c != q + k { CenturiesApart(c, q + k); }
  }

  lemma Sevens(k: int, commons: int)
    requires 1 <= k <= 10 && 0 <= commons <= 1
    ensures (5 * k - commons) % 7 == 0 <==> if commons == 0 then k == 7 else k == 3 || k == 10
  {
  }

  lemma AfterTwelve(q: int, w: int, c: int, k: nat)
    requires FifthInFebruary(4 * q, w) && q < c < q + 3 && Skipped(c) && k == 3
    ensures FifthInFebruary(4 * (q + k), w)
  {
    OneCommon(q, c, k);
    CenturiesApart(c, q + k);
    ComesRound(q, w, k, 1);
  }

  lemma AfterTwentyEight(q: int, w: int, k: nat)
    requires FifthInFebruary(4 * q, w) && (forall p :: q <= p <= q + k ==> !Skipped(p)) && k == 7
    ensures FifthInFebruary(4 * (q + k), w)
  {
    NoCommons(q, k);
    ComesRound(q, w, k, 0);
  }

  /** Otherwise it comes round after twelve or twenty-eight. */
  lemma AnotherFebruary(q: int, w: int) returns (k: nat)
    requires FifthInFebruary(4 * q, w) && forall c :: q + 3 <= c <= q + 7 ==> !Skipped(c)
    ensures 1 <= k <= 9 && FifthInFebruary(4 * (q + k), w)
  {
    QuadYears(q);
    if c :| q < c < q + 3 && Skipped(c) {
      k := 3;
      AfterTwelve(q, w, c, k);
    } else {
      k := 7;
      AfterTwentyEight(q, w, k);
    }
  }

  // ----- Yearly rules -----

  function LongestMonth(month: int): int
    requires 1 <= month <= 12
  {
    if month == 2 then 29 else DaysInMonth(1, month)
  }

  /** Some year has a date for the rule. */
  predicate Satisfiable(rule: Rule)
    requires rule.Yearly?
  {
    && rule.month.Some? && 1 <= rule.month.value <= 12
    && (if rule.monthDay.Some? then 1 <= rule.monthDay.value <= LongestMonth(rule.month.value)
        else rule.weekday.Some? && 0 <= rule.weekday.value <= 6 && (rule.nth < 0 || 1 <= rule.nth <= 5))
  }

  /** The fifth weekday of February, asked for after this year's, with the next one
      forty years away. */
  predicate FebruaryGap(rule: Rule, reference: Date)
    requires rule.Yearly?
  {
    && rule.monthDay.None? && rule.month == Some(2) && rule.weekday.Some? && rule.nth == 5
    && FifthInFebruary(reference.year, rule.weekday.value) && reference.month > 2 && CenturyBetween(reference.year)
  }

  /** The rule's month of a later year is open when it has room. */
  lemma LaterYearOpens(rule: Rule, reference: Date, year: int, n: int)
    requires rule.Yearly? && Valid(reference) && rule.month.Some? && 1 <= rule.month.value <= 12 && year > reference.year
    requires n == 12 * year + rule.month.value - 1 && Room(rule.monthDay, rule.weekday, rule.nth, n)
    ensures Open(rule, reference, n) && Satisfied(rule, reference)
    ensures year < reference.year + YEAR_WINDOW ==> Next(rule, reference).Some?
  {
    YearMonth(year, rule.month.value);
    assert Open(rule, reference, n);
    OpenMonths(rule, reference);
  }

  lemma YearlyDay(rule: Rule, reference: Date)
    requires rule.Yearly? && Valid(reference) && Satisfiable(rule) && rule.monthDay.Some?
    ensures Next(rule, reference).Some? && Satisfied(rule, reference)
  {
    var j := LeapSoon(reference.year + 1);
    var year := if rule.month.value == 2 then reference.year + 1 + j else reference.year + 1;
    YearMonth(year, rule.month.value);
    LaterYearOpens(rule, reference, year, 12 * year + rule.month.value - 1);
  }

  /** Every month has the last and the first four of every weekday. */
  lemma EarlyRoom(monthDay: Option<int>, weekday: Option<int>, nth: int, n: int)
    requires monthDay.None? && weekday.Some? && 0 <= weekday.value <= 6 && (nth < 0 || 1 <= nth <= 4)
    ensures Room(monthDay, weekday, nth, n)
  {
    if nth > 0 {
        RemainderNatural(weekday.value - WeekdayNumber(MonthStart(n)));
    } else {
      BackOffsetNatural(n, weekday.value);
    }
  }

  lemma YearlyEarly(rule: Rule, reference: Date)
    requires rule.Yearly? && Valid(reference) && Satisfiable(rule) && rule.monthDay.None? && rule.nth != 5
    ensures Next(rule, reference).Some? && Satisfied(rule, reference)
  {
    var n := 12 * (reference.year + 1) + rule.month.value - 1;
    EarlyRoom(rule.monthDay, rule.weekday, rule.nth, n);
    LaterYearOpens(rule, reference, reference.year + 1, n);
  }

  lemma YearlyFifth(rule: Rule, reference: Date)
    requires rule.Yearly? && Valid(reference) && Satisfiable(rule) && rule.monthDay.None? && rule.nth == 5
    requires rule.month.value != 2
    ensures Next(rule, reference).Some? && Satisfied(rule, reference)
  {
    var from := 12 * (reference.year + 1) + rule.month.value - 1;
    YearMonth(reference.year + 1, rule.month.value);
    var j, n := FifthSoon(rule.monthDay, rule.weekday, rule.nth, from);
    LaterYearOpens(rule, reference, reference.year + 1 + j, n);
  }

  /** A later February with five of the weekday is found if it is in the window. */
  lemma LaterFebruary(rule: Rule, reference: Date, year: int)
    requires rule.Yearly? && Valid(reference) && rule.monthDay.None? && rule.month == Some(2) && rule.nth == 5
    requires rule.weekday.Some? && 0 <= rule.weekday.value <= 6
    requires year > reference.year && FifthInFebruary(year, rule.weekday.value)
    ensures Satisfied(rule, reference) && (year < reference.year + YEAR_WINDOW ==> Next(rule, reference).Some?)
  {
    var n := 12 * year + 1;
    FebruaryRoom(rule.monthDay, rule.weekday, rule.nth, year, n);
    LaterYearOpens(rule, reference, year, n);
  }

  /** This year's February still counts up to its last day. */
  lemma ThisFebruary(rule: Rule, reference: Date)
    requires rule.Yearly? && Valid(reference) && rule.monthDay.None? && rule.month == Some(2) && rule.nth == 5
    requires rule.weekday.Some? && 0 <= rule.weekday.value <= 6 && reference.month <= 2
    requires FifthInFebruary(reference.year, rule.weekday.value)
    ensures Next(rule, reference).Some? && Satisfied(rule, reference)
  {
    var n := 12 * reference.year + 1;
    FebruaryIs(reference.year);
    FebruaryRoom(rule.monthDay, rule.weekday, rule.nth, reference.year, n);
    FebruaryLastDay(rule.monthDay, rule.weekday, rule.nth, reference.year, n);
    assert Open(rule, reference, n);
    OpenMonths(rule, reference);
  }

  lemma FifthDay(monthDay: Option<int>, weekday: Option<int>, nth: int, n: int)
    requires monthDay.None? && weekday.Some? && 0 <= weekday.value <= 6 && nth == 5
    ensures FittingDay(monthDay, weekday, nth, n) == Lead(n, weekday.value) + 29
  {
  }

  lemma FebruaryLastDay(monthDay: Option<int>, weekday: Option<int>, nth: int, year: int, n: int)
    requires monthDay.None? && weekday.Some? && 0 <= weekday.value <= 6 && nth == 5 && n == 12 * year + 1
    requires FifthInFebruary(year, weekday.value)
    ensures FittingDay(monthDay, weekday, nth, n) == 29
  {
    FifthDay(monthDay, weekday, nth, n);
  }

  /** Open Februaries of the window are this year's, before March, or a later one. */
  lemma OpenFebruary(rule: Rule, reference: Date, n: int)
    requires rule.Yearly? && Valid(reference) && rule.monthDay.None? && rule.month == Some(2) && rule.nth == 5
    requires rule.weekday.Some? && 0 <= rule.weekday.value <= 6 && Open(rule, reference, n)
    ensures var year := YearOf(n);
      && n == 12 * year + 1 && FifthInFebruary(year, rule.weekday.value)
      && (year > reference.year || (year == reference.year && reference.month <= 2))
  {
    var year := YearOf(n);
    assert n == 12 * year + 1;
    FebruaryRoom(rule.monthDay, rule.weekday, rule.nth, year, n);
  }

  lemma QuadOf(year: int) returns (q: int)
    requires LeapYear(year)
    ensures year == 4 * q
  {
    q := year / 4;
  }

  lemma GapMisses(rule: Rule, reference: Date)
    requires rule.Yearly? && Valid(reference) && Satisfiable(rule) && FebruaryGap(rule, reference)
    ensures Next(rule, reference).None? && Satisfied(rule, reference)
  {
    var w := rule.weekday.value;
    var q := QuadOf(reference.year);
    CenturyBetweenIs(q);
    var c :| q + 3 <= c <= q + 7 && Skipped(c);
    AcrossCentury(q, w, c, 10);
    LaterFebruary(rule, reference, 4 * (q + 10));
    OpenMonths(rule, reference);
    forall n | Open(rule, reference, n) ensures n >= WindowEnd(rule, reference) {
      OpenFebruary(rule, reference, n);
      NoFebruaryIn(q, w, c, YearOf(n));
    }
  }

  lemma NoFebruaryIn(q: int, w: int, c: int, year: int)
    requires FifthInFebruary(4 * q, w) && q + 3 <= c <= q + 7 && Skipped(c) && FifthInFebruary(year, w) && year > 4 * q
    ensures year >= 4 * q + 40
  {
    var p := QuadOf(year);
    if p < q + 10 { AcrossCentury(q, w, c, p - q); }
  }

  lemma YearlyFebruary(rule: Rule, reference: Date)
    requires rule.Yearly? && Valid(reference) && Satisfiable(rule) && rule.monthDay.None? && rule.nth == 5
    requires rule.month.value == 2 && !FebruaryGap(rule, reference)
    ensures Next(rule, reference).Some? && Satisfied(rule, reference)
  {
    var y, w := reference.year, rule.weekday.value;
    if FifthInFebruary(y, w) && reference.month <= 2 {
      ThisFebruary(rule, reference);
    } else {
      var year := SomeFebruary(y, w);
      LaterFebruary(rule, reference, year);
    }
  }

  /** Within the forty years of the window another such February lies ahead. */
  lemma SomeFebruary(y: int, w: int) returns (year: int)
    requires 0 <= w <= 6 && !(FifthInFebruary(y, w) && CenturyBetween(y))
    ensures y < year < y + 40 && FifthInFebruary(year, w)
  {
    if FifthInFebruary(y, w) {
      var q := QuadOf(y);
      CenturyBetweenIs(q);
      var k := AnotherFebruary(q, w);
      year := 4 * (q + k);
    } else {
      var q := RoundUp(y);
      var k := EveryFortyYears(q, w);
      year := 4 * (q + k);
    }
  }

  lemma RoundUp(y: int) returns (q: int)
    ensures y <= 4 * q <= y + 3
  {
    q := (y + 3) / 4;
  }

  lemma NoSixthRoom(monthDay: Option<int>, weekday: Option<int>, nth: int, n: int)
    requires monthDay.None? && weekday.Some? && 0 <= weekday.value <= 6 && nth > 5
    ensures !Room(monthDay, weekday, nth, n)
  {
    RemainderNatural(weekday.value - WeekdayNumber(MonthStart(n)));
  }

  /** No year has a date for an unsatisfiable rule. */
  lemma Unsatisfiable(rule: Rule, reference: Date, n: int)
    requires rule.Yearly? && Valid(reference) && !Satisfiable(rule)
    ensures !Open(rule, reference, n)
  {
    if rule.monthDay.None? && rule.weekday.Some? && 0 <= rule.weekday.value <= 6 && rule.nth > 5 {
      NoSixthRoom(rule.monthDay, rule.weekday, rule.nth, n);
    }
  }

  /** A yearly rule has a fitting date exactly when it is satisfiable, and the search
      finds it exactly unless it asks, after this year's, for the fifth weekday of a
      February with a common century twelve to twenty-eight years ahead. */
  lemma YearlyWindow(rule: Rule, reference: Date)
    requires rule.Yearly? && Valid(reference)
    ensures Satisfied(rule, reference) <==> Satisfiable(rule)
    ensures Next(rule, reference).Some? <==> Satisfiable(rule) && !FebruaryGap(rule, reference)
  {
    if !Satisfiable(rule) {
      OpenMonths(rule, reference);
      forall n ensures !Open(rule, reference, n) { Unsatisfiable(rule, reference, n); }
    } else if rule.monthDay.Some? {
      YearlyDay(rule, reference);
    } else if rule.nth != 5 {
      YearlyEarly(rule, reference);
    } else if rule.month.value != 2 {
      YearlyFifth(rule, reference);
    } else if FebruaryGap(rule, reference) {
      GapMisses(rule, reference);
    } else {
      YearlyFebruary(rule, reference);
    }
  }

  lemma DaysBefore2072(year: int)
    requires year == 2072
    ensures DaysBeforeYear(year) == 756417 && LeapYear(year)
  {
    DaysBeforeYearClosed(year);
  }

  lemma February2072(year: int)
    requires year == 2072
    ensures FifthInFebruary(year, 0) && CenturyBetween(year)
  {
    DaysBefore2072(year);
    FebruaryIs(year);
    assert CommonCentury(year + 28);
  }

  /** The fifth Monday of February, asked for in 2072 after that February, is missed:
      the next one is in 2112. */
  lemma FebruaryGapExample(rule: Rule, reference: Date)
    requires rule == Yearly(Some(2), None, Some(0), 5) && Valid(reference) && reference.year == 2072 && reference.month > 2
    ensures Next(rule, reference) == None && Satisfied(rule, reference)
  {
    February2072(reference.year);
    YearlyWindow(rule, reference);
  }
}
