/** The search loops of next_occurrence, proved to find the first fitting date in
    their window, and when the window is long enough. */
module OccurrenceSearch {
  import opened Basics
  import opened Calendar
  import opened Recurrence

  const WEEKLY_DAYS: int := 366 * 20

  // ----- Weekly -----

  lemma NoWeekday(rule: Rule, reference: Date)
    requires rule.Weekly? && Valid(reference) && forall w :: 0 <= w <= 6 ==> w !in WeekdaysOf(rule)
    ensures Next(rule, reference) == None
  {
    assert forall d :: !Fits(rule, reference, d);
  }

  lemma AlwaysInPhase(interval: int, count: int)
    requires count == 0 || count == AtLeastOne(interval)
    ensures InPhase(interval, count)
  {
  }

  /** The first week is in phase whatever the interval. */
  lemma FirstWeek(interval: int, reference: Date, d: Date)
    requires Valid(reference) && Valid(d) && Ordinal(reference) <= Ordinal(d) < Ordinal(reference) + 7
    ensures InPhase(interval, WeeksBetween(reference, d))
  {
    AlwaysInPhase(interval, WeeksBetween(reference, d));
  }

  /** A date within a week of the reference is in the anchor's own week. */
  lemma FirstWeekFits(rule: Rule, reference: Date, d: Date)
    requires rule.Weekly? && Valid(reference) && Valid(d) && Weekday(d) in WeekdaysOf(rule)
    requires Ordinal(reference) <= Ordinal(d) < Ordinal(reference) + 7
    requires forall e :: Valid(e) && Ordinal(reference) <= Ordinal(e) < Ordinal(d) ==> Weekday(e) !in WeekdaysOf(rule)
    ensures InPhase(rule.interval, WeeksBetween(reference, d))
    ensures Next(rule, reference) == Some(d)
  {
    FirstWeek(rule.interval, reference, d);
    assert Fits(rule, reference, d);
    forall e | Fits(rule, reference, e) ensures Ordinal(d) <= Ordinal(e) {
      assert Weekday(e) in WeekdaysOf(rule);
    }
    NextIs(rule, reference, d);
  }

  /** The rule lists the weekday; a list takes precedence over a single weekday. */
  predicate Listed(rule: Rule, w: int)
    requires rule.Weekly?
  {
    if rule.weekdays.Some? then w in rule.weekdays.value else rule.weekday == Some(w)
  }

  /** The first day from the reference on whose weekday is listed, whatever the
      interval, or nothing when no weekday is. */
  ghost predicate FirstListed(rule: Rule, reference: Date, r: Option<Date>)
    requires rule.Weekly? && Valid(reference)
  {
    && (r.Some? <==> exists w :: 0 <= w <= 6 && Listed(rule, w))
    && (r.Some? ==>
          && Valid(r.value) && Listed(rule, Weekday(r.value))
          && Ordinal(reference) <= Ordinal(r.value) < Ordinal(reference) + 7
          && forall d :: Valid(d) && Ordinal(reference) <= Ordinal(d) < Ordinal(r.value) ==> !Listed(rule, Weekday(d)))
  }

  lemma ListedIs(rule: Rule, w: int)
    requires rule.Weekly?
    ensures Listed(rule, w) <==> w in WeekdaysOf(rule)
  {
  }

  lemma NoneListed(rule: Rule, reference: Date)
    requires rule.Weekly? && Valid(reference) && forall w :: 0 <= w <= 6 ==> w !in WeekdaysOf(rule)
    ensures FirstListed(rule, reference, None)
  {
    forall w ensures Listed(rule, w) <==> w in WeekdaysOf(rule) { ListedIs(rule, w); }
  }

  lemma ListedFound(rule: Rule, reference: Date, d: Date)
    requires rule.Weekly? && Valid(reference) && Valid(d) && Weekday(d) in WeekdaysOf(rule)
    requires Ordinal(reference) <= Ordinal(d) < Ordinal(reference) + 7
    requires forall e :: Valid(e) && Ordinal(reference) <= Ordinal(e) < Ordinal(d) ==> Weekday(e) !in WeekdaysOf(rule)
    ensures FirstListed(rule, reference, Some(d))
  {
    forall w ensures Listed(rule, w) <==> w in WeekdaysOf(rule) { ListedIs(rule, w); }
    assert Listed(rule, Weekday(d));
  }

  method NextWeekly(rule: Rule, reference: Date) returns (r: Option<Date>)
    requires rule.Weekly? && Valid(reference)
    ensures r == Next(rule, reference)
    ensures FirstListed(rule, reference, r)
  {
    var weekdays := WeekdaysOf(rule);
    var search := reference;
    for i := 0 to WEEKLY_DAYS
      invariant Valid(search) && Ordinal(search) == Ordinal(reference) + i
      invariant i > 0 ==> forall w :: 0 <= w <= 6 ==> w !in weekdays
    {
      if i == 0 { FirstWeek(rule.interval, reference, search); }
      if InPhase(rule.interval, WeeksBetween(reference, search)) {
        var candidate := FirstWeekdayOnOrAfter(search, weekdays);
        if candidate.Some? {
          assert i == 0;
          FirstWeekFits(rule, reference, candidate.value);
          ListedFound(rule, reference, candidate.value);
          if InPhase(rule.interval, WeeksBetween(reference, candidate.value)) {
            return candidate;
          }
        }
      }
      NextDay(search);
      search := AddDays(search, 1);
    }
    NoWeekday(rule, reference);
    NoneListed(rule, reference);
    return None;
  }

  // ----- Monthly and yearly: one candidate a month -----

  /** The months a rule looks at. */
  predicate Allows(rule: Rule, reference: Date, n: int)
    requires (rule.Monthly? || rule.Yearly?) && Valid(reference)
  {
    if rule.Monthly? then InPhase(rule.interval, n - MonthNumber(reference))
    else rule.month == Some(MonthOf(n))
  }

  /** What the search finds in one month. */
  function HitAt(rule: Rule, reference: Date, n: int): Option<Date>
    requires (rule.Monthly? || rule.Yearly?) && Valid(reference)
  {
    var c := MonthCandidate(n, rule.monthDay, rule.weekday, rule.nth);
    if Allows(rule, reference, n) && c.Some? && Valid(c.value) && Ordinal(reference) <= Ordinal(c.value) then c else None
  }

  /** The first month of the search and the first one beyond it. */
  function WindowStart(rule: Rule, reference: Date): int
    requires Valid(reference)
  {
    if rule.Monthly? then MonthNumber(reference) else 12 * reference.year
  }

  function WindowEnd(rule: Rule, reference: Date): int
    requires Valid(reference)
  {
    if rule.Monthly? then MonthNumber(reference) + MONTH_WINDOW else 12 * (reference.year + YEAR_WINDOW)
  }

  function HitsOf(rule: Rule, reference: Date): int -> Option<Date>
    requires (rule.Monthly? || rule.Yearly?) && Valid(reference)
  {
    n => HitAt(rule, reference, n)
  }

  /** The first hit from month `from` on. */
  function SearchFrom(hit: int -> Option<Date>, from: int, until: int): Option<Date>
    decreases until - from
  {
    if from >= until then None else if hit(from).Some? then hit(from) else SearchFrom(hit, from + 1, until)
  }

  lemma {:induction false} SearchHits(hit: int -> Option<Date>, from: int, until: int)
    ensures var r := SearchFrom(hit, from, until);
      if r.Some? then exists n :: from <= n < until && hit(n) == r else forall n :: from <= n < until ==> hit(n).None?
    decreases until - from
  {
    if from < until && hit(from).None? { SearchHits(hit, from + 1, until); }
  }

  lemma {:induction false} Skips(hit: int -> Option<Date>, from: int, mid: int, until: int)
    requires from <= mid <= until && forall n :: from <= n < mid ==> hit(n).None?
    ensures SearchFrom(hit, from, until) == SearchFrom(hit, mid, until)
    decreases mid - from
  {
    if from < mid { Skips(hit, from + 1, mid, until); }
  }

  /** What the code returns for any rule. */
  ghost function Found(rule: Rule, reference: Date): Option<Date>
    requires Valid(reference)
  {
    if rule.Monthly? || rule.Yearly? then
      SearchFrom(HitsOf(rule, reference), WindowStart(rule, reference), WindowEnd(rule, reference))
    else Next(rule, reference)
  }

  /** A month of the window whose candidate lands in a later year is reported. */
  ghost predicate StraysAt(rule: Rule, reference: Date, n: int)
    requires Valid(reference)
  {
    && (rule.Monthly? || rule.Yearly?) && rule.monthDay.None? && rule.weekday.Some?
    && WindowStart(rule, reference) <= n < WindowEnd(rule, reference)
    && HitAt(rule, reference, n).Some? && LandsLater(n, rule.weekday.value, rule.nth)
  }

  ghost predicate Strays(rule: Rule, reference: Date)
    requires Valid(reference)
  {
    exists n :: StraysAt(rule, reference, n)
  }

  // ----- The search decides -----

  /** No fitting date lies before month `n`. */
  ghost predicate NothingBefore(rule: Rule, reference: Date, n: int)
    requires Valid(reference)
  {
    forall d :: Fits(rule, reference, d) ==> MonthNumber(d) >= n
  }

  lemma NothingBeforeReference(rule: Rule, reference: Date)
    requires Valid(reference)
    ensures NothingBefore(rule, reference, MonthNumber(reference))
  {
    forall d | Fits(rule, reference, d) ensures MonthNumber(d) >= MonthNumber(reference) {
      if MonthNumber(d) < MonthNumber(reference) { EarlierMonth(d, reference); }
    }
  }

  lemma FitsByDay(rule: Rule, reference: Date, n: int, d: Date)
    requires (rule.Monthly? || rule.Yearly?) && Valid(reference) && Valid(d) && MonthNumber(d) == n
    ensures Fits(rule, reference, d) <==>
      Allows(rule, reference, n) && Ordinal(reference) <= Ordinal(d) && DayFits(rule.monthDay, rule.weekday, rule.nth, d)
  {
    OrdinalInMonth(d);
  }

  /** Which dates of a month fit. */
  lemma FitsInMonth(rule: Rule, reference: Date, n: int, d: Date)
    requires (rule.Monthly? || rule.Yearly?) && Valid(reference) && Valid(d) && MonthNumber(d) == n
    ensures Fits(rule, reference, d) <==>
      && Allows(rule, reference, n) && Ordinal(reference) <= Ordinal(d)
      && d.day == FittingDay(rule.monthDay, rule.weekday, rule.nth, n)
  {
    FitsByDay(rule, reference, n, d);
    FittingDayIs(rule.monthDay, rule.weekday, rule.nth, n, d);
  }

  /** The fitting date of a month, when nothing fits before it, is the first of all. */
  lemma FirstInMonth(rule: Rule, reference: Date, n: int, d: Date)
    requires Valid(reference) && (rule.Monthly? || rule.Yearly?) && NothingBefore(rule, reference, n)
    requires Fits(rule, reference, d) && MonthNumber(d) == n
    ensures IsFirst(rule, reference, d)
  {
    FitsInMonth(rule, reference, n, d);
    OrdinalInMonth(d);
    forall e | Fits(rule, reference, e) ensures Ordinal(d) <= Ordinal(e) {
      if MonthNumber(e) == n {
        FitsInMonth(rule, reference, n, e);
        OrdinalInMonth(e);
      } else {
        EarlierMonth(d, e);
      }
    }
  }

  lemma HitFits(rule: Rule, reference: Date, n: int, d: Date)
    requires (rule.Monthly? || rule.Yearly?) && Supported(rule) && Valid(reference) && Valid(d)
    ensures HitAt(rule, reference, n) == Some(d) <==> Fits(rule, reference, d) && MonthNumber(d) == n
  {
    if MonthNumber(d) == n { FitsByDay(rule, reference, n, d); }
    if rule.monthDay.Some? || rule.weekday.Some? { CandidateFits(n, rule.monthDay, rule.weekday, rule.nth, d); }
  }

  lemma HitDecides(rule: Rule, reference: Date, n: int)
    requires (rule.Monthly? || rule.Yearly?) && Supported(rule) && Valid(reference) && NothingBefore(rule, reference, n)
    ensures var hit := HitAt(rule, reference, n);
      if hit.Some? then IsFirst(rule, reference, hit.value) && MonthNumber(hit.value) == n
      else NothingBefore(rule, reference, n + 1)
  {
    var hit := HitAt(rule, reference, n);
    if hit.Some? {
      HitFits(rule, reference, n, hit.value);
      FirstInMonth(rule, reference, n, hit.value);
    } else {
      forall d | Fits(rule, reference, d) ensures MonthNumber(d) != n { HitFits(rule, reference, n, d); }
    }
  }

  lemma WindowIs(rule: Rule, reference: Date, d: Date)
    requires (rule.Monthly? || rule.Yearly?) && Valid(reference) && Valid(d)
    ensures InWindow(rule, reference, d) <==> MonthNumber(d) < WindowEnd(rule, reference)
  {
  }

  lemma {:induction false} SearchDecides(rule: Rule, reference: Date, n: int)
    requires (rule.Monthly? || rule.Yearly?) && Supported(rule) && Valid(reference) && NothingBefore(rule, reference, n)
    ensures SearchFrom(HitsOf(rule, reference), n, WindowEnd(rule, reference)) == Next(rule, reference)
    decreases WindowEnd(rule, reference) - n
  {
    if n >= WindowEnd(rule, reference) {
      forall d | Fits(rule, reference, d) ensures !InWindow(rule, reference, d) { WindowIs(rule, reference, d); }
    } else {
      HitDecides(rule, reference, n);
      var hit := HitAt(rule, reference, n);
      if hit.Some? {
        WindowIs(rule, reference, hit.value);
        NextIs(rule, reference, hit.value);
      } else {
        SearchDecides(rule, reference, n + 1);
      }
    }
  }

  lemma SupportedFinds(rule: Rule, reference: Date)
    requires Supported(rule) && Valid(reference)
    ensures Found(rule, reference) == Next(rule, reference)
  {
    if rule.Monthly? || rule.Yearly? {
      NothingBeforeReference(rule, reference);
      SearchDecides(rule, reference, WindowStart(rule, reference));
    }
  }

  /** What is found is what some month of the window gives. */
  lemma FoundInMonth(rule: Rule, reference: Date)
    requires (rule.Monthly? || rule.Yearly?) && Valid(reference)
    ensures var r, from, until := Found(rule, reference), WindowStart(rule, reference), WindowEnd(rule, reference);
      if r.Some? then exists n :: from <= n < until && HitAt(rule, reference, n) == r
      else forall n :: from <= n < until ==> HitAt(rule, reference, n).None?
  {
    var hit, from, until := HitsOf(rule, reference), WindowStart(rule, reference), WindowEnd(rule, reference);
    SearchHits(hit, from, until);
    forall n ensures hit(n) == HitAt(rule, reference, n) {}
  }

  /** With an nth above the safe range, no date fits, and whatever is reported strays. */
  lemma UnsupportedStrays(rule: Rule, reference: Date)
    requires !Supported(rule) && Valid(reference)
    ensures Next(rule, reference) == None
    ensures Found(rule, reference).Some? <==> Strays(rule, reference)
  {
    forall d | Valid(d) ensures !DayFits(None, rule.weekday, rule.nth, d) { NoSixth(rule.weekday, rule.nth, d); }
    assert forall d :: !Fits(rule, reference, d);
    FoundInMonth(rule, reference);
    forall n | HitAt(rule, reference, n).Some? ensures LandsLater(n, rule.weekday.value, rule.nth) {
      HighHitLands(n, rule.weekday.value, rule.nth);
    }
    if Found(rule, reference).Some? {
      var n :| WindowStart(rule, reference) <= n < WindowEnd(rule, reference)
        && HitAt(rule, reference, n) == Found(rule, reference);
      assert StraysAt(rule, reference, n);
    }
  }

  lemma HighHitLands(n: int, weekday: int, nth: int)
    requires nth > LARGEST_SAFE_NTH && NthWeekdayOfMonth(n, weekday, nth).Some?
    ensures LandsLater(n, weekday, nth)
  {
    RemainderNatural(weekday - WeekdayNumber(MonthStart(n)));
    BeyondMonth(n, weekday, nth);
  }

  /** For every rule and reference, the code returns the first fitting date of the
      window exactly unless some month of the window lands in a later year. */
  lemma FoundIsNextIff(rule: Rule, reference: Date)
    requires Valid(reference)
    ensures Found(rule, reference) == Next(rule, reference) <==> !Strays(rule, reference)
  {
    if Supported(rule) {
      SupportedFinds(rule, reference);
      forall n ensures !StraysAt(rule, reference, n) {
        if (rule.Monthly? || rule.Yearly?) && rule.monthDay.None? && rule.weekday.Some? {
          SmallNthStays(n, rule.weekday.value, rule.nth);
        }
      }
    } else {
      UnsupportedStrays(rule, reference);
    }
  }

  // ----- The loops -----

  lemma YearMonth(year: int, month: int)
    requires 1 <= month <= 12
    ensures YearOf(12 * year + month - 1) == year && MonthOf(12 * year + month - 1) == month
  {
  }

  /** The date a rule names in one month: a day of the month, or an nth weekday. */
  method CandidateIn(year: int, month: int, n: int, monthDay: Option<int>, weekday: Option<int>, nth: int)
    returns (r: Option<Date>)
    requires 1 <= month <= 12 && n == 12 * year + month - 1
    ensures r == MonthCandidate(n, monthDay, weekday, nth)
    ensures r.Some? ==> Valid(r.value)
  {
    YearMonth(year, month);
    assert MonthLength(n) == DaysInMonth(year, month);
    if monthDay.Some? {
      if !(1 <= monthDay.value <= DaysInMonth(year, month)) { return None; }
      return Some(Date(year, month, monthDay.value));
    } else if weekday.Some? {
      r := NthWeekdayOfMonth(n, weekday.value, nth);
      if r.Some? { CandidateValid(n, monthDay, weekday, nth); }
    } else {
      return None;
    }
  }

  /** Moving on from the first of a month to the first of the next. */
  lemma NextMonthStart(d: Date)
    requires Valid(d) && d.day == 1
    ensures Valid(AddMonths(d, 1)) && MonthNumber(AddMonths(d, 1)) == MonthNumber(d) + 1 && AddMonths(d, 1).day == 1
  {
    DayOfMonth(MonthNumber(d) + 1, 0);
  }

  /** No month of the window before `n` gave a date. */
  ghost predicate MissedBefore(rule: Rule, reference: Date, n: int)
    requires (rule.Monthly? || rule.Yearly?) && Valid(reference)
  {
    forall m :: WindowStart(rule, reference) <= m < n ==> HitAt(rule, reference, m).None?
  }

  /** The first month that gives a date decides, and so does having missed them all. */
  lemma FoundAt(rule: Rule, reference: Date, n: int)
    requires (rule.Monthly? || rule.Yearly?) && Valid(reference) && MissedBefore(rule, reference, n)
    requires WindowStart(rule, reference) <= n <= WindowEnd(rule, reference)
    ensures n == WindowEnd(rule, reference) ==> Found(rule, reference) == None
    ensures n < WindowEnd(rule, reference) && HitAt(rule, reference, n).Some? ==>
      Found(rule, reference) == HitAt(rule, reference, n)
  {
    var hit := HitsOf(rule, reference);
    forall m ensures hit(m) == HitAt(rule, reference, m) {}
    Skips(hit, WindowStart(rule, reference), n, WindowEnd(rule, reference));
  }

  /** A candidate of a month the rule looks at, on or after the reference, is the answer. */
  lemma Hits(rule: Rule, reference: Date, n: int, candidate: Date)
    requires (rule.Monthly? || rule.Yearly?) && Valid(reference) && MissedBefore(rule, reference, n)
    requires WindowStart(rule, reference) <= n < WindowEnd(rule, reference) && Allows(rule, reference, n)
    requires MonthCandidate(n, rule.monthDay, rule.weekday, rule.nth) == Some(candidate) && Valid(candidate)
    requires Ordinal(reference) <= Ordinal(candidate)
    ensures Found(rule, reference) == Some(candidate)
  {
    FoundAt(rule, reference, n);
  }

  /** Any other month is passed over. */
  lemma Misses(rule: Rule, reference: Date, n: int)
    requires (rule.Monthly? || rule.Yearly?) && Valid(reference) && MissedBefore(rule, reference, n)
    requires Allows(rule, reference, n) ==>
      var c := MonthCandidate(n, rule.monthDay, rule.weekday, rule.nth);
      c.Some? && Valid(c.value) ==> Ordinal(c.value) < Ordinal(reference)
    ensures MissedBefore(rule, reference, n + 1)
  {
  }

  lemma MonthMisses(rule: Rule, reference: Date, n: int, candidate: Option<Date>)
    requires rule.Monthly? && Valid(reference) && MissedBefore(rule, reference, n)
    requires candidate == MonthCandidate(n, rule.monthDay, rule.weekday, rule.nth)
    requires candidate.Some? ==> Valid(candidate.value) && Ordinal(candidate.value) < Ordinal(reference)
    ensures MissedBefore(rule, reference, n + 1)
  {
    Misses(rule, reference, n);
  }

  lemma NoDayGiven(rule: Rule, reference: Date)
    requires (rule.Yearly? || rule.Monthly?) && rule.monthDay.None? && rule.weekday.None? && Valid(reference)
    ensures Found(rule, reference) == None
  {
    FoundInMonth(rule, reference);
  }

  method NextMonthly(rule: Rule, reference: Date) returns (r: Option<Date>)
    requires rule.Monthly? && Valid(reference)
    ensures r == Found(rule, reference)
    ensures r == Next(rule, reference) <==> !Strays(rule, reference)
  {
    FoundIsNextIff(rule, reference);
    var search := Date(reference.year, reference.month, 1);
    for i := 0 to MONTH_WINDOW
      invariant Valid(search) && search.day == 1 && MonthNumber(search) == MonthNumber(reference) + i
      invariant MissedBefore(rule, reference, MonthNumber(search))
    {
      var months := (search.year - reference.year) * 12 + search.month - reference.month;
      if InPhase(rule.interval, months) {
        if rule.monthDay.None? && rule.weekday.None? {
          NoDayGiven(rule, reference);
          return None;
        }
        var candidate := CandidateIn(search.year, search.month, MonthNumber(search), rule.monthDay, rule.weekday, rule.nth);
        if candidate.Some? && Ordinal(reference) <= Ordinal(candidate.value) {
          Hits(rule, reference, MonthNumber(search), candidate.value);
          return candidate;
        }
        MonthMisses(rule, reference, MonthNumber(search), candidate);
      } else {
        Misses(rule, reference, MonthNumber(search));
      }
      NextMonthStart(search);
      search := AddMonths(search, 1);
    }
    FoundAt(rule, reference, WindowEnd(rule, reference));
    return None;
  }

  /** A year's other months are not looked at. */
  lemma OtherMonths(rule: Rule, reference: Date, year: int)
    requires rule.Yearly? && Valid(reference) && rule.month.Some? && 1 <= rule.month.value <= 12
    ensures forall m :: 12 * year <= m < 12 * (year + 1) && m != 12 * year + rule.month.value - 1 ==>
      !Allows(rule, reference, m)
    ensures Allows(rule, reference, 12 * year + rule.month.value - 1)
  {
    forall m | 12 * year <= m < 12 * (year + 1) ensures MonthOf(m) == m - 12 * year + 1 {
      YearMonth(year, m - 12 * year + 1);
    }
  }

  lemma YearBegins(rule: Rule, reference: Date, year: int)
    requires rule.Yearly? && Valid(reference) && rule.month.Some? && 1 <= rule.month.value <= 12
    requires MissedBefore(rule, reference, 12 * year)
    ensures MissedBefore(rule, reference, 12 * year + rule.month.value - 1)
    ensures Allows(rule, reference, 12 * year + rule.month.value - 1)
  {
    OtherMonths(rule, reference, year);
  }

  lemma YearEnds(rule: Rule, reference: Date, year: int)
    requires rule.Yearly? && Valid(reference) && rule.month.Some? && 1 <= rule.month.value <= 12
    requires MissedBefore(rule, reference, 12 * year + rule.month.value)
    ensures MissedBefore(rule, reference, 12 * (year + 1))
  {
    OtherMonths(rule, reference, year);
  }

  lemma YearHits(rule: Rule, reference: Date, year: int, n: int, candidate: Date)
    requires rule.Yearly? && Valid(reference) && rule.month.Some? && 1 <= rule.month.value <= 12
    requires reference.year <= year < reference.year + YEAR_WINDOW && n == 12 * year + rule.month.value - 1
    requires MissedBefore(rule, reference, 12 * year)
    requires MonthCandidate(n, rule.monthDay, rule.weekday, rule.nth) == Some(candidate) && Valid(candidate)
    requires Ordinal(reference) <= Ordinal(candidate)
    ensures Found(rule, reference) == Some(candidate)
  {
    YearBegins(rule, reference, year);
    Hits(rule, reference, n, candidate);
  }

  lemma YearMisses(rule: Rule, reference: Date, year: int, n: int, candidate: Option<Date>)
    requires rule.Yearly? && Valid(reference) && rule.month.Some? && 1 <= rule.month.value <= 12
    requires MissedBefore(rule, reference, 12 * year) && n == 12 * year + rule.month.value - 1
    requires candidate == MonthCandidate(n, rule.monthDay, rule.weekday, rule.nth)
    requires candidate.Some? ==> Valid(candidate.value) && Ordinal(candidate.value) < Ordinal(reference)
    ensures MissedBefore(rule, reference, 12 * (year + 1))
  {
    YearBegins(rule, reference, year);
    Misses(rule, reference, n);
    YearEnds(rule, reference, year);
  }

  lemma NoSuchMonth(rule: Rule, reference: Date)
    requires rule.Yearly? && Valid(reference) && (rule.month.None? || !(1 <= rule.month.value <= 12))
    ensures Found(rule, reference) == None
  {
    FoundInMonth(rule, reference);
  }

  method NextYearly(rule: Rule, reference: Date) returns (r: Option<Date>)
    requires rule.Yearly? && Valid(reference)
    ensures r == Found(rule, reference)
    ensures r == Next(rule, reference) <==> !Strays(rule, reference)
  {
    FoundIsNextIff(rule, reference);
    if rule.month.None? || !(1 <= rule.month.value <= 12) {
      NoSuchMonth(rule, reference);
      return None;
    }
    var month := rule.month.value;
    for year := reference.year to reference.year + YEAR_WINDOW
      invariant MissedBefore(rule, reference, 12 * year)
    {
      if rule.monthDay.None? && rule.weekday.None? {
        NoDayGiven(rule, reference);
        return None;
      }
      var n := 12 * year + month - 1;
      var candidate := CandidateIn(year, month, n, rule.monthDay, rule.weekday, rule.nth);
      if candidate.Some? && Ordinal(reference) <= Ordinal(candidate.value) {
        YearHits(rule, reference, year, n, candidate.value);
        return candidate;
      }
      YearMisses(rule, reference, year, n, candidate);
    }
    FoundAt(rule, reference, WindowEnd(rule, reference));
    return None;
  }

  /** The code for any rule: the first fitting date of the window, exactly unless a
      month of the window lands in a later year. */
  method NextOccurrence(rule: Rule, reference: Date) returns (r: Option<Date>)
    requires Valid(reference)
    ensures r == Found(rule, reference)
    ensures r == Next(rule, reference) <==> !Strays(rule, reference)
  {
    FoundIsNextIff(rule, reference);
    match rule
    case Once(date) => r := date;
    case Weekly(_, _, _) => r := NextWeekly(rule, reference);
    case Monthly(_, _, _, _) => r := NextMonthly(rule, reference);
    case Yearly(_, _, _, _) => r := NextYearly(rule, reference);
  }
}
