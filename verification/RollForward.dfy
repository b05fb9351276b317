/** Materialised next dates: what housekeeping stores as an event's next
    occurrence, and where applying it again and again ends. */
module RollForward {
  import opened Basics
  import opened Calendar
  import opened Recurrence
  import opened OccurrenceSearch

  ghost predicate ValidDate(d: Option<Date>) { d.Some? ==> Valid(d.value) }

  ghost predicate ValidRule(rule: Rule) { rule.Once? ==> ValidDate(rule.date) }

  /** A date the rule would give when searched from that date. */
  ghost predicate Matches(rule: Rule, d: Date)
    requires Valid(d)
  {
    Found(rule, d) == Some(d)
  }

  /** What the search returns is a date on or after the reference. */
  lemma FoundLater(rule: Rule, reference: Date)
    requires Valid(reference) && ValidRule(rule)
    ensures ValidDate(Found(rule, reference))
    ensures !rule.Once? && Found(rule, reference).Some? ==> Ordinal(Found(rule, reference).value) >= Ordinal(reference)
  {
    if rule.Monthly? || rule.Yearly? { FoundInMonth(rule, reference); }
  }

  /** Searching again from a date the search returned gives that date, unless the
      rule's nth is beyond a year. */
  lemma FoundIsFixed(rule: Rule, reference: Date)
    requires Valid(reference) && ValidRule(rule) && Supported(rule) && Found(rule, reference).Some?
    ensures Valid(Found(rule, reference).value) && Matches(rule, Found(rule, reference).value)
  {
    FoundLater(rule, reference);
    SupportedFinds(rule, reference);
    NextIsFixed(rule, reference);
    SupportedFinds(rule, Found(rule, reference).value);
  }

  /** The Monday of the date's week, as a day number. */
  function WeekStart(d: Date): int
    requires Valid(d)
  {
    Ordinal(d) - Weekday(d)
  }

  /** One application of the materialised-next-date function. */
  ghost function Roll(rule: Option<Rule>, current: Option<Date>, today: Date): (r: Option<Date>)
    requires Valid(today) && ValidDate(current) && (rule.Some? ==> ValidRule(rule.value))
    ensures ValidDate(r)
  {
    if rule.None? then None
    else if current.Some? && Matches(rule.value, current.value)
            && Ordinal(current.value) < Ordinal(today) && Ordinal(today) >= WeekStart(current.value) then
      NextDay(current.value);
      FoundLater(rule.value, AddDays(current.value, 1));
      Found(rule.value, AddDays(current.value, 1))
    else if current.Some? && Matches(rule.value, current.value) && Ordinal(current.value) >= Ordinal(today) then current
    else
      FoundLater(rule.value, today);
      Found(rule.value, today)
  }

  /** The first date from the reference on that fits the rule anchored there, or
      nothing when the window has none. */
  ghost predicate FirstFrom(rule: Rule, reference: Date, r: Option<Date>)
    requires Valid(reference)
  {
    if r.Some? then IsFirst(rule, reference, r.value) && InWindow(rule, reference, r.value)
    else forall d :: Fits(rule, reference, d) ==> !InWindow(rule, reference, d)
  }

  /** A date that fits the rule anchored at itself. */
  ghost predicate OnRule(rule: Rule, d: Date) { Valid(d) && Fits(rule, d, d) }

  /** What a recurring rule stores: a past date of the rule gives way to the first one
      strictly after it, a date of the rule from today on is kept, and anything else
      to the first one from today on. */
  ghost predicate Materialised(rule: Rule, current: Option<Date>, today: Date, r: Option<Date>)
    requires Valid(today)
  {
    if current.Some? && OnRule(rule, current.value) then
      if Ordinal(current.value) < Ordinal(today) then
        Valid(AddDays(current.value, 1)) && FirstFrom(rule, AddDays(current.value, 1), r)
      else r == current
    else FirstFrom(rule, today, r)
  }

  lemma FoundIsFirst(rule: Rule, reference: Date)
    requires Valid(reference) && Supported(rule) && !rule.Once?
    ensures FirstFrom(rule, reference, Found(rule, reference))
  {
    SupportedFinds(rule, reference);
  }

  lemma MatchesIsOnRule(rule: Rule, d: Date)
    requires Valid(d) && Supported(rule) && !rule.Once?
    ensures Matches(rule, d) <==> OnRule(rule, d)
  {
    SupportedFinds(rule, d);
    if OnRule(rule, d) {
      assert IsFirst(rule, d, d);
      NextIs(rule, d, d);
    }
  }

  lemma RollIsMaterialised(rule: Rule, current: Option<Date>, today: Date)
    requires Valid(today) && ValidDate(current) && Supported(rule) && !rule.Once?
    ensures Materialised(rule, current, today, Roll(Some(rule), current, today))
  {
    FoundIsFirst(rule, today);
    if current.Some? {
      MatchesIsOnRule(rule, current.value);
      NextDay(current.value);
      FoundIsFirst(rule, AddDays(current.value, 1));
      if Ordinal(current.value) < Ordinal(today) { WeekHasBegun(current.value, today); }
    }
  }

  /** A one-off rule always stores its own date. */
  lemma RollOnce(rule: Rule, current: Option<Date>, today: Date)
    requires Valid(today) && ValidDate(current) && ValidRule(rule) && rule.Once?
    ensures Roll(Some(rule), current, today) == rule.date
  {
  }

  /** The code: the search loops decide whether the stored date still matches. */
  method Materialise(rule: Option<Rule>, current: Option<Date>, today: Date) returns (r: Option<Date>)
    requires Valid(today) && ValidDate(current) && (rule.Some? ==> ValidRule(rule.value))
    ensures rule.None? ==> r == None
    ensures rule.Some? && rule.value.Once? ==> r == rule.value.date
    ensures rule.Some? && !rule.value.Once? && Supported(rule.value) ==> Materialised(rule.value, current, today, r)
    ensures r == Roll(rule, current, today)
  {
    if rule.Some? && rule.value.Once? { RollOnce(rule.value, current, today); }
    if rule.Some? && !rule.value.Once? && Supported(rule.value) { RollIsMaterialised(rule.value, current, today); }
    if rule.None? { return None; }
    if current.Some? {
      var again := NextOccurrence(rule.value, current.value);
      if again == current {
        if Ordinal(current.value) < Ordinal(today) && Ordinal(today) >= WeekStart(current.value) {
          NextDay(current.value);
          r := NextOccurrence(rule.value, AddDays(current.value, 1));
          return;
        }
        if Ordinal(current.value) >= Ordinal(today) { return current; }
      }
    }
    r := NextOccurrence(rule.value, today);
  }

  /** The completion test never holds a past date back: its week has begun. */
  lemma WeekHasBegun(d: Date, today: Date)
    requires Valid(d) && Valid(today) && Ordinal(d) < Ordinal(today)
    ensures Ordinal(today) >= WeekStart(d)
  {
  }

  /** Storing is documented to keep a date until its week is completed. A recurring
      date is replaced before that exactly on the days after it in its own week. */
  lemma ReplacedEarly(rule: Rule, d: Date, today: Date)
    requires Valid(d) && Valid(today) && !rule.Once? && Matches(rule, d)
    ensures Roll(Some(rule), Some(d), today) != Some(d) && Ordinal(today) < WeekStart(d) + 7
      <==> Ordinal(d) < Ordinal(today) < WeekStart(d) + 7
  {
    NextDay(d);
    FoundLater(rule, AddDays(d, 1));
  }

  /** Repeated application at a fixed today. */
  ghost function Rolled(rule: Option<Rule>, current: Option<Date>, today: Date, times: nat): (r: Option<Date>)
    requires Valid(today) && ValidDate(current) && (rule.Some? ==> ValidRule(rule.value))
    ensures ValidDate(r)
    decreases times
  {
    if times == 0 then current else Rolled(rule, Roll(rule, current, today), today, times - 1)
  }

  /** A stored past date of a recurring rule is replaced by a strictly later one,
      which matches again unless the rule's nth is beyond a year. */
  lemma RollAdvances(rule: Rule, current: Date, today: Date)
    requires Valid(today) && Valid(current) && !rule.Once? && Matches(rule, current) && Ordinal(current) < Ordinal(today)
    ensures var next := Roll(Some(rule), Some(current), today);
      next.Some? ==> Ordinal(next.value) > Ordinal(current) && (Supported(rule) ==> Matches(rule, next.value))
  {
    WeekHasBegun(current, today);
    NextDay(current);
    FoundLater(rule, AddDays(current, 1));
    if Supported(rule) && Found(rule, AddDays(current, 1)).Some? { FoundIsFixed(rule, AddDays(current, 1)); }
  }

  /** What never changes again: nothing when no date can be found, a date on or
      after today that matches the rule or is what a search from today gives, or the
      date of a one-off event. */
  ghost predicate Settled(rule: Option<Rule>, current: Option<Date>, today: Date)
    requires Valid(today) && ValidDate(current) && (rule.Some? ==> ValidRule(rule.value))
  {
    if rule.None? then current.None?
    else if rule.value.Once? then current == rule.value.date
    else if current.None? then Found(rule.value, today).None?
    else
      && Ordinal(current.value) >= Ordinal(today)
      && (Matches(rule.value, current.value) || Found(rule.value, today) == current)
  }

  /** With an nth within a year, what is settled matches the rule. */
  lemma SettledMatches(rule: Rule, current: Date, today: Date)
    requires Valid(today) && Valid(current) && !rule.Once? && Supported(rule)
    ensures Settled(Some(rule), Some(current), today) <==> Ordinal(current) >= Ordinal(today) && Matches(rule, current)
  {
    if Found(rule, today) == Some(current) { FoundIsFixed(rule, today); }
  }

  lemma SettledIffFixed(rule: Option<Rule>, current: Option<Date>, today: Date)
    requires Valid(today) && ValidDate(current) && (rule.Some? ==> ValidRule(rule.value))
    ensures Roll(rule, current, today) == current <==> Settled(rule, current, today)
  {
    if rule.Some? && !rule.value.Once? && current.Some? {
      if Matches(rule.value, current.value) && Ordinal(current.value) < Ordinal(today) {
        RollAdvances(rule.value, current.value, today);
      }
      FoundLater(rule.value, today);
    } else if rule.Some? && rule.value.Once? && current.Some? && Ordinal(current.value) < Ordinal(today) {
      WeekHasBegun(current.value, today);
    }
  }

  /** Days from a stored date to today. */
  function DaysLeft(current: Option<Date>, today: Date): nat
    requires Valid(today) && ValidDate(current)
  {
    if current.Some? && Ordinal(current.value) < Ordinal(today) then Ordinal(today) - Ordinal(current.value) else 0
  }

  lemma OneMore(rule: Option<Rule>, current: Option<Date>, today: Date, n: nat)
    requires Valid(today) && ValidDate(current) && (rule.Some? ==> ValidRule(rule.value))
    requires Settled(rule, Rolled(rule, Roll(rule, current, today), today, n), today)
    ensures Settled(rule, Rolled(rule, current, today, n + 1), today)
  {
  }

  /** A search from today settles at once. */
  lemma SearchSettles(rule: Rule, today: Date)
    requires Valid(today) && ValidRule(rule)
    ensures ValidDate(Found(rule, today)) && Settled(Some(rule), Found(rule, today), today)
  {
    FoundLater(rule, today);
  }

  lemma RollShortens(rule: Rule, current: Date, today: Date)
    requires Valid(today) && Valid(current) && !rule.Once? && Matches(rule, current) && Ordinal(current) < Ordinal(today)
    ensures DaysLeft(Roll(Some(rule), Some(current), today), today) < DaysLeft(Some(current), today)
  {
    RollAdvances(rule, current, today);
  }

  /** A date that does not match, or none, is replaced by a search from today. */
  lemma OtherwiseSearched(rule: Rule, current: Option<Date>, today: Date)
    requires Valid(today) && ValidDate(current) && ValidRule(rule)
    requires current.Some? ==> rule.Once? || !Matches(rule, current.value)
    ensures Settled(Some(rule), Roll(Some(rule), current, today), today)
  {
    SearchSettles(rule, today);
  }

  lemma SettlesAtOnce(rule: Option<Rule>, current: Option<Date>, today: Date)
    requires Valid(today) && ValidDate(current) && (rule.Some? ==> ValidRule(rule.value))
    requires rule.Some? && current.Some? ==> rule.value.Once? || !Matches(rule.value, current.value)
    ensures Settled(rule, Rolled(rule, current, today, 1), today)
  {
    if rule.Some? { OtherwiseSearched(rule.value, current, today); }
    OneMore(rule, current, today, 0);
  }

  lemma {:induction false} Settles(rule: Option<Rule>, current: Option<Date>, today: Date) returns (n: nat)
    requires Valid(today) && ValidDate(current) && (rule.Some? ==> ValidRule(rule.value))
    ensures n <= DaysLeft(current, today) + 2
    ensures Settled(rule, Rolled(rule, current, today, n), today)
    decreases DaysLeft(current, today)
  {
    if Settled(rule, current, today) {
      n := 0;
    } else if rule.Some? && current.Some? && !rule.value.Once? && Matches(rule.value, current.value) {
      RollShortens(rule.value, current.value, today);
      var m := Settles(rule, Roll(rule, current, today), today);
      OneMore(rule, current, today, m);
      n := m + 1;
    } else {
      n := 1;
      SettlesAtOnce(rule, current, today);
    }
  }

  /** Applying it again and again ends, after at most one application per day
      left to today and two more, at something that never changes again. */
  lemma RollSettles(rule: Option<Rule>, current: Option<Date>, today: Date) returns (n: nat)
    requires Valid(today) && ValidDate(current) && (rule.Some? ==> ValidRule(rule.value))
    ensures n <= DaysLeft(current, today) + 2
    ensures Settled(rule, Rolled(rule, current, today, n), today)
    ensures Roll(rule, Rolled(rule, current, today, n), today) == Rolled(rule, current, today, n)
  {
    n := Settles(rule, current, today);
    SettledIffFixed(rule, Rolled(rule, current, today, n), today);
  }
}
