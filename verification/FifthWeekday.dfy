/** Where the fifth weekday of a month turns up: stepping through the calendar by
    five, seven, eight, nine, ten or eleven months, one is met within twenty years. */
module FifthWeekday {
  import opened Calendar
  import opened Recurrence
  import opened OccurrenceWindow

  /** Month `n` has five of the weekday. */
  predicate HasFifth(n: int, w: int) { Lead(n, w) + 28 < MonthLength(n) }

  /** Days later by weeks and a remainder, the lead is shorter by the remainder. */
  lemma LeadAfter(n: int, m: int, w: int, weeks: int, s: int)
    requires MonthStart(m) == MonthStart(n) + 7 * weeks + s && 0 <= s <= 6
    ensures Lead(m, w) == if Lead(n, w) >= s then Lead(n, w) - s else Lead(n, w) - s + 7
  {
    WeekdayAfter(MonthStart(n), w, weeks, s);
  }

  lemma WeekdayAfter(start: int, w: int, weeks: int, s: int)
    requires 0 <= s <= 6
    ensures var x := (w - WeekdayNumber(start)) % 7;
      (w - WeekdayNumber(start + 7 * weeks + s)) % 7 == if x >= s then x - s else x - s + 7
  {
    assert start + 7 * weeks + s + 6 == (start + 6) / 7 * 7 + WeekdayNumber(start) + s + 7 * weeks;
    if WeekdayNumber(start) + s < 7 {
      assert WeekdayNumber(start + 7 * weeks + s) == WeekdayNumber(start) + s;
    } else {
      assert WeekdayNumber(start + 7 * weeks + s) == WeekdayNumber(start) + s - 7;
    }
  }

  // ----- Days in a few years -----

  /** The year whose leap day falls between month `n` and a year later. */
  function LeapDayYear(n: int): int { if MonthOf(n) <= 2 then YearOf(n) else YearOf(n) + 1 }

  lemma YearDays(n: int)
    ensures MonthStart(n + 12) - MonthStart(n) == (if LeapYear(LeapDayYear(n)) then 366 else 365)
    ensures LeapDayYear(n + 12) == LeapDayYear(n) + 1
  {
    YearLater(n);
    YearStep(YearOf(n));
    MonthDrift(YearOf(n), MonthOf(n));
  }

  /** Of four years in a row at most one is a leap year. */
  lemma OneOfFour(year: int, j: int)
    requires LeapYear(year) && 1 <= j <= 3
    ensures !LeapYear(year + j)
  {
  }

  /** Two, three or four years have one leap day at most. */
  lemma FewYears(n: int)
    ensures 730 <= MonthStart(n + 24) - MonthStart(n) <= 731
    ensures 1095 <= MonthStart(n + 36) - MonthStart(n) <= 1096
    ensures 1460 <= MonthStart(n + 48) - MonthStart(n) <= 1461
  {
    var year := LeapDayYear(n);
    YearDays(n);
    YearDays(n + 12);
    YearDays(n + 24);
    YearDays(n + 36);
    if LeapYear(year) {
      OneOfFour(year, 1);
      OneOfFour(year, 2);
      OneOfFour(year, 3);
    } else if LeapYear(year + 1) {
      OneOfFour(year + 1, 1);
      OneOfFour(year + 1, 2);
    } else if LeapYear(year + 2) {
      OneOfFour(year + 2, 1);
    }
  }

  // ----- Leads that cannot skip the first days -----

  lemma LongEnough(n: int, w: int)
    ensures MonthOf(n) in {1, 3, 5, 7, 8, 10, 12} ==> (HasFifth(n, w) <==> Lead(n, w) <= 2)
    ensures MonthOf(n) in {4, 6, 9, 11} ==> (HasFifth(n, w) <==> Lead(n, w) <= 1)
  {
  }

  lemma MonthAfter(n: int, j: int)
    requires 0 <= j <= 12
    ensures MonthOf(n + j) == if MonthOf(n) + j <= 12 then MonthOf(n) + j else MonthOf(n) + j - 12
  {
  }

  lemma WholeYearsLater(n: int)
    ensures MonthOf(n + 24) == MonthOf(n) && MonthOf(n + 36) == MonthOf(n) && MonthOf(n + 48) == MonthOf(n)
  {
    YearsLater(n, 2);
    YearsLater(n, 3);
    YearsLater(n, 4);
  }

  // ----- Two years -----

  lemma TwoYearsLater(n: int, w: int, m: int)
    requires Lead(n, w) >= 3 && m == n + 24
    ensures Lead(n, w) - 3 <= Lead(m, w) <= Lead(n, w) - 2 && MonthOf(m) == MonthOf(n)
  {
    FewYears(n);
    LeadAfter(n, m, w, 104, MonthStart(m) - MonthStart(n) - 728);
    WholeYearsLater(n);
  }

  /** A month of 31 days has the fifth weekday now or two or four years later. */
  lemma WithinFourYears(n: int, w: int) returns (j: int)
    requires MonthOf(n) in {1, 3, 5, 7, 8, 10, 12}
    ensures 0 <= j <= 2 && HasFifth(n + 24 * j, w)
  {
    LongEnough(n, w);
    LongEnough(n + 24, w);
    LongEnough(n + 48, w);
    if HasFifth(n, w) { return 0; }
    TwoYearsLater(n, w, n + 24);
    if HasFifth(n + 24, w) { return 1; }
    TwoYearsLater(n + 24, w, n + 48);
    return 2;
  }

  // ----- Fifty months -----

  lemma TwoMonths(n: int)
    requires MonthOf(n) in {3, 5, 8, 10}
    ensures MonthStart(n + 2) == MonthStart(n) + 61 && MonthOf(n + 2) == MonthOf(n) + 2
  {
    MonthStep(n);
    MonthStep(n + 1);
    MonthAfter(n, 1);
    MonthAfter(n, 2);
  }

  lemma FiftyLater(n: int, w: int, m: int)
    requires MonthOf(n) in {3, 5, 8, 10} && Lead(n, w) >= 3 && m == n + 50
    ensures Lead(n, w) - 3 <= Lead(m, w) <= Lead(n, w) - 2 && MonthOf(m) == MonthOf(n) + 2
  {
    FewYears(n);
    WholeYearsLater(n);
    TwoMonths(n + 48);
    LeadAfter(n, m, w, 217, MonthStart(m) - MonthStart(n) - 1519);
  }

  /** From March by way of May to July, or from August by way of October to December. */
  lemma WithinHundredMonths(n: int, w: int) returns (j: int)
    requires MonthOf(n) in {3, 8}
    ensures 0 <= j <= 2 && HasFifth(n + 50 * j, w)
  {
    LongEnough(n, w);
    LongEnough(n + 50, w);
    LongEnough(n + 100, w);
    if HasFifth(n, w) { return 0; }
    FiftyLater(n, w, n + 50);
    if HasFifth(n + 50, w) { return 1; }
    FiftyLater(n + 50, w, n + 100);
    return 2;
  }

  // ----- Three months less than two or three years -----

  lemma ThreeMonths(n: int)
    requires 3 <= MonthOf(n) <= 11
    ensures MonthStart(n + 3) == MonthStart(n) + if MonthOf(n) in {4, 9} then 91 else 92
  {
    MonthStep(n);
    MonthStep(n + 1);
    MonthStep(n + 2);
    MonthAfter(n, 1);
    MonthAfter(n, 2);
  }

  lemma TwentyOneLater(n: int, w: int, m: int)
    requires MonthOf(n) in {12, 9, 6} && m == n + 21
    requires Lead(n, w) >= (if MonthOf(n) == 12 then 3 else 2)
    ensures MonthOf(m) == MonthOf(n) - 3
    ensures var less := if MonthOf(n) == 12 then 2 else 1; Lead(n, w) - less - 1 <= Lead(m, w) <= Lead(n, w) - less
  {
    FewYears(n);
    WholeYearsLater(n);
    MonthAfter(m, 3);
    ThreeMonths(m);
    LeadAfter(n, m, w, 91, MonthStart(m) - MonthStart(n) - 637);
  }

  /** From December by way of September and June to March. */
  lemma WithinSixtyThree(n: int, w: int) returns (j: int)
    requires MonthOf(n) == 12
    ensures 0 <= j <= 3 && HasFifth(n + 21 * j, w)
  {
    LongEnough(n, w);
    LongEnough(n + 21, w);
    LongEnough(n + 42, w);
    LongEnough(n + 63, w);
    if HasFifth(n, w) { return 0; }
    TwentyOneLater(n, w, n + 21);
    if HasFifth(n + 21, w) { return 1; }
    TwentyOneLater(n + 21, w, n + 42);
    if HasFifth(n + 42, w) { return 2; }
    TwentyOneLater(n + 42, w, n + 63);
    return 3;
  }

  lemma ThirtyThreeLater(n: int, w: int, m: int)
    requires MonthOf(n) in {1, 10} && m == n + 33 && Lead(n, w) >= 3
    ensures MonthOf(m) == (if MonthOf(n) == 1 then 10 else 7)
    ensures Lead(n, w) - 3 <= Lead(m, w) <= Lead(n, w) - 2
  {
    FewYears(n);
    WholeYearsLater(n);
    MonthAfter(m, 3);
    ThreeMonths(m);
    LeadAfter(n, m, w, 143, MonthStart(m) - MonthStart(n) - 1001);
  }

  /** From January by way of October to July. */
  lemma WithinSixtySix(n: int, w: int) returns (j: int)
    requires MonthOf(n) == 1
    ensures 0 <= j <= 2 && HasFifth(n + 33 * j, w)
  {
    LongEnough(n, w);
    LongEnough(n + 33, w);
    LongEnough(n + 66, w);
    if HasFifth(n, w) { return 0; }
    ThirtyThreeLater(n, w, n + 33);
    if HasFifth(n + 33, w) { return 1; }
    ThirtyThreeLater(n + 33, w, n + 66);
    return 2;
  }

  // ----- Nine months -----

  lemma NineMonths(n: int)
    requires MonthOf(n) in {3, 4, 5}
    ensures MonthStart(n + 9) == MonthStart(n) + (if MonthOf(n) == 5 then 276 else 275)
    ensures MonthOf(n + 9) == (if MonthOf(n) == 3 then 12 else MonthOf(n) - 3)
  {
    MonthAfter(n, 3);
    MonthAfter(n, 6);
    MonthAfter(n, 9);
    ThreeMonths(n);
    ThreeMonths(n + 3);
    ThreeMonths(n + 6);
  }

  lemma NineLater(n: int, w: int, m: int)
    requires MonthOf(n) in {3, 4} && Lead(n, w) >= 2 && m == n + 9
    ensures Lead(m, w) == Lead(n, w) - 2 && MonthOf(m) in {12, 1}
  {
    NineMonths(n);
    LeadAfter(n, m, w, 39, 2);
  }

  lemma ThreeYearsLater(n: int, w: int, m: int)
    requires Lead(n, w) >= 4 && m == n + 36
    ensures Lead(n, w) - 4 <= Lead(m, w) <= Lead(n, w) - 3 && MonthOf(m) == MonthOf(n)
  {
    FewYears(n);
    WholeYearsLater(n);
    LeadAfter(n, m, w, 156, MonthStart(m) - MonthStart(n) - 1092);
  }

  /** From March or April nine months on, or the same three years later. */
  lemma WithinFortyFive(n: int, w: int) returns (j: int)
    requires MonthOf(n) in {3, 4}
    ensures 0 <= j <= 5 && HasFifth(n + 9 * j, w)
  {
    LongEnough(n, w);
    LongEnough(n + 9, w);
    LongEnough(n + 36, w);
    LongEnough(n + 45, w);
    if HasFifth(n, w) { return 0; }
    NineLater(n, w, n + 9);
    if HasFifth(n + 9, w) { return 1; }
    ThreeYearsLater(n, w, n + 36);
    if HasFifth(n + 36, w) { return 4; }
    NineLater(n + 36, w, n + 45);
    return 5;
  }

  lemma FromFebruary(n: int)
    requires MonthOf(n) == 2
    ensures MonthStart(n + 9) == MonthStart(n) + MonthLength(n) + 245 && MonthOf(n + 9) == 11
  {
    MonthStep(n);
    MonthAfter(n, 1);
    MonthAfter(n, 4);
    MonthAfter(n, 7);
    MonthAfter(n, 9);
    ThreeMonths(n + 1);
    ThreeMonths(n + 4);
    MonthAfter(n, 8);
    MonthStep(n + 7);
    MonthStep(n + 8);
  }

  /** A lead of three in May leaves none for February, which has the fifth weekday if
      it has a leap day and otherwise leaves none for November. */
  lemma ThroughFebruary(n: int, w: int) returns (j: int)
    requires MonthOf(n) == 5 && Lead(n, w) == 3
    ensures 1 <= j <= 2 && HasFifth(n + 9 * j, w)
  {
    NineMonths(n);
    LeadAfter(n, n + 9, w, 39, 3);
    if HasFifth(n + 9, w) { return 1; }
    FromFebruary(n + 9);
    LeadAfter(n + 9, n + 18, w, 39, 0);
    LongEnough(n + 18, w);
    return 2;
  }

  lemma WithinFiftyFour(n: int, w: int) returns (j: int)
    requires MonthOf(n) == 5
    ensures 0 <= j <= 6 && HasFifth(n + 9 * j, w)
  {
    LongEnough(n, w);
    LongEnough(n + 36, w);
    if HasFifth(n, w) { return 0; }
    if Lead(n, w) == 3 {
      j := ThroughFebruary(n, w);
      return;
    }
    ThreeYearsLater(n, w, n + 36);
    if HasFifth(n + 36, w) { return 4; }
    j := ThroughFebruary(n + 36, w);
    j := j + 4;
  }

  // ----- Reaching the month to start from -----

  /** Five, seven and eleven are their own inverses modulo twelve. */
  lemma Inverse(i: int, x: int) returns (k: int, years: int)
    requires i in {5, 7, 11}
    ensures 1 <= k <= 12 && k * i == x + 12 * years
  {
    var q := (i * x - 1) / 12;
    k := i * x - 12 * q;
    years := if i == 5 then 2 * x - 5 * q else if i == 7 then 4 * x - 7 * q else 10 * x - 11 * q;
  }

  lemma SameYear(n: int, x: int)
    requires 1 <= MonthOf(n) + x <= 12
    ensures MonthOf(n + x) == MonthOf(n) + x
  {
  }

  /** So their steps reach every month of the year within a dozen. */
  lemma ReachMonth(n: int, i: int, month: int) returns (k: int, m: int)
    requires i in {5, 7, 11} && 1 <= month <= 12
    ensures 1 <= k <= 12 && m == n + k * i && MonthOf(m) == month
  {
    var x := month - MonthOf(n);
    var years;
    k, years := Inverse(i, x);
    m := n + x + 12 * years;
    SameYear(n, x);
    YearsLater(n + x, years);
  }

  lemma ReachByTen(n: int) returns (k: int, m: int)
    ensures 1 <= k <= 6 && m == n + 10 * k && MonthOf(m) in {3, 8}
  {
    var month := if MonthOf(n) % 2 == 1 then 3 else 8;
    var h := (MonthOf(n) - month) / 2;
    k := if h >= 1 then h else h + 6;
    m := n + 10 * k;
    assert MonthOf(n) == month + 2 * h;
    assert -3 <= h <= 5;
    SameYear(n, -2 * h);
    YearsLater(n - 2 * h, if h >= 1 then k else k - 1);
  }

  lemma ReachByEight(n: int) returns (k: int, m: int)
    ensures 1 <= k <= 3 && m == n + 8 * k && MonthOf(m) in {1, 3, 5, 7, 8, 10, 12}
  {
    MonthAfter(n, 8);
    MonthAfter(n + 8, 8);
    MonthAfter(n + 16, 8);
    k := if MonthOf(n + 8) in {1, 3, 5, 7, 8, 10, 12} then 1
         else if MonthOf(n + 16) in {1, 3, 5, 7, 8, 10, 12} then 2 else 3;
    m := n + 8 * k;
  }

  lemma ReachByNine(n: int) returns (k: int, m: int)
    ensures 1 <= k <= 4 && m == n + 9 * k && MonthOf(m) in {3, 4, 5}
  {
    MonthAfter(n, 9);
    MonthAfter(n + 9, 9);
    MonthAfter(n + 18, 9);
    MonthAfter(n + 27, 9);
    k := if MonthOf(n + 9) in {3, 4, 5} then 1
         else if MonthOf(n + 18) in {3, 4, 5} then 2
         else if MonthOf(n + 27) in {3, 4, 5} then 3 else 4;
    m := n + 9 * k;
  }

  // ----- Within the window -----

  lemma AheadByNine(n: int, w: int) returns (k: int, m: int)
    ensures 1 <= k <= 10 && m == n + 9 * k && HasFifth(m, w)
  {
    var a, from := ReachByNine(n);
    var j;
    if MonthOf(from) == 5 {
      j := WithinFiftyFour(from, w);
    } else {
      j := WithinFortyFive(from, w);
    }
    k, m := a + j, from + 9 * j;
  }

  lemma AheadByFiveOrTen(n: int, w: int, i: int) returns (k: int, m: int)
    requires i in {5, 10}
    ensures k >= 1 && m == n + k * i < n + 240 && HasFifth(m, w)
  {
    var a, from;
    if i == 5 {
      a, from := ReachMonth(n, i, 3);
    } else {
      a, from := ReachByTen(n);
    }
    var j := WithinHundredMonths(from, w);
    k, m := if i == 5 then a + 10 * j else a + 5 * j, from + 50 * j;
  }

  /** Stepping by any of these, a fifth weekday is met within 240 months. */
  lemma FifthAhead(n: int, w: int, i: int) returns (k: int, m: int)
    requires i in {5, 7, 8, 9, 10, 11}
    ensures k >= 1 && m == n + k * i < n + 240 && HasFifth(m, w)
  {
    if i == 7 {
      var a, from := ReachMonth(n, i, 12);
      var j := WithinSixtyThree(from, w);
      k, m := a + 3 * j, from + 21 * j;
    } else if i == 8 {
      var a, from := ReachByEight(n);
      var j := WithinFourYears(from, w);
      k, m := a + 3 * j, from + 24 * j;
    } else if i == 9 {
      k, m := AheadByNine(n, w);
    } else if i == 11 {
      var a, from := ReachMonth(n, i, 1);
      var j := WithinSixtySix(from, w);
      k, m := a + 3 * j, from + 33 * j;
    } else {
      k, m := AheadByFiveOrTen(n, w, i);
    }
  }
}
