/**
 * The part of the proleptic Gregorian calendar that `datetime.date(y, m, d)`
 * and its `isocalendar()` rely on: the date-validity check of the
 * constructor, day ordinals (day 1 is 0001-01-01, a Monday), and the ISO 8601
 * week date (ISO 8601:2004 section 4.1.4 with the week calendar of section
 * 3.2.2), computed in the same steps as the library does it and then proved
 * to be the ISO week date.
 */
module Calendar {

  /** The range `datetime` accepts for years. */
  const MinYear := 1
  const MaxYear := 9999

  predicate IsLeap(y: int) {
    y % 4 == 0 && (y % 100 != 0 || y % 400 == 0)
  }

  function DaysInMonth(y: int, m: int): (r: int)
    requires 1 <= m <= 12
    ensures 28 <= r <= 31
  {
    if m == 2 then (if IsLeap(y) then 29 else 28)
    else if m == 4 || m == 6 || m == 9 || m == 11 then 30
    else 31
  }

  function DaysInYear(y: int): int {
    if IsLeap(y) then 366 else 365
  }

  /** What the `datetime.date` constructor accepts; anything else is a
      `ValueError`. */
  predicate ValidDate(y: int, m: int, d: int) {
    MinYear <= y <= MaxYear && 1 <= m <= 12 && 1 <= d <= DaysInMonth(y, m)
  }

  /** Days in the years before `y`.  The divisors are positive, so Dafny's
      division here is the floor division of the library. */
  function DaysBeforeYear(y: int): int {
    var p := y - 1;
    p * 365 + p / 4 - p / 100 + p / 400
  }

  /** Days in the months of year `y` before month `m`. */
  function DaysBeforeMonth(y: int, m: int): (r: int)
    requires 1 <= m <= 12
    decreases m
  {
    if m == 1 then 0 else DaysBeforeMonth(y, m - 1) + DaysInMonth(y, m - 1)
  }

  /** The ordinal of a date: 0001-01-01 is day 1. */
  function Ordinal(y: int, m: int, d: int): int
    requires 1 <= m <= 12
  {
    DaysBeforeYear(y) + DaysBeforeMonth(y, m) + d
  }

  /** Day of the week of an ordinal, Monday = 0 up to Sunday = 6. */
  function WeekdayOf(ord: int): (r: int)
    ensures 0 <= r < 7
  {
    (ord + 6) % 7
  }

  /** The ordinal of the Monday on which week 1 of ISO year `y` begins: the
      Monday of the week holding 1 January, or the Monday after it when
      1 January falls after a Thursday. */
  function Week1Monday(y: int): int {
    var firstDay := Ordinal(y, 1, 1);
    var firstWeekday := WeekdayOf(firstDay);
    if firstWeekday > 3 then firstDay - firstWeekday + 7 else firstDay - firstWeekday
  }

  datatype IsoDate = IsoDate(year: int, week: int, weekday: int)

  /** `date(y, m, d).isocalendar()`, step by step: the week and day offsets
      from week 1 of the calendar year, moved into the previous ISO year
      when the date lies before that week, and into the next one when it
      lies on or after the next year's week 1. */
  function IsoCalendar(y: int, m: int, d: int): (r: IsoDate)
    requires ValidDate(y, m, d)
    ensures y - 1 <= r.year <= y + 1
    ensures 1 <= r.weekday <= 7
  {
    var today := Ordinal(y, m, d);
    var w1 := Week1Monday(y);
    var week := (today - w1) / 7;
    var day := (today - w1) % 7;
    if week < 0 then
      var w0 := Week1Monday(y - 1);
      IsoDate(y - 1, (today - w0) / 7 + 1, (today - w0) % 7 + 1)
    else if week >= 52 && today >= Week1Monday(y + 1) then
      IsoDate(y + 1, 1, day + 1)
    else
      IsoDate(y, week + 1, day + 1)
  }

  // ---------------------------------------------------------------------------
  // Calendar facts
  // ---------------------------------------------------------------------------

  /** Stepping from `y - 1` to `y` raises `y / k` exactly when `k`
      divides `y`. */
  lemma {:induction false} DivStep(y: int, k: int)
    requires k == 4 || k == 100 || k == 400
    ensures y / k - (y - 1) / k == (if y % k == 0 then 1 else 0)
  {
    var q, r := (y - 1) / k, (y - 1) % k;
    assert y - 1 == k * q + r && 0 <= r < k;
    if r + 1 == k {
      assert y == k * (q + 1) + 0;
    } else {
      assert y == k * q + (r + 1);
    }
  }

  /** Consecutive years start 365 or 366 days apart. */
  lemma {:induction false} YearLength(y: int)
    ensures DaysBeforeYear(y + 1) - DaysBeforeYear(y) == DaysInYear(y)
  {
    DivStep(y, 4);
    DivStep(y, 100);
    DivStep(y, 400);
  }

  /** A valid date lies within its year. */
  lemma {:induction false} DayOfYearBounds(y: int, m: int, d: int)
    requires ValidDate(y, m, d)
    ensures Ordinal(y, 1, 1) <= Ordinal(y, m, d) < Ordinal(y, 1, 1) + DaysInYear(y)
  {
    if IsLeap(y) {
      assert DaysBeforeMonth(y, 12) == 335;
    } else {
      assert DaysBeforeMonth(y, 12) == 334;
    }
    MonthsBeforeGrow(y, m, 12);
  }

  lemma {:induction false} MonthsBeforeGrow(y: int, m: int, n: int)
    requires 1 <= m <= n <= 12
    ensures DaysBeforeMonth(y, m) + DaysInMonth(y, m) <= DaysBeforeMonth(y, n) + DaysInMonth(y, n)
    decreases n - m
  {
    if m < n {
      MonthsBeforeGrow(y, m + 1, n);
    }
  }

  /** Counting back by its weekday from any day reaches a Monday. */
  lemma {:induction false} MondayBefore(x: int)
    ensures WeekdayOf(x - WeekdayOf(x)) == 0
    ensures WeekdayOf(x - WeekdayOf(x) + 7) == 0
  {
    var q := (x + 6) / 7;
    assert x - WeekdayOf(x) + 6 == 7 * q;
    assert x - WeekdayOf(x) + 7 + 6 == 7 * (q + 1);
  }

  /** Two Mondays lie a whole number of weeks apart. */
  lemma {:induction false} MondaysApart(a: int, b: int)
    requires WeekdayOf(a) == 0 && WeekdayOf(b) == 0
    ensures (b - a) % 7 == 0
  {
    var qa := (a + 6) / 7;
    var qb := (b + 6) / 7;
    assert a + 6 == 7 * qa;
    assert b + 6 == 7 * qb;
    assert b - a == 7 * (qb - qa);
  }

  /** Week 1 always begins on a Monday, at most three days before or after
      1 January. */
  lemma {:induction false} Week1MondayShape(y: int)
    ensures WeekdayOf(Week1Monday(y)) == 0
    ensures Ordinal(y, 1, 1) - 3 <= Week1Monday(y) <= Ordinal(y, 1, 1) + 3
  {
    MondayBefore(Ordinal(y, 1, 1));
  }

  /** Moving to the Monday after when the weekday exceeds Thursday is moving
      to the Monday of the day three days later. */
  lemma {:induction false} ThursdayRule(x: int)
    ensures (if WeekdayOf(x) > 3 then x - WeekdayOf(x) + 7 else x - WeekdayOf(x))
         == x + 3 - WeekdayOf(x + 3)
  {
    var fw := WeekdayOf(x);
    var q := (x + 6) / 7;
    assert x + 6 == 7 * q + fw;
    if fw <= 3 {
      assert x + 3 + 6 == 7 * q + (fw + 3);
      assert WeekdayOf(x + 3) == fw + 3;
    } else {
      assert x + 3 + 6 == 7 * (q + 1) + (fw - 4);
      assert WeekdayOf(x + 3) == fw - 4;
    }
  }

  /** The library's rule is the ISO one: week 1 is the week that holds
      4 January. */
  lemma {:induction false} Week1HoldsJanuary4(y: int)
    ensures var j4 := Ordinal(y, 1, 4);
      Week1Monday(y) == j4 - WeekdayOf(j4)
  {
    ThursdayRule(Ordinal(y, 1, 1));
    assert Ordinal(y, 1, 4) == Ordinal(y, 1, 1) + 3;
  }

  /** ISO years have 52 or 53 weeks. */
  lemma {:induction false} IsoYearLength(y: int)
    ensures Week1Monday(y + 1) - Week1Monday(y) == 364 || Week1Monday(y + 1) - Week1Monday(y) == 371
  {
    Week1MondayShape(y);
    Week1MondayShape(y + 1);
    YearLength(y);
    MondaysApart(Week1Monday(y), Week1Monday(y + 1));
    var diff := Week1Monday(y + 1) - Week1Monday(y);
    assert 359 <= diff <= 372;
    var q := diff / 7;
    assert diff == 7 * q;
  }

  /** The ISO week date of a day, stated against the week-1 Mondays of the
      ISO year found and of the next one. */
  predicate IsIsoDateOf(iso: IsoDate, ord: int, start: int, next: int) {
    && start <= ord < next
    && 1 <= iso.weekday <= 7 && 1 <= iso.week <= 53
    && ord == start + 7 * (iso.week - 1) + (iso.weekday - 1)
    && iso.weekday == WeekdayOf(ord) + 1
  }

  /** The case analysis of `IsoCalendar` on plain numbers: `ord` is a day of
      year `y`, which starts at `j1` and is `len` days long, and `w0`, `w1`,
      `w2`, `w3` are the week-1 Mondays of `y - 1` up to `y + 2`. */
  lemma {:induction false} IsoSteps(y: int, ord: int, j1: int, len: int, w0: int, w1: int, w2: int, w3: int)
    requires j1 <= ord < j1 + len && (len == 365 || len == 366)
    requires j1 - 3 <= w1 <= j1 + 3 && j1 + len - 3 <= w2 <= j1 + len + 3
    requires w1 - w0 == 364 || w1 - w0 == 371
    requires w2 - w1 == 364 || w2 - w1 == 371
    requires w3 - w2 == 364 || w3 - w2 == 371
    requires WeekdayOf(w0) == 0 && WeekdayOf(w1) == 0 && WeekdayOf(w2) == 0
    ensures (ord - w1) / 7 < 0 ==>
      IsIsoDateOf(IsoDate(y - 1, (ord - w0) / 7 + 1, (ord - w0) % 7 + 1), ord, w0, w1)
    ensures (ord - w1) / 7 >= 52 && ord >= w2 ==>
      IsIsoDateOf(IsoDate(y + 1, 1, (ord - w1) % 7 + 1), ord, w2, w3)
    ensures 0 <= (ord - w1) / 7 && !((ord - w1) / 7 >= 52 && ord >= w2) ==>
      IsIsoDateOf(IsoDate(y, (ord - w1) / 7 + 1, (ord - w1) % 7 + 1), ord, w1, w2)
  {
    var q0, r0 := (ord - w0) / 7, (ord - w0) % 7;
    var q1, r1 := (ord - w1) / 7, (ord - w1) % 7;
    assert ord - w0 == 7 * q0 + r0 && 0 <= r0 < 7;
    assert ord - w1 == 7 * q1 + r1 && 0 <= r1 < 7;
    var k0, k1 := (w0 + 6) / 7, (w1 + 6) / 7;
    assert w0 + 6 == 7 * k0;
    assert w1 + 6 == 7 * k1;
    assert ord + 6 == 7 * (k0 + q0) + r0;
    assert ord + 6 == 7 * (k1 + q1) + r1;
    assert WeekdayOf(ord) == r0 by {
      DivModUnique(ord + 6, k0 + q0, r0);
    }
    assert WeekdayOf(ord) == r1 by {
      DivModUnique(ord + 6, k1 + q1, r1);
    }
    if q1 < 0 {
      assert w0 <= ord < w1;
      assert q0 <= 52;
    } else if q1 >= 52 && ord >= w2 {
      assert w2 - w1 == 364;
      assert ord - w2 == 7 * (q1 - 52) + r1;
      assert ord - w2 < 7;
      assert ord - w2 == r1;
    } else {
      assert ord < w2;
      assert q1 <= 52;
    }
  }

  /** The remainder of a division by 7 is the only one in range. */
  lemma {:induction false} DivModUnique(x: int, q: int, r: int)
    requires x == 7 * q + r && 0 <= r < 7
    ensures x % 7 == r && x / 7 == q
  {
  }

  /** Where a valid date and the week-1 Mondays around it lie relative to
      1 January of its year. */
  lemma {:induction false} YearFacts(y: int, m: int, d: int)
    requires ValidDate(y, m, d)
    ensures var ord, j1, len := Ordinal(y, m, d), Ordinal(y, 1, 1), DaysInYear(y);
      && j1 <= ord < j1 + len && (len == 365 || len == 366)
      && j1 - 3 <= Week1Monday(y) <= j1 + 3
      && j1 + len - 3 <= Week1Monday(y + 1) <= j1 + len + 3
  {
    DayOfYearBounds(y, m, d);
    YearLength(y);
    Week1MondayShape(y);
    Week1MondayShape(y + 1);
  }

  /** The week-1 Mondays of four consecutive years. */
  lemma {:induction false} MondayFacts(y: int)
    ensures var w0, w1, w2, w3 := Week1Monday(y - 1), Week1Monday(y), Week1Monday(y + 1), Week1Monday(y + 2);
      && (w1 - w0 == 364 || w1 - w0 == 371)
      && (w2 - w1 == 364 || w2 - w1 == 371)
      && (w3 - w2 == 364 || w3 - w2 == 371)
      && WeekdayOf(w0) == 0 && WeekdayOf(w1) == 0 && WeekdayOf(w2) == 0
  {
    Week1MondayShape(y - 1);
    Week1MondayShape(y);
    Week1MondayShape(y + 1);
    IsoYearLength(y - 1);
    IsoYearLength(y);
    IsoYearLength(y + 1);
  }

  /** `IsoCalendar` takes one of its three branches, each an ISO week date. */
  lemma {:induction false} IsoCalendarCases(y: int, m: int, d: int)
    requires ValidDate(y, m, d)
    ensures var iso := IsoCalendar(y, m, d);
      var ord := Ordinal(y, m, d);
      || (iso.year == y - 1 && IsIsoDateOf(iso, ord, Week1Monday(y - 1), Week1Monday(y)))
      || (iso.year == y && IsIsoDateOf(iso, ord, Week1Monday(y), Week1Monday(y + 1)))
      || (iso.year == y + 1 && IsIsoDateOf(iso, ord, Week1Monday(y + 1), Week1Monday(y + 2)))
  {
    YearFacts(y, m, d);
    MondayFacts(y);
    IsoSteps(y, Ordinal(y, m, d), Ordinal(y, 1, 1), DaysInYear(y),
             Week1Monday(y - 1), Week1Monday(y), Week1Monday(y + 1), Week1Monday(y + 2));
  }

  /** The ISO week date of a valid date: the date lies in ISO year `Y`
      (between the Mondays of week 1 of `Y` and of `Y + 1`), `weekday` counts
      from Monday = 1 to Sunday = 7, the week number is between 1 and 53, and
      the week and weekday locate the date exactly from week 1 of `Y`. */
  lemma {:induction false} IsoCalendarCorrect(y: int, m: int, d: int)
    requires ValidDate(y, m, d)
    ensures var iso := IsoCalendar(y, m, d);
      && IsIsoDateOf(iso, Ordinal(y, m, d), Week1Monday(iso.year), Week1Monday(iso.year + 1))
      && y - 1 <= iso.year <= y + 1
  {
    IsoCalendarCases(y, m, d);
  }

  /** 1 March 2021, a Monday, is in ISO week 9 of 2021. */
  lemma {:induction false} IsoCalendarExampleMonday()
    ensures IsoCalendar(2021, 3, 1) == IsoDate(2021, 9, 1)
  {
  }

  /** 3 January 2021, a Sunday, still belongs to ISO week 53 of 2020. */
  lemma {:induction false} IsoCalendarExampleYearBefore()
    ensures IsoCalendar(2021, 1, 3) == IsoDate(2020, 53, 7)
  {
  }

  /** 24 December 2018 is Monday of week 52 of 2018. */
  lemma {:induction false} IsoCalendarExampleWeek52()
    ensures IsoCalendar(2018, 12, 24) == IsoDate(2018, 52, 1)
  {
    assert Ordinal(2018, 12, 24) == 737052;
    assert Week1Monday(2018) == 736695;
    assert Week1Monday(2019) == 737059;
  }

  /** 7 January 2019 is Monday of week 2 of 2019. */
  lemma {:induction false} IsoCalendarExampleWeek2()
    ensures IsoCalendar(2019, 1, 7) == IsoDate(2019, 2, 1)
  {
  }

  /** 31 December 2024, a Tuesday, is already in ISO week 1 of 2025. */
  lemma {:induction false} IsoCalendarExampleYearAfter()
    ensures IsoCalendar(2024, 12, 31) == IsoDate(2025, 1, 2)
  {
    assert Ordinal(2024, 12, 31) == 739251;
    assert Week1Monday(2024) == 738886;
    assert Week1Monday(2025) == 739250;
  }
}
