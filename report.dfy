/** The hours-and-minutes breakdown `main` prints for each statistic:
    `x // 60` hours and `x % 60` minutes, with Python's floor division and
    the modulo whose sign follows the divisor. */
module Report {
  import opened Aggregation

  /** A whole number of minutes as hours and leftover minutes. For the
      positive divisor 60 Dafny's Euclidean `/` and `%` agree with Python's
      `//` and `%`, negative totals included. */
  function SplitMinutes(x: int): (r: (int, int))
    ensures r.0 * 60 + r.1 == x
    ensures 0 <= r.1 < 60
  {
    (x / 60, x % 60)
  }

  /** The split is the only pair of hours and minutes in [0, 60) that
      make up the total. */
  lemma {:induction false} SplitMinutesUnique(x: int, h: int, m: int)
    requires h * 60 + m == x && 0 <= m < 60
    ensures SplitMinutes(x) == (h, m)
  {
    var (h', m') := SplitMinutes(x);
    assert (h - h') * 60 == m' - m;
    assert -1 < h - h' < 1;
  }

  /** The five breakdowns `main` prints, in its order. */
  datatype Breakdown = Breakdown(
    total: (int, int),
    longestDay: (int, int),
    longestWeek: (int, int),
    averageWeek: (int, int),
    averageWeekWithoutCurrent: (int, int))

  function BreakdownOf(s: TimeStats): (b: Breakdown)
    ensures b.total.0 * 60 + b.total.1 == s.totalTime && 0 <= b.total.1 < 60
    ensures b.longestDay.0 * 60 + b.longestDay.1 == s.longestDayTime && 0 <= b.longestDay.1 < 60
    ensures b.longestWeek.0 * 60 + b.longestWeek.1 == s.longestWeekTime && 0 <= b.longestWeek.1 < 60
    ensures b.averageWeek.0 * 60 + b.averageWeek.1 == s.averageWeekTime && 0 <= b.averageWeek.1 < 60
    ensures b.averageWeekWithoutCurrent.0 * 60 + b.averageWeekWithoutCurrent.1 == s.averageWeekTimeWithoutCurrent
    ensures 0 <= b.averageWeekWithoutCurrent.1 < 60
  {
    Breakdown(
      SplitMinutes(s.totalTime),
      SplitMinutes(s.longestDayTime),
      SplitMinutes(s.longestWeekTime),
      SplitMinutes(s.averageWeekTime),
      SplitMinutes(s.averageWeekTimeWithoutCurrent))
  }

  /** Concrete cases: 135 minutes are 2 hours 15 minutes, and a negative
      total of -1 minute is -1 hours 59 minutes, as in Python. */
  lemma {:induction false} SplitMinutesExamples()
    ensures SplitMinutes(135) == (2, 15)
    ensures SplitMinutes(-1) == (-1, 59)
  {
  }
}
