/**
 * The second pass of the tool, `get_time_sets`: it reads the rows the first
 * pass produced, turns each into a dated session (day key, ISO week and
 * weekday, subject, duration, quality), adds the durations up per day, per
 * week, per subject and per weekday in insertion-ordered dictionaries, keeps
 * per weekday the list of durations and of (duration, quality) pairs, and
 * then derives the maxima, the week averages, the week count and the
 * per-weekday averages.
 *
 * Every exception the pass can raise is an `AggError`: an `int()` of a field
 * that is not a number, a date the `datetime.date` constructor refuses,
 * `max()` of an empty list, and the three divisions by zero.
 */
module Aggregation {
  import opened Wrappers
  import opened Text
  import opened Calendar
  import opened OrderedDicts
  import Patterns
  import LogParser

  type Row = LogParser.Row

  datatype AggError =
    | NotAnInteger(row: nat, column: nat)
    | InvalidDate(row: nat)
    | EmptyLog
    | SingleWeek
    | ZeroWeekcount
    | ZeroWeekdayDuration(weekday: int)

  /** What one row contributes to the tables. */
  datatype Rec = Rec(dayKey: string, week: int, weekday: int, subject: string, duration: int, quality: int)

  // ---------------------------------------------------------------------------
  // Decoding a row
  // ---------------------------------------------------------------------------

  /** `int(s)` for field `column` of row `row`. */
  function IntField(row: nat, column: nat, s: string): (r: Result<int, AggError>)
    ensures r.Ok? <==> |s| > 0 && AllDigits(s)
    ensures r.Ok? ==> r.value == DigitsValue(s)
    ensures r.Err? ==> r.error == NotAnInteger(row, column)
  {
    match ParseInt(s)
    case None => Err(NotAnInteger(row, column))
    case Some(v) => Ok(v)
  }

  /** Minutes since midnight of a clock time. */
  function Minutes(h: int, m: int): int {
    h * 60 + m
  }

  /** One iteration of the first loop up to the dictionary updates, in the
      order Python evaluates it: the three date fields, the date itself, the
      four clock fields and the quality. */
  function DecodeRow(idx: nat, row: Row): Result<Rec, AggError> {
    var y :- IntField(idx, 0, row.year);
    var m :- IntField(idx, 1, row.month);
    var d :- IntField(idx, 2, row.day);
    if !ValidDate(y, m, d) then Err(InvalidDate(idx))
    else
      var iso := IsoCalendar(y, m, d);
      var h1 :- IntField(idx, 3, row.startHour);
      var m1 :- IntField(idx, 4, row.startMinute);
      var h2 :- IntField(idx, 5, row.endHour);
      var m2 :- IntField(idx, 6, row.endMinute);
      var q :- IntField(idx, 7, row.quality);
      Ok(Rec(row.year + row.month + row.day, iso.week, iso.weekday, row.subject,
             Minutes(h2, m2) - Minutes(h1, m1), q))
  }

  /** `f(i, xs[i])` for every position in order; the first failure ends
      the pass. */
  function DecodeEach<X, Y, E>(xs: seq<X>, f: (nat, X) -> Result<Y, E>): Result<seq<Y>, E>
    decreases |xs|
  {
    if xs == [] then Ok([])
    else
      var ys :- DecodeEach(xs[..|xs| - 1], f);
      var y :- f(|xs| - 1, xs[|xs| - 1]);
      Ok(ys + [y])
  }

  /** All rows decoded in order; the first failing row ends the pass. */
  function DecodeRows(rows: seq<Row>): Result<seq<Rec>, AggError> {
    DecodeEach(rows, DecodeRow)
  }

  // ---------------------------------------------------------------------------
  // The tables of the first loop
  // ---------------------------------------------------------------------------

  function RecDay(r: Rec): string { r.dayKey }
  function RecWeek(r: Rec): int { r.week }
  function RecWeekday(r: Rec): int { r.weekday }
  function RecSubject(r: Rec): string { r.subject }
  function RecDuration(r: Rec): int { r.duration }
  function RecSession(r: Rec): (int, int) { (r.duration, r.quality) }
  function RecWeighted(r: Rec): int { r.duration * r.quality }

  datatype Tables = Tables(
    totalTime: int,
    dayTime: ODict<string, int>,
    weekTime: ODict<int, int>,
    subjectTime: ODict<string, int>,
    weekdayTime: ODict<int, int>,
    weekdayDetailedTime: ODict<int, seq<int>>,
    weekdayDetailedQuality: ODict<int, seq<(int, int)>>)

  ghost predicate TablesValid(t: Tables) {
    && Valid(t.dayTime) && Valid(t.weekTime) && Valid(t.subjectTime) && Valid(t.weekdayTime)
    && Valid(t.weekdayDetailedTime) && Valid(t.weekdayDetailedQuality)
  }

  /** What the first loop has built after the given rows. */
  function Tabulate(recs: seq<Rec>): Tables {
    Tables(
      SumAll(recs, RecDuration),
      TallyBy(recs, RecDay, RecDuration),
      TallyBy(recs, RecWeek, RecDuration),
      TallyBy(recs, RecSubject, RecDuration),
      TallyBy(recs, RecWeekday, RecDuration),
      GroupBy(recs, RecWeekday, RecDuration),
      GroupBy(recs, RecWeekday, RecSession))
  }

  /** The six dictionaries are well formed. */
  lemma {:induction false} TabulateValid(recs: seq<Rec>)
    ensures TablesValid(Tabulate(recs))
  {
    FillValid(recs, RecDay, RecDuration, RecDuration);
    FillValid(recs, RecWeek, RecDuration, RecDuration);
    FillValid(recs, RecSubject, RecDuration, RecDuration);
    FillValid(recs, RecWeekday, RecDuration, RecSession);
    FillValid(recs, RecWeekday, RecDuration, RecDuration);
  }

  // ---------------------------------------------------------------------------
  // The second phase
  // ---------------------------------------------------------------------------

  /** `max()` of a non-empty list: an element no element exceeds. */
  function MaxOf(s: seq<int>): (m: int)
    requires |s| > 0
    ensures forall i :: 0 <= i < |s| ==> s[i] <= m
    ensures exists i :: 0 <= i < |s| && s[i] == m
    decreases |s|
  {
    if |s| == 1 then s[0]
    else
      var n := |s| - 1;
      var p := MaxOf(s[..n]);
      assert forall i :: 0 <= i < n ==> s[..n][i] == s[i];
      if s[n] > p then s[n] else p
  }

  /** `sum(s) / len(s)`, as an exact quotient. */
  function Mean(s: seq<int>): real
    requires |s| > 0
  {
    Sum(s) as real / |s| as real
  }

  /** Python's `round(x)` with no digits: the nearest integer, and of two
      equally near ones the even one. */
  function Round(x: real): int {
    var f := x.Floor;
    var frac := x - f as real;
    if frac < 0.5 then f
    else if frac > 0.5 then f + 1
    else if f % 2 == 0 then f
    else f + 1
  }

  /** Last-inserted week key minus first-inserted week key plus one. */
  function WeekCount(w: ODict<int, int>): int
    requires |w.keys| > 0
  {
    w.keys[|w.keys| - 1] - w.keys[0] + 1
  }

  /** `sum(val) / weekcount` for every weekday list; the first division by
      zero ends the pass, so a zero count fails exactly when there is a list. */
  function AverageTimes(d: ODict<int, seq<int>>, weekcount: int): Result<ODict<int, real>, AggError>
    requires Valid(d)
  {
    if weekcount == 0 then
      if d.keys == [] then Ok(Empty()) else Err(ZeroWeekcount)
    else
      Ok(ODict(d.keys, map k | k in d.vals :: Sum(d.vals[k]) as real / weekcount as real))
  }

  /** The summed durations of a list of (duration, quality) pairs. */
  function TotalTime(ps: seq<(int, int)>): int
    decreases |ps|
  {
    if ps == [] then 0 else TotalTime(ps[..|ps| - 1]) + ps[|ps| - 1].0
  }

  /** The summed duration times quality of a list of pairs. */
  function WeightedSum(ps: seq<(int, int)>): int
    decreases |ps|
  {
    if ps == [] then 0 else WeightedSum(ps[..|ps| - 1]) + ps[|ps| - 1].0 * ps[|ps| - 1].1
  }

  /** The duration-weighted quality of the listed weekdays, in key order; the
      first weekday whose durations add up to zero ends the pass. */
  function AverageQualities(keys: seq<int>, vals: map<int, seq<(int, int)>>): (r: Result<ODict<int, real>, AggError>)
    requires forall k | k in keys :: k in vals
    requires Distinct(keys)
    ensures r.Ok? ==> Valid(r.value) && r.value.keys == keys
    decreases |keys|
  {
    if keys == [] then EmptyValid<int, real>(); Ok(Empty())
    else
      var n := |keys| - 1;
      var k := keys[n];
      var prev :- AverageQualities(keys[..n], vals);
      var total := TotalTime(vals[k]);
      if total == 0 then Err(ZeroWeekdayDuration(k))
      else
        var avg := WeightedSum(vals[k]) as real / total as real;
        PutValid(prev, k, avg);
        Ok(Put(prev, k, avg))
  }

  datatype TimeStats = TimeStats(
    totalTime: int,
    longestWeekTime: int,
    longestDayTime: int,
    averageWeekTime: int,
    averageWeekTimeWithoutCurrent: int,
    totalWeekcount: int)

  /** The nine results of the pass. */
  datatype TimeSets = TimeSets(
    stats: TimeStats,
    dayTime: ODict<string, int>,
    weekTime: ODict<int, int>,
    subjectTime: ODict<string, int>,
    weekdayTime: ODict<int, int>,
    weekdayDetailedTime: ODict<int, seq<int>>,
    weekdayAvgTime: ODict<int, real>,
    weekdayDetailedQuality: ODict<int, seq<(int, int)>>,
    weekdayAvgQuality: ODict<int, real>)

  /** The second phase, step by step. */
  function Summarise(t: Tables): Result<TimeSets, AggError>
    requires TablesValid(t)
  {
    if |t.weekTime.keys| == 0 || |t.dayTime.keys| == 0 then Err(EmptyLog)
    else
      var weeks := Values(t.weekTime);
      var withoutCurrent := weeks[..|weeks| - 1];
      if |withoutCurrent| == 0 then Err(SingleWeek)
      else
        var weekcount := WeekCount(t.weekTime);
        var avgTime :- AverageTimes(t.weekdayDetailedTime, weekcount);
        var avgQuality :- AverageQualities(t.weekdayDetailedQuality.keys, t.weekdayDetailedQuality.vals);
        Ok(TimeSets(
          TimeStats(t.totalTime, MaxOf(weeks), MaxOf(Values(t.dayTime)),
                    Round(Mean(weeks)), Round(Mean(withoutCurrent)), weekcount),
          t.dayTime, t.weekTime, t.subjectTime, t.weekdayTime,
          t.weekdayDetailedTime, avgTime, t.weekdayDetailedQuality, avgQuality))
  }

  /** The tables after the first loop, or the error that stopped it. */
  function TablesOf(rows: seq<Row>): (r: Result<Tables, AggError>)
    ensures r.Ok? ==> TablesValid(r.value)
  {
    var recs :- DecodeRows(rows);
    TabulateValid(recs);
    Ok(Tabulate(recs))
  }

  /** `get_time_sets` over the rows of the first pass. */
  function TimeSetsOf(rows: seq<Row>): Result<TimeSets, AggError> {
    var t :- TablesOf(rows);
    Summarise(t)
  }

  // ---------------------------------------------------------------------------
  // The pass as the source performs it
  // ---------------------------------------------------------------------------

  /** A failed prefix fails the whole decoding the same way. */
  lemma {:induction false} DecodeEachAbort<X, Y, E>(xs: seq<X>, f: (nat, X) -> Result<Y, E>, n: nat)
    requires n <= |xs| && DecodeEach(xs[..n], f).Err?
    ensures DecodeEach(xs, f) == DecodeEach(xs[..n], f)
    decreases |xs| - n
  {
    if n < |xs| {
      assert xs[..n + 1][..n] == xs[..n];
      DecodeEachAbort(xs, f, n + 1);
    } else {
      assert xs[..n] == xs;
    }
  }

  /** The per-weekday average time loop. */
  method WeekdayAverages(d: ODict<int, seq<int>>, weekcount: int) returns (r: Result<ODict<int, real>, AggError>)
    requires Valid(d)
    ensures r == AverageTimes(d, weekcount)
  {
    var acc: ODict<int, real> := Empty();
    EmptyValid<int, real>();
    var i := 0;
    while i < |d.keys|
      invariant 0 <= i <= |d.keys|
      invariant weekcount == 0 ==> i == 0 && acc == Empty()
      invariant acc.keys == d.keys[..i]
      invariant forall k | k in acc.vals :: k in d.vals && acc.vals[k] == Sum(d.vals[k]) as real / weekcount as real
      invariant Valid(acc)
    {
      var key := d.keys[i];
      var val := d.vals[key];
      if weekcount == 0 {
        return Err(ZeroWeekcount);
      }
      assert key !in acc.vals;
      assert d.keys[..i + 1] == d.keys[..i] + [key];
      PutValid(acc, key, Sum(val) as real / weekcount as real);
      acc := Put(acc, key, Sum(val) as real / weekcount as real);
      i := i + 1;
    }
    assert d.keys[..i] == d.keys;
    if weekcount != 0 {
      AveragesComplete(d, acc, weekcount);
    }
    r := Ok(acc);
  }

  /** Averages kept for every key of `d`, in its order, are the averages
      `AverageTimes` describes. */
  lemma {:induction false} AveragesComplete(d: ODict<int, seq<int>>, acc: ODict<int, real>, weekcount: int)
    requires Valid(d) && Valid(acc) && acc.keys == d.keys && weekcount != 0
    requires forall k | k in acc.vals :: k in d.vals && acc.vals[k] == Sum(d.vals[k]) as real / weekcount as real
    ensures AverageTimes(d, weekcount) == Ok(acc)
  {
    var m := map k | k in d.vals :: Sum(d.vals[k]) as real / weekcount as real;
    assert acc.vals.Keys == m.Keys;
    assert forall k | k in m :: acc.vals[k] == m[k];
    assert acc.vals == m;
  }

  /** A failed prefix of the keys fails the quality averages the same way. */
  lemma {:induction false} QualitiesAbort(keys: seq<int>, vals: map<int, seq<(int, int)>>, n: nat)
    requires forall k | k in keys :: k in vals
    requires Distinct(keys)
    requires n <= |keys|
    requires AverageQualities(keys[..n], vals).Err?
    ensures AverageQualities(keys, vals) == AverageQualities(keys[..n], vals)
    decreases |keys| - n
  {
    if n < |keys| {
      assert keys[..n + 1][..n] == keys[..n];
      QualitiesAbort(keys, vals, n + 1);
    } else {
      assert keys[..n] == keys;
    }
  }

  /** The inner loop of the quality averages: the summed durations and the
      summed duration times quality of one weekday's pairs. */
  method SessionTotals(val: seq<(int, int)>) returns (totalTime: int, weightedSum: int)
    ensures totalTime == TotalTime(val) && weightedSum == WeightedSum(val)
  {
    weightedSum := 0;
    totalTime := 0;
    var j := 0;
    while j < |val|
      invariant 0 <= j <= |val|
      invariant totalTime == TotalTime(val[..j])
      invariant weightedSum == WeightedSum(val[..j])
    {
      var (time, quality) := val[j];
      assert val[..j + 1][..j] == val[..j];
      totalTime := totalTime + time;
      weightedSum := weightedSum + time * quality;
      j := j + 1;
    }
    assert val[..j] == val;
  }

  /** A prefix of a dictionary's keys still meets what `AverageQualities`
      asks of its keys. */
  lemma {:induction false} KeysPrefix<V>(d: ODict<int, V>, i: nat)
    requires Valid(d) && i <= |d.keys|
    ensures Distinct(d.keys[..i])
    ensures forall k | k in d.keys[..i] :: k in d.vals
  {
  }

  /** One more weekday either fails the quality averages with its zero total
      or adds its average after the ones before it. */
  lemma {:induction false} QualitiesStep(keys: seq<int>, vals: map<int, seq<(int, int)>>, n: nat)
    requires forall k | k in keys :: k in vals
    requires Distinct(keys)
    requires n < |keys| && AverageQualities(keys[..n], vals).Ok?
    ensures var k := keys[n];
      var prev := AverageQualities(keys[..n], vals).value;
      AverageQualities(keys[..n + 1], vals) ==
        if TotalTime(vals[k]) == 0 then Err(ZeroWeekdayDuration(k))
        else Ok(Put(prev, k, WeightedSum(vals[k]) as real / TotalTime(vals[k]) as real))
  {
    assert keys[..n + 1][..n] == keys[..n];
  }

  /** The per-weekday quality loop. */
  method WeekdayQualities(d: ODict<int, seq<(int, int)>>) returns (r: Result<ODict<int, real>, AggError>)
    requires Valid(d)
    ensures r == AverageQualities(d.keys, d.vals)
  {
    var acc: ODict<int, real> := Empty();
    var i := 0;
    KeysPrefix(d, 0);
    while i < |d.keys|
      invariant 0 <= i <= |d.keys|
      invariant Distinct(d.keys[..i]) && forall k | k in d.keys[..i] :: k in d.vals
      invariant AverageQualities(d.keys[..i], d.vals) == Ok(acc)
    {
      var key := d.keys[i];
      var totalTime, weightedSum := SessionTotals(d.vals[key]);
      KeysPrefix(d, i + 1);
      QualitiesStep(d.keys, d.vals, i);
      if totalTime == 0 {
        QualitiesAbort(d.keys, d.vals, i + 1);
        return Err(ZeroWeekdayDuration(key));
      }
      acc := Put(acc, key, weightedSum as real / totalTime as real);
      i := i + 1;
    }
    assert d.keys[..i] == d.keys;
    r := Ok(acc);
  }

  /** The first loop of `get_time_sets`, over the rows. */
  method TabulateRows(rows: seq<Row>) returns (res: Result<Tables, AggError>)
    ensures res == TablesOf(rows)
  {
    var totalTime := 0;
    var dayTime: ODict<string, int> := Empty();
    var weekTime: ODict<int, int> := Empty();
    var subjectTime: ODict<string, int> := Empty();
    var weekdayTime: ODict<int, int> := Empty();
    var detailedTime: ODict<int, seq<int>> := Empty();
    var detailedQuality: ODict<int, seq<(int, int)>> := Empty();
    ghost var recs: seq<Rec> := [];
    var idx := 0;
    while idx < |rows|
      invariant 0 <= idx <= |rows|
      invariant DecodeRows(rows[..idx]) == Ok(recs)
      invariant totalTime == SumAll(recs, RecDuration)
      invariant dayTime == TallyBy(recs, RecDay, RecDuration)
      invariant weekTime == TallyBy(recs, RecWeek, RecDuration)
      invariant subjectTime == TallyBy(recs, RecSubject, RecDuration)
      invariant weekdayTime == TallyBy(recs, RecWeekday, RecDuration)
      invariant detailedTime == GroupBy(recs, RecWeekday, RecDuration)
      invariant detailedQuality == GroupBy(recs, RecWeekday, RecSession)
    {
      assert rows[..idx + 1][..idx] == rows[..idx];
      var decoded := DecodeRow(idx, rows[idx]);
      if decoded.Err? {
        DecodeEachAbort(rows, DecodeRow, idx + 1);
        return Err(decoded.error);
      }
      var r := decoded.value;
      FillSnoc(recs, r, RecDay, RecDuration, RecDuration);
      FillSnoc(recs, r, RecWeek, RecDuration, RecDuration);
      FillSnoc(recs, r, RecSubject, RecDuration, RecDuration);
      FillSnoc(recs, r, RecWeekday, RecDuration, RecSession);
      totalTime := totalTime + r.duration;
      dayTime := AddTo(dayTime, r.dayKey, r.duration);
      weekTime := AddTo(weekTime, r.week, r.duration);
      subjectTime := AddTo(subjectTime, r.subject, r.duration);
      weekdayTime := AddTo(weekdayTime, r.weekday, r.duration);
      detailedTime := Append(detailedTime, r.weekday, r.duration);
      detailedQuality := Append(detailedQuality, r.weekday, (r.duration, r.quality));
      recs := recs + [r];
      idx := idx + 1;
    }
    assert rows[..idx] == rows;
    res := Ok(Tables(totalTime, dayTime, weekTime, subjectTime, weekdayTime, detailedTime, detailedQuality));
  }

  /** The statements of `get_time_sets` after the loop over the rows. */
  method SummariseTables(t: Tables) returns (res: Result<TimeSets, AggError>)
    requires TablesValid(t)
    ensures res == Summarise(t)
  {
    if |t.weekTime.keys| == 0 || |t.dayTime.keys| == 0 {
      return Err(EmptyLog);
    }
    var weeks := Values(t.weekTime);
    var longestWeek := MaxOf(weeks);
    var longestDay := MaxOf(Values(t.dayTime));
    var averageWeek := Round(Mean(weeks));
    var withoutCurrent := weeks[..|weeks| - 1];
    if |withoutCurrent| == 0 {
      return Err(SingleWeek);
    }
    var averageWithoutCurrent := Round(Mean(withoutCurrent));
    var weekcount := WeekCount(t.weekTime);
    var avgTime := WeekdayAverages(t.weekdayDetailedTime, weekcount);
    if avgTime.Err? {
      return Err(avgTime.error);
    }
    var avgQuality := WeekdayQualities(t.weekdayDetailedQuality);
    if avgQuality.Err? {
      return Err(avgQuality.error);
    }
    var stats := TimeStats(t.totalTime, longestWeek, longestDay, averageWeek, averageWithoutCurrent, weekcount);
    res := Ok(TimeSets(stats, t.dayTime, t.weekTime, t.subjectTime, t.weekdayTime,
                       t.weekdayDetailedTime, avgTime.value, t.weekdayDetailedQuality, avgQuality.value));
  }

  /** `get_time_sets`: the loop over the rows, then the statistics. */
  method GetTimeSets(rows: seq<Row>) returns (res: Result<TimeSets, AggError>)
    ensures res == TimeSetsOf(rows)
  {
    var tables := TabulateRows(rows);
    if tables.Err? {
      return Err(tables.error);
    }
    res := SummariseTables(tables.value);
  }
}
