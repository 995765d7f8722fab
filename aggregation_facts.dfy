/**
 * What `get_time_sets` computes, stated against the rows it reads: which
 * rows make it fail and with which error, what each row contributes, what
 * every table holds, and what the statistics derived from them mean.
 */
module AggregationFacts {
  import opened Wrappers
  import opened Text
  import opened Calendar
  import opened OrderedDicts
  import opened Aggregation
  import Patterns
  import LogParser

  // ---------------------------------------------------------------------------
  // Decoding one row
  // ---------------------------------------------------------------------------

  /** The field at `column`, in the order of the table's columns. */
  function Field(row: Row, column: nat): string {
    if column == 0 then row.year
    else if column == 1 then row.month
    else if column == 2 then row.day
    else if column == 3 then row.startHour
    else if column == 4 then row.startMinute
    else if column == 5 then row.endHour
    else if column == 6 then row.endMinute
    else if column == 7 then row.quality
    else row.subject
  }

  predicate DateNumeric(row: Row) {
    Numeric(row.year) && Numeric(row.month) && Numeric(row.day)
  }

  predicate ClockNumeric(row: Row) {
    && Numeric(row.startHour) && Numeric(row.startMinute)
    && Numeric(row.endHour) && Numeric(row.endMinute) && Numeric(row.quality)
  }

  /** The row's date exists in the proleptic Gregorian calendar. */
  predicate DateExists(row: Row)
    requires DateNumeric(row)
  {
    ValidDate(DigitsValue(row.year), DigitsValue(row.month), DigitsValue(row.day))
  }

  /** `column` is where the evaluation of a row first meets a field `int()`
      refuses: every column before it converts, and a clock or quality
      column is only reached when the date exists. */
  predicate FirstBadColumn(row: Row, column: nat) {
    && column < 8
    && !Numeric(Field(row, column))
    && (forall j :: 0 <= j < column ==> Numeric(Field(row, j)))
    && (column >= 3 ==> DateNumeric(row) && DateExists(row))
  }

  /** A row decodes exactly when its eight numeric fields convert and its
      date exists; otherwise it fails with `InvalidDate` when the date fields
      convert but name no day, and else with the first column that does not
      convert. */
  lemma {:induction false} DecodeRowOutcome(idx: nat, row: Row)
    ensures DecodeRow(idx, row).Ok? <==> DateNumeric(row) && DateExists(row) && ClockNumeric(row)
    ensures DecodeRow(idx, row) == Err(InvalidDate(idx)) <==> DateNumeric(row) && !DateExists(row)
    ensures DecodeRow(idx, row).Err? ==>
      || DecodeRow(idx, row).error == InvalidDate(idx)
      || (exists c :: FirstBadColumn(row, c) && DecodeRow(idx, row).error == NotAnInteger(idx, c))
  {
    var r := DecodeRow(idx, row);
    if !Numeric(row.year) {
      assert FirstBadColumn(row, 0);
    } else if !Numeric(row.month) {
      assert FirstBadColumn(row, 1);
    } else if !Numeric(row.day) {
      assert FirstBadColumn(row, 2);
    } else if !DateExists(row) {
    } else if !Numeric(row.startHour) {
      assert FirstBadColumn(row, 3);
    } else if !Numeric(row.startMinute) {
      assert FirstBadColumn(row, 4);
    } else if !Numeric(row.endHour) {
      assert FirstBadColumn(row, 5);
    } else if !Numeric(row.endMinute) {
      assert FirstBadColumn(row, 6);
    } else if !Numeric(row.quality) {
      assert FirstBadColumn(row, 7);
    }
  }

  /** The record of a row that decodes, field by field. */
  lemma {:induction false} DecodeRowFields(idx: nat, row: Row)
    requires DecodeRow(idx, row).Ok?
    ensures DateNumeric(row) && DateExists(row) && ClockNumeric(row)
    ensures DecodeRow(idx, row).value
      == Rec(row.year + row.month + row.day,
             IsoCalendar(DigitsValue(row.year), DigitsValue(row.month), DigitsValue(row.day)).week,
             IsoCalendar(DigitsValue(row.year), DigitsValue(row.month), DigitsValue(row.day)).weekday,
             row.subject,
             Minutes(DigitsValue(row.endHour), DigitsValue(row.endMinute)) - Minutes(DigitsValue(row.startHour), DigitsValue(row.startMinute)),
             DigitsValue(row.quality))
  {
    DecodeRowOutcome(idx, row);
  }

  /** What a decoded row holds: the day key is the three date fields joined,
      the duration is end minus start in minutes, the quality and subject
      are the row's, and week and weekday are the ISO week date of the day
      (weekday 1 = Monday to 7 = Sunday, week 1 to 53 counted from the
      Monday of week 1 of the ISO year, which is the calendar year or one of
      its neighbours). */
  lemma {:induction false} DecodeRowValue(idx: nat, row: Row)
    requires DecodeRow(idx, row).Ok?
    ensures DateNumeric(row) && DateExists(row) && ClockNumeric(row)
    ensures var r := DecodeRow(idx, row).value;
      var y, m, d := DigitsValue(row.year), DigitsValue(row.month), DigitsValue(row.day);
      && r.dayKey == row.year + row.month + row.day
      && r.subject == row.subject
      && r.quality == DigitsValue(row.quality)
      && r.duration == Minutes(DigitsValue(row.endHour), DigitsValue(row.endMinute)) - Minutes(DigitsValue(row.startHour), DigitsValue(row.startMinute))
      && 1 <= r.weekday <= 7 && r.weekday == WeekdayOf(Ordinal(y, m, d)) + 1
      && 1 <= r.week <= 53
      && exists iy :: y - 1 <= iy <= y + 1 &&
           IsIsoDateOf(IsoDate(iy, r.week, r.weekday), Ordinal(y, m, d), Week1Monday(iy), Week1Monday(iy + 1))
  {
    DecodeRowFields(idx, row);
    var y, m, d := DigitsValue(row.year), DigitsValue(row.month), DigitsValue(row.day);
    var iso := IsoCalendar(y, m, d);
    assert IsIsoDateOf(IsoDate(iso.year, iso.week, iso.weekday), Ordinal(y, m, d), Week1Monday(iso.year), Week1Monday(iso.year + 1))
      && y - 1 <= iso.year <= y + 1
    by { IsoCalendarCorrect(y, m, d); }
  }

  /** A row the first pass wrote converts in every numeric field, so it can
      only fail on its date; a decoded one has an eight-character day key, a
      quality from 0 to 9 and a duration of less than 101 hours either way. */
  lemma {:induction false} WrittenRowDecodes(idx: nat, row: Row)
    requires LogParser.WellFormedRow(row)
    ensures DecodeRow(idx, row).Ok? <==> DateExists(row)
    ensures DecodeRow(idx, row).Err? ==> DecodeRow(idx, row).error == InvalidDate(idx)
    ensures DecodeRow(idx, row).Ok? ==>
      var r := DecodeRow(idx, row).value;
      |r.dayKey| == 8 && 0 <= r.quality <= 9 && -6039 <= r.duration <= 6039
  {
    WrittenFieldsBounded(row);
    DecodeRowOutcome(idx, row);
    if DecodeRow(idx, row).Ok? {
      DecodeRowValue(idx, row);
    }
  }

  /** The fields of a row the first pass wrote are numeric: the date takes
      eight characters, the clock fields are below 100 and the quality is a
      single digit. */
  lemma {:induction false} WrittenFieldsBounded(row: Row)
    requires LogParser.WellFormedRow(row)
    ensures DateNumeric(row) && ClockNumeric(row)
    ensures |row.year + row.month + row.day| == 8
    ensures DigitsValue(row.startHour) < 100 && DigitsValue(row.startMinute) < 100
    ensures DigitsValue(row.endHour) < 100 && DigitsValue(row.endMinute) < 100
    ensures DigitsValue(row.quality) <= 9
  {
    assert Pow10(1) == 10;
    assert Pow10(2) == 100;
  }

  // ---------------------------------------------------------------------------
  // Decoding all rows
  // ---------------------------------------------------------------------------

  /** `DecodeEach` succeeds exactly when every element does, with one
      result per element; it fails with the error of the first element that
      fails. */
  lemma {:induction false} DecodeEachMeaning<X, Y, E>(xs: seq<X>, f: (nat, X) -> Result<Y, E>)
    ensures DecodeEach(xs, f).Ok? <==> forall i :: 0 <= i < |xs| ==> f(i, xs[i]).Ok?
    ensures DecodeEach(xs, f).Ok? ==>
      && |DecodeEach(xs, f).value| == |xs|
      && forall i :: 0 <= i < |xs| ==> DecodeEach(xs, f).value[i] == f(i, xs[i]).value
    ensures DecodeEach(xs, f).Err? ==>
      exists i :: 0 <= i < |xs| && f(i, xs[i]).Err?
        && DecodeEach(xs, f).error == f(i, xs[i]).error
        && forall j :: 0 <= j < i ==> f(j, xs[j]).Ok?
    decreases |xs|
  {
    if xs != [] {
      var n := |xs| - 1;
      var prefix := xs[..n];
      DecodeEachMeaning(prefix, f);
      assert forall i :: 0 <= i < n ==> prefix[i] == xs[i];
      var pr := DecodeEach(prefix, f);
      if pr.Err? {
        var i :| 0 <= i < n && f(i, prefix[i]).Err? && pr.error == f(i, prefix[i]).error
          && forall j :: 0 <= j < i ==> f(j, prefix[j]).Ok?;
        assert f(i, xs[i]).Err?;
      } else if f(n, xs[n]).Err? {
        assert DecodeEach(xs, f).error == f(n, xs[n]).error;
      } else {
        var ys := DecodeEach(xs, f).value;
        assert ys == pr.value + [f(n, xs[n]).value];
        forall i | 0 <= i < |xs|
          ensures ys[i] == f(i, xs[i]).value
        {
          if i < n {
            assert ys[i] == pr.value[i];
          }
        }
      }
    }
  }

  /** On the rows the first pass produced from a log, decoding can only fail
      on a date that does not exist; `int()` never fails. */
  lemma {:induction false} ParsedLogDecodes(lines: seq<string>)
    requires LogParser.ParseLines(lines).Ok?
    ensures var rows := LogParser.ParseLines(lines).value.rows;
      DecodeRows(rows).Err? ==> DecodeRows(rows).error.InvalidDate?
  {
    var rows := LogParser.ParseLines(lines).value.rows;
    LogParser.ParsedRowsWellFormed(lines);
    DecodeEachMeaning(rows, DecodeRow);
    if DecodeRows(rows).Err? {
      var i :| 0 <= i < |rows| && DecodeRow(i, rows[i]).Err? && DecodeRows(rows).error == DecodeRow(i, rows[i]).error;
      assert rows[i] in rows;
      WrittenRowDecodes(i, rows[i]);
    }
  }

  /** Every record decoded from a parsed log has an eight-character day key,
      a quality from 0 to 9 and a duration of less than 101 hours either way. */
  lemma {:induction false} ParsedRecordsBounded(lines: seq<string>)
    requires LogParser.ParseLines(lines).Ok?
    requires DecodeRows(LogParser.ParseLines(lines).value.rows).Ok?
    ensures var recs := DecodeRows(LogParser.ParseLines(lines).value.rows).value;
      forall i :: 0 <= i < |recs| ==>
        |recs[i].dayKey| == 8 && 0 <= recs[i].quality <= 9 && -6039 <= recs[i].duration <= 6039
  {
    var rows := LogParser.ParseLines(lines).value.rows;
    var recs := DecodeRows(rows).value;
    LogParser.ParsedRowsWellFormed(lines);
    DecodeEachMeaning(rows, DecodeRow);
    forall i | 0 <= i < |recs|
      ensures |recs[i].dayKey| == 8 && 0 <= recs[i].quality <= 9 && -6039 <= recs[i].duration <= 6039
    {
      assert rows[i] in rows;
      WrittenRowDecodes(i, rows[i]);
    }
  }

  /** Every (duration, quality) pair listed has a quality from 0 to 9 and a
      duration of less than 101 hours either way. */
  ghost predicate SessionsBounded(g: ODict<int, seq<(int, int)>>) {
    forall k, p :: k in g.vals && p in g.vals[k] ==> 0 <= p.1 <= 9 && -6039 <= p.0 <= 6039
  }

  /** Records whose qualities and durations are bounded give weekday session
      lists with the same bounds. */
  lemma {:induction false} WeekdaySessionsBounded(recs: seq<Rec>)
    requires forall i :: 0 <= i < |recs| ==> 0 <= recs[i].quality <= 9 && -6039 <= recs[i].duration <= 6039
    ensures SessionsBounded(GroupBy(recs, RecWeekday, RecSession))
  {
    var g := GroupBy(recs, RecWeekday, RecSession);
    GroupByMeaning(recs, RecWeekday, RecSession);
    forall k, p | k in g.vals && p in g.vals[k]
      ensures 0 <= p.1 <= 9 && -6039 <= p.0 <= 6039
    {
      SelectMembers(recs, RecWeekday, k, RecSession);
      var i :| 0 <= i < |recs| && RecWeekday(recs[i]) == k && p == RecSession(recs[i]);
    }
  }

  /** The (duration, quality) pairs the first loop collects per weekday from a
      parsed log have qualities from 0 to 9 and durations of less than 101
      hours either way. */
  lemma {:induction false} ParsedWeekdaySessions(lines: seq<string>, recs: seq<Rec>)
    requires LogParser.ParseLines(lines).Ok?
    requires DecodeRows(LogParser.ParseLines(lines).value.rows) == Ok(recs)
    ensures SessionsBounded(Tabulate(recs).weekdayDetailedQuality)
  {
    assert forall i :: 0 <= i < |recs| ==> 0 <= recs[i].quality <= 9 && -6039 <= recs[i].duration <= 6039 by {
      ParsedRecordsBounded(lines);
    }
    assert Tabulate(recs).weekdayDetailedQuality == GroupBy(recs, RecWeekday, RecSession);
    WeekdaySessionsBounded(recs);
  }


  // ---------------------------------------------------------------------------
  // The per-weekday averages
  // ---------------------------------------------------------------------------

  /** The weekday time averages: with a week count of zero they fail as soon
      as there is a weekday; otherwise every weekday keeps its place and its
      average times the week count is the sum of its durations. */
  lemma {:induction false} AverageTimesMeaning(d: ODict<int, seq<int>>, weekcount: int)
    requires Valid(d)
    ensures AverageTimes(d, weekcount).Ok? <==> weekcount != 0 || d.keys == []
    ensures AverageTimes(d, weekcount).Err? ==> AverageTimes(d, weekcount).error == ZeroWeekcount
    ensures AverageTimes(d, weekcount).Ok? ==>
      var a := AverageTimes(d, weekcount).value;
      && Valid(a) && a.keys == d.keys
      && forall k :: k in a.vals ==> k in d.vals && a.vals[k] * weekcount as real == Sum(d.vals[k]) as real
  {
    if weekcount == 0 {
      EmptyValid<int, real>();
    }
  }

  /** The weekday quality averages succeed exactly when no listed weekday has
      a zero total duration; otherwise the first weekday with a zero total is
      the error. */
  lemma {:induction false} AverageQualitiesOutcome(keys: seq<int>, vals: map<int, seq<(int, int)>>)
    requires forall k | k in keys :: k in vals
    requires Distinct(keys)
    ensures AverageQualities(keys, vals).Ok? <==> forall i :: 0 <= i < |keys| ==> TotalTime(vals[keys[i]]) != 0
    ensures AverageQualities(keys, vals).Err? ==>
      exists i :: 0 <= i < |keys| && TotalTime(vals[keys[i]]) == 0
        && AverageQualities(keys, vals).error == ZeroWeekdayDuration(keys[i])
        && forall j :: 0 <= j < i ==> TotalTime(vals[keys[j]]) != 0
  {
    AverageQualitiesFirstZero(keys, vals);
    if AverageQualities(keys, vals).Ok? {
      forall i | 0 <= i < |keys|
        ensures TotalTime(vals[keys[i]]) != 0
      {
        if TotalTime(vals[keys[i]]) == 0 {
          ZeroTotalFails(keys, vals, i);
        }
      }
    }
  }

  /** A weekday with a zero total makes the quality averages fail. */
  lemma {:induction false} ZeroTotalFails(keys: seq<int>, vals: map<int, seq<(int, int)>>, i: int)
    requires forall k | k in keys :: k in vals
    requires Distinct(keys)
    requires 0 <= i < |keys| && keys[i] in vals && TotalTime(vals[keys[i]]) == 0
    ensures AverageQualities(keys, vals).Err?
    decreases |keys|
  {
    var n := |keys| - 1;
    var prefix := keys[..n];
    assert Distinct(prefix);
    if i < n {
      assert prefix[i] == keys[i];
      ZeroTotalFails(prefix, vals, i);
    }
  }

  /** A failure names the first weekday whose total is zero. */
  lemma {:induction false} AverageQualitiesFirstZero(keys: seq<int>, vals: map<int, seq<(int, int)>>)
    requires forall k | k in keys :: k in vals
    requires Distinct(keys)
    ensures AverageQualities(keys, vals).Err? ==>
      exists i :: 0 <= i < |keys| && TotalTime(vals[keys[i]]) == 0
        && AverageQualities(keys, vals).error == ZeroWeekdayDuration(keys[i])
        && forall j :: 0 <= j < i ==> TotalTime(vals[keys[j]]) != 0
    decreases |keys|
  {
    if keys != [] {
      var n := |keys| - 1;
      var prefix := keys[..n];
      assert forall i :: 0 <= i < n ==> prefix[i] == keys[i];
      assert Distinct(prefix);
      AverageQualitiesFirstZero(prefix, vals);
      var pr := AverageQualities(prefix, vals);
      if pr.Err? {
        var i :| 0 <= i < n && TotalTime(vals[prefix[i]]) == 0 && pr.error == ZeroWeekdayDuration(prefix[i])
          && forall j :: 0 <= j < i ==> TotalTime(vals[prefix[j]]) != 0;
        assert AverageQualities(keys, vals) == pr;
        assert TotalTime(vals[keys[i]]) == 0;
      } else if TotalTime(vals[keys[n]]) == 0 {
        forall j | 0 <= j < n
          ensures TotalTime(vals[keys[j]]) != 0
        {
          if TotalTime(vals[keys[j]]) == 0 {
            assert prefix[j] == keys[j];
            ZeroTotalFails(prefix, vals, j);
          }
        }
        assert AverageQualities(keys, vals).error == ZeroWeekdayDuration(keys[n]);
      }
    }
  }

  /** Each weekday quality average is the duration-weighted quality of the
      weekday's pairs. */
  lemma {:induction false} AverageQualitiesValues(keys: seq<int>, vals: map<int, seq<(int, int)>>)
    requires forall k | k in keys :: k in vals
    requires Distinct(keys)
    requires AverageQualities(keys, vals).Ok?
    ensures var a := AverageQualities(keys, vals).value;
      forall k :: k in a.vals ==> k in vals && TotalTime(vals[k]) != 0 && a.vals[k] == WeightedSum(vals[k]) as real / TotalTime(vals[k]) as real
    decreases |keys|
  {
    if keys != [] {
      var n := |keys| - 1;
      var prefix := keys[..n];
      assert forall i :: 0 <= i < n ==> prefix[i] == keys[i];
      assert Distinct(prefix);
      var pr := AverageQualities(prefix, vals);
      AverageQualitiesValues(prefix, vals);
      var k := keys[n];
      assert TotalTime(vals[k]) != 0;
      var avg := WeightedSum(vals[k]) as real / TotalTime(vals[k]) as real;
      assert AverageQualities(keys, vals) == Ok(Put(pr.value, k, avg));
    }
  }

  /** The durations of a weekday's (duration, quality) pairs add up to the
      weekday's time, and their products with the quality to its weighted
      sum. */
  lemma {:induction false} SessionSums(recs: seq<Rec>, k: int)
    ensures TotalTime(Select(recs, RecWeekday, k, RecSession)) == SumWhere(recs, RecWeekday, k, RecDuration)
    ensures WeightedSum(Select(recs, RecWeekday, k, RecSession)) == SumWhere(recs, RecWeekday, k, RecWeighted)
    decreases |recs|
  {
    if recs != [] {
      var n := |recs| - 1;
      SessionSums(recs[..n], k);
      var s := Select(recs[..n], RecWeekday, k, RecSession);
      if RecWeekday(recs[n]) == k {
        assert (s + [RecSession(recs[n])])[..|s|] == s;
      } else {
        assert s + [] == s;
      }
    }
  }

  // ---------------------------------------------------------------------------
  // The tables of the first loop
  // ---------------------------------------------------------------------------

  /** Every dictionary of the first loop lists its keys in the order they
      first occur among the records; the three weekday dictionaries share
      their keys. */
  lemma {:induction false} TabulateKeys(recs: seq<Rec>)
    ensures TablesValid(Tabulate(recs))
    ensures var t := Tabulate(recs);
      && t.dayTime.keys == KeysOf(recs, RecDay)
      && t.weekTime.keys == KeysOf(recs, RecWeek)
      && t.subjectTime.keys == KeysOf(recs, RecSubject)
      && t.weekdayTime.keys == KeysOf(recs, RecWeekday)
      && t.weekdayDetailedTime.keys == KeysOf(recs, RecWeekday)
      && t.weekdayDetailedQuality.keys == KeysOf(recs, RecWeekday)
  {
    TabulateValid(recs);
    TallyByMeaning(recs, RecDay, RecDuration);
    TallyByMeaning(recs, RecWeek, RecDuration);
    TallyByMeaning(recs, RecSubject, RecDuration);
    TallyByMeaning(recs, RecWeekday, RecDuration);
    GroupByMeaning(recs, RecWeekday, RecDuration);
    GroupByMeaning(recs, RecWeekday, RecSession);
  }

  /** Each day, week, subject and weekday maps to the summed durations of
      its records; each weekday maps to its records' durations and to their
      (duration, quality) pairs, in record order. */
  lemma {:induction false} TabulateEntries(recs: seq<Rec>)
    ensures var t := Tabulate(recs);
      && (forall k :: k in t.dayTime.vals ==> t.dayTime.vals[k] == SumWhere(recs, RecDay, k, RecDuration))
      && (forall k :: k in t.weekTime.vals ==> t.weekTime.vals[k] == SumWhere(recs, RecWeek, k, RecDuration))
      && (forall k :: k in t.subjectTime.vals ==> t.subjectTime.vals[k] == SumWhere(recs, RecSubject, k, RecDuration))
      && (forall k :: k in t.weekdayTime.vals ==> t.weekdayTime.vals[k] == SumWhere(recs, RecWeekday, k, RecDuration))
      && (forall k :: k in t.weekdayDetailedTime.vals ==>
            t.weekdayDetailedTime.vals[k] == Select(recs, RecWeekday, k, RecDuration))
      && (forall k :: k in t.weekdayDetailedQuality.vals ==>
            t.weekdayDetailedQuality.vals[k] == Select(recs, RecWeekday, k, RecSession))
  {
    TallyByMeaning(recs, RecDay, RecDuration);
    TallyByMeaning(recs, RecWeek, RecDuration);
    TallyByMeaning(recs, RecSubject, RecDuration);
    TallyByMeaning(recs, RecWeekday, RecDuration);
    GroupByMeaning(recs, RecWeekday, RecDuration);
    GroupByMeaning(recs, RecWeekday, RecSession);
  }

  /** However the durations are grouped, by day, week, subject or weekday,
      the groups add up to the total time. */
  lemma {:induction false} TabulateTotals(recs: seq<Rec>)
    ensures TablesValid(Tabulate(recs))
    ensures var t := Tabulate(recs);
      && Sum(Values(t.dayTime)) == t.totalTime
      && Sum(Values(t.weekTime)) == t.totalTime
      && Sum(Values(t.subjectTime)) == t.totalTime
      && Sum(Values(t.weekdayTime)) == t.totalTime
  {
    TabulateValid(recs);
    TallyBySum(recs, RecDay, RecDuration);
    TallyBySum(recs, RecWeek, RecDuration);
    TallyBySum(recs, RecSubject, RecDuration);
    TallyBySum(recs, RecWeekday, RecDuration);
  }

  /** For every weekday the list of durations adds up to the weekday's time,
      so do the durations of its (duration, quality) pairs, and their
      products add up to the weekday's duration-weighted quality. */
  lemma {:induction false} TabulateWeekdays(recs: seq<Rec>)
    ensures var t := Tabulate(recs);
      forall k :: k in t.weekdayTime.vals ==>
        && k in t.weekdayDetailedTime.vals && k in t.weekdayDetailedQuality.vals
        && Sum(t.weekdayDetailedTime.vals[k]) == t.weekdayTime.vals[k]
        && TotalTime(t.weekdayDetailedQuality.vals[k]) == t.weekdayTime.vals[k]
        && WeightedSum(t.weekdayDetailedQuality.vals[k]) == SumWhere(recs, RecWeekday, k, RecWeighted)
  {
    var t := Tabulate(recs);
    TabulateKeys(recs);
    TabulateEntries(recs);
    forall k | k in t.weekdayTime.vals
      ensures k in t.weekdayDetailedTime.vals && k in t.weekdayDetailedQuality.vals
      ensures Sum(t.weekdayDetailedTime.vals[k]) == t.weekdayTime.vals[k]
      ensures TotalTime(t.weekdayDetailedQuality.vals[k]) == t.weekdayTime.vals[k]
      ensures WeightedSum(t.weekdayDetailedQuality.vals[k]) == SumWhere(recs, RecWeekday, k, RecWeighted)
    {
      SumSelect(recs, RecWeekday, k, RecDuration);
      SessionSums(recs, k);
    }
  }

  // ---------------------------------------------------------------------------
  // The statistics
  // ---------------------------------------------------------------------------

  /** `max()` of the values of a `+=` dictionary is the largest group total:
      no item's group has more, and some item's group has exactly that. */
  lemma {:induction false} TallyMax<T, K>(items: seq<T>, key: T -> K, weight: T -> int)
    requires items != []
    ensures Valid(TallyBy(items, key, weight)) && |TallyBy(items, key, weight).keys| > 0
    ensures var m := MaxOf(Values(TallyBy(items, key, weight)));
      && (forall i :: 0 <= i < |items| ==> SumWhere(items, key, key(items[i]), weight) <= m)
      && (exists i :: 0 <= i < |items| && SumWhere(items, key, key(items[i]), weight) == m)
  {
    var d := TallyBy(items, key, weight);
    FillValid(items, key, weight, weight);
    TallyByMeaning(items, key, weight);
    KeysOfMembers(items, key);
    KeysOfFirst(items, key);
    var vs := Values(d);
    var m := MaxOf(vs);
    forall i | 0 <= i < |items|
      ensures SumWhere(items, key, key(items[i]), weight) <= m
    {
      var k := key(items[i]);
      assert k in d.keys;
      var j :| 0 <= j < |d.keys| && d.keys[j] == k;
      assert vs[j] == d.vals[k];
    }
    var j :| 0 <= j < |vs| && vs[j] == m;
    var k := d.keys[j];
    assert k in KeysOf(items, key);
    var i :| 0 <= i < |items| && key(items[i]) == k;
    assert SumWhere(items, key, key(items[i]), weight) == m;
  }

  /** The sum of a `+=` dictionary's values but the last is the total
      weight less that of the last-inserted key. */
  lemma {:induction false} TallyAllButLast<T, K>(items: seq<T>, key: T -> K, weight: T -> int)
    requires items != []
    ensures Valid(TallyBy(items, key, weight)) && |TallyBy(items, key, weight).keys| > 0
    ensures var vs := Values(TallyBy(items, key, weight));
      var ks := KeysOf(items, key);
      && |vs| == |ks|
      && Sum(vs[..|vs| - 1]) == SumAll(items, weight) - SumWhere(items, key, ks[|ks| - 1], weight)
  {
    var d := TallyBy(items, key, weight);
    TallyBySum(items, key, weight);
    TallyByMeaning(items, key, weight);
    KeysOfMembers(items, key);
    KeysOfFirst(items, key);
    var vs := Values(d);
    assert vs[|vs| - 1] == d.vals[d.keys[|d.keys| - 1]];
  }

  /** The weekday totals of the records, as the quality averages see them:
      each weekday's pairs add up to the weekday's summed durations. */
  lemma WeekdayTotals(recs: seq<Rec>)
    ensures TablesValid(Tabulate(recs))
    ensures var t := Tabulate(recs);
      var days := KeysOf(recs, RecWeekday);
      && t.weekdayDetailedQuality.keys == days
      && forall i :: 0 <= i < |days| ==>
           && days[i] in t.weekdayDetailedQuality.vals
           && TotalTime(t.weekdayDetailedQuality.vals[days[i]]) == SumWhere(recs, RecWeekday, days[i], RecDuration)
  {
    var t := Tabulate(recs);
    TabulateKeys(recs);
    TabulateEntries(recs);
    TabulateWeekdays(recs);
    var days := KeysOf(recs, RecWeekday);
    forall i | 0 <= i < |days|
      ensures days[i] in t.weekdayDetailedQuality.vals
      ensures TotalTime(t.weekdayDetailedQuality.vals[days[i]]) == SumWhere(recs, RecWeekday, days[i], RecDuration)
    {
      assert days[i] in t.weekdayTime.keys;
    }
  }

  /** The error cases of the statistics over any well-formed tables, in
      the order the source meets them. */
  lemma {:induction false} SummariseCases(t: Tables)
    requires TablesValid(t)
    ensures var r := Summarise(t);
      var wk := t.weekTime.keys;
      var nonEmpty := wk != [] && t.dayTime.keys != [];
      && (r == Err(EmptyLog) <==> !nonEmpty)
      && (r == Err(SingleWeek) <==> nonEmpty && |wk| == 1)
      && (r == Err(ZeroWeekcount) <==>
            nonEmpty && |wk| >= 2 && WeekCount(t.weekTime) == 0 && t.weekdayDetailedTime.keys != [])
      && (nonEmpty && |wk| >= 2 && (WeekCount(t.weekTime) != 0 || t.weekdayDetailedTime.keys == []) ==>
            var q := AverageQualities(t.weekdayDetailedQuality.keys, t.weekdayDetailedQuality.vals);
            (r.Ok? <==> q.Ok?) && (q.Err? ==> r == Err(q.error)))
  {
    AverageQualitiesOutcome(t.weekdayDetailedQuality.keys, t.weekdayDetailedQuality.vals);
    if t.weekTime.keys != [] && t.dayTime.keys != [] && |t.weekTime.keys| >= 2 {
      AverageTimesMeaning(t.weekdayDetailedTime, WeekCount(t.weekTime));
    }
  }

  /** The keys of the tables the statistics look at, as `TabulateKeys`
      gives them. */
  predicate KeysFrom(t: Tables, recs: seq<Rec>) {
    && t.weekTime.keys == KeysOf(recs, RecWeek)
    && t.dayTime.keys == KeysOf(recs, RecDay)
    && t.weekdayDetailedTime.keys == KeysOf(recs, RecWeekday)
    && t.weekdayDetailedQuality.keys == KeysOf(recs, RecWeekday)
  }

  /** `SummariseEarlyErrors` over tables known only by their keys. */
  lemma {:induction false} EarlyErrorsFromKeys(t: Tables, recs: seq<Rec>)
    requires TablesValid(t) && KeysFrom(t, recs)
    requires (KeysOf(recs, RecWeek) == [] <==> recs == []) && (KeysOf(recs, RecDay) == [] <==> recs == [])
    requires KeysOf(recs, RecWeekday) == [] <==> recs == []
    ensures var r := Summarise(t);
      var weeks := KeysOf(recs, RecWeek);
      && (r == Err(EmptyLog) <==> recs == [])
      && (r == Err(SingleWeek) <==> |weeks| == 1)
      && (r == Err(ZeroWeekcount) <==> |weeks| >= 2 && weeks[|weeks| - 1] - weeks[0] + 1 == 0)
  {
    SummariseCases(t);
  }

  /** Which records make the statistics fail before the averages: no
      record at all (`max()` of an empty list), records of a single week
      (the mean of the weeks before the current one divides by zero), or a
      week count of zero. */
  lemma {:induction false} SummariseEarlyErrors(recs: seq<Rec>)
    ensures TablesValid(Tabulate(recs))
    ensures var r := Summarise(Tabulate(recs));
      var weeks := KeysOf(recs, RecWeek);
      && (r == Err(EmptyLog) <==> recs == [])
      && (r == Err(SingleWeek) <==> |weeks| == 1)
      && (r == Err(ZeroWeekcount) <==> |weeks| >= 2 && weeks[|weeks| - 1] - weeks[0] + 1 == 0)
  {
    TabulateKeys(recs);
    KeysOfFirst(recs, RecWeek);
    KeysOfFirst(recs, RecDay);
    KeysOfFirst(recs, RecWeekday);
    EarlyErrorsFromKeys(Tabulate(recs), recs);
  }

  /** The second phase's own success condition: tables that are not empty,
      at least two weeks, a usable week count and quality averages that
      succeed. */
  ghost predicate SummariseOkWhen(t: Tables)
    requires TablesValid(t)
  {
    && t.weekTime.keys != [] && t.dayTime.keys != [] && |t.weekTime.keys| >= 2
    && (WeekCount(t.weekTime) != 0 || t.weekdayDetailedTime.keys == [])
    && AverageQualities(t.weekdayDetailedQuality.keys, t.weekdayDetailedQuality.vals).Ok?
  }

  /** The second phase succeeds exactly under its success condition. */
  lemma {:induction false} SummariseOk(t: Tables)
    requires TablesValid(t)
    ensures Summarise(t).Ok? <==> SummariseOkWhen(t)
  {
    SummariseCases(t);
  }

  /** The success condition over tables whose weekday session lists have
      the totals `total`, and whose dictionaries are empty together. */
  lemma {:induction false} SucceedsFromKeys(t: Tables, total: int -> int)
    requires TablesValid(t)
    requires t.weekTime.keys != [] ==> t.dayTime.keys != [] && t.weekdayDetailedTime.keys != []
    requires var days := t.weekdayDetailedQuality.keys;
      forall i :: 0 <= i < |days| ==>
        days[i] in t.weekdayDetailedQuality.vals && TotalTime(t.weekdayDetailedQuality.vals[days[i]]) == total(days[i])
    ensures var wk := t.weekTime.keys;
      var days := t.weekdayDetailedQuality.keys;
      SummariseOkWhen(t) <==>
        && |wk| >= 2 && wk[|wk| - 1] - wk[0] + 1 != 0
        && forall i :: 0 <= i < |days| ==> total(days[i]) != 0
  {
    AverageQualitiesOutcome(t.weekdayDetailedQuality.keys, t.weekdayDetailedQuality.vals);
  }

  /** The statistics are computed exactly when there are at least two weeks,
      the week count is not zero and every weekday has a non-zero total. */
  lemma {:induction false} SummariseSucceeds(recs: seq<Rec>)
    ensures TablesValid(Tabulate(recs))
    ensures var weeks := KeysOf(recs, RecWeek);
      var days := KeysOf(recs, RecWeekday);
      Summarise(Tabulate(recs)).Ok? <==>
        && |weeks| >= 2 && weeks[|weeks| - 1] - weeks[0] + 1 != 0
        && forall i :: 0 <= i < |days| ==> SumWhere(recs, RecWeekday, days[i], RecDuration) != 0
  {
    var t := Tabulate(recs);
    var weeks := KeysOf(recs, RecWeek);
    var days := KeysOf(recs, RecWeekday);
    var total := k => SumWhere(recs, RecWeekday, k, RecDuration);
    TabulateKeys(recs);
    assert Summarise(t).Ok? <==> SummariseOkWhen(t) by {
      SummariseOk(t);
    }
    assert SummariseOkWhen(t) <==>
      && |weeks| >= 2 && weeks[|weeks| - 1] - weeks[0] + 1 != 0
      && forall i :: 0 <= i < |days| ==> total(days[i]) != 0
    by {
      WeekdayTotals(recs);
      KeysOfFirst(recs, RecWeek);
      KeysOfFirst(recs, RecDay);
      KeysOfFirst(recs, RecWeekday);
      SucceedsFromKeys(t, total);
    }
    assert (forall i :: 0 <= i < |days| ==> total(days[i]) != 0) <==>
      forall i :: 0 <= i < |days| ==> SumWhere(recs, RecWeekday, days[i], RecDuration) != 0;
  }

  /** When several weeks with a non-zero week count reach the quality
      averages, the error, if any, names the first weekday, in order of
      first appearance, whose durations add up to zero. */
  lemma {:induction false} SummariseWeekdayError(recs: seq<Rec>)
    ensures TablesValid(Tabulate(recs))
    ensures var r := Summarise(Tabulate(recs));
      var days := KeysOf(recs, RecWeekday);
      r.Err? && r.error.ZeroWeekdayDuration? ==>
        exists i :: 0 <= i < |days| && SumWhere(recs, RecWeekday, days[i], RecDuration) == 0
          && r.error == ZeroWeekdayDuration(days[i])
          && forall j :: 0 <= j < i ==> SumWhere(recs, RecWeekday, days[j], RecDuration) != 0
  {
    var t := Tabulate(recs);
    TabulateValid(recs);
    var r := Summarise(t);
    if r.Err? && r.error.ZeroWeekdayDuration? {
      WeekdayTotals(recs);
      var days := KeysOf(recs, RecWeekday);
      var q := AverageQualities(t.weekdayDetailedQuality.keys, t.weekdayDetailedQuality.vals);
      ZeroWeekdayFromQualities(t);
      assert q.Err? && r.error == q.error;
      AverageQualitiesOutcome(t.weekdayDetailedQuality.keys, t.weekdayDetailedQuality.vals);
      var i :| 0 <= i < |days| && TotalTime(t.weekdayDetailedQuality.vals[days[i]]) == 0
        && q.error == ZeroWeekdayDuration(days[i])
        && forall j :: 0 <= j < i ==> TotalTime(t.weekdayDetailedQuality.vals[days[j]]) != 0;
      assert SumWhere(recs, RecWeekday, days[i], RecDuration) == 0;
    }
  }

  /** A zero weekday duration can only come from the quality averages. */
  lemma {:induction false} ZeroWeekdayFromQualities(t: Tables)
    requires TablesValid(t)
    ensures Summarise(t).Err? && Summarise(t).error.ZeroWeekdayDuration? ==>
      AverageQualities(t.weekdayDetailedQuality.keys, t.weekdayDetailedQuality.vals) == Err(Summarise(t).error)
  {
  }

  /** The rounding is within one half of `x`, and even when it is exactly
      one half away. */
  lemma {:induction false} RoundMeaning(x: real)
    ensures x - 0.5 <= Round(x) as real <= x + 0.5
    ensures (Round(x) as real - x == 0.5 || x - Round(x) as real == 0.5) ==> Round(x) % 2 == 0
  {
  }

  /** The rounding is the only integer within one half of `x` that is even
      whenever it is exactly one half away. */
  lemma {:induction false} RoundUnique(x: real, n: int)
    requires x - 0.5 <= n as real <= x + 0.5
    requires (n as real - x == 0.5 || x - n as real == 0.5) ==> n % 2 == 0
    ensures Round(x) == n
  {
    var f := x.Floor;
    assert n == f || n == f + 1;
  }

  /** Ties go to the even neighbour, as in Python: 2.5 and 3.5 become 2 and
      4, and -0.5 becomes 0. */
  lemma {:induction false} RoundExamples()
    ensures Round(2.5) == 2 && Round(3.5) == 4 && Round(-0.5) == 0 && Round(2.4) == 2 && Round(2.6) == 3
  {
    RoundUnique(2.5, 2);
    RoundUnique(3.5, 4);
    RoundUnique(-0.5, 0);
    RoundUnique(2.4, 2);
    RoundUnique(2.6, 3);
  }

  /** Computed statistics are made of the parts `Summarise` computes one
      after the other. */
  lemma {:induction false} SummariseParts(t: Tables)
    requires TablesValid(t)
    ensures Summarise(t).Ok? ==>
      && StatsOf(t, Summarise(t).value.stats)
      && var s := Summarise(t).value;
         && AverageTimes(t.weekdayDetailedTime, WeekCount(t.weekTime)) == Ok(s.weekdayAvgTime)
         && AverageQualities(t.weekdayDetailedQuality.keys, t.weekdayDetailedQuality.vals) == Ok(s.weekdayAvgQuality)
  {
  }

  /** `st` holds the figures `Summarise` computes from the tables: the
      total, the longest week and day, the two mean weeks rounded, and the
      week count. */
  ghost predicate StatsOf(t: Tables, st: TimeStats)
    requires TablesValid(t)
  {
    && |t.weekTime.keys| >= 2 && t.dayTime.keys != []
    && var weeks := Values(t.weekTime);
       st == TimeStats(t.totalTime, MaxOf(weeks), MaxOf(Values(t.dayTime)),
                       Round(Mean(weeks)), Round(Mean(weeks[..|weeks| - 1])), WeekCount(t.weekTime))
  }

  /** The week statistics of the records: the week count runs from the
      first record's week to the last-inserted week, the mean week is the
      total over the number of weeks, and the mean without the current week
      leaves out the last-inserted week. */
  lemma {:induction false} WeekStats(recs: seq<Rec>)
    requires recs != []
    ensures Valid(TallyBy(recs, RecWeek, RecDuration)) && |TallyBy(recs, RecWeek, RecDuration).keys| > 0
    ensures var w := TallyBy(recs, RecWeek, RecDuration);
      var weeks := KeysOf(recs, RecWeek);
      && w.keys == weeks
      && WeekCount(w) == weeks[|weeks| - 1] - RecWeek(recs[0]) + 1
      && Mean(Values(w)) == SumAll(recs, RecDuration) as real / |weeks| as real
  {
    TallyByMeaning(recs, RecWeek, RecDuration);
    KeysOfFirst(recs, RecWeek);
    TallyBySum(recs, RecWeek, RecDuration);
  }

  /** The mean week leaving out the current one: the total less the
      last-inserted week's time, over one week fewer. */
  lemma {:induction false} WeekMeanWithoutCurrent(recs: seq<Rec>)
    requires |KeysOf(recs, RecWeek)| >= 2
    ensures Valid(TallyBy(recs, RecWeek, RecDuration)) && |TallyBy(recs, RecWeek, RecDuration).keys| >= 2
    ensures var vs := Values(TallyBy(recs, RecWeek, RecDuration));
      var weeks := KeysOf(recs, RecWeek);
      Mean(vs[..|vs| - 1]) ==
        (SumAll(recs, RecDuration) - SumWhere(recs, RecWeek, weeks[|weeks| - 1], RecDuration)) as real
          / (|weeks| - 1) as real
  {
    var w := TallyBy(recs, RecWeek, RecDuration);
    var weeks := KeysOf(recs, RecWeek);
    var rest := SumAll(recs, RecDuration) - SumWhere(recs, RecWeek, weeks[|weeks| - 1], RecDuration);
    assert Valid(w) && |Values(w)| == |weeks| && Sum(Values(w)[..|weeks| - 1]) == rest
    by { TallyAllButLast(recs, RecWeek, RecDuration); }
    MeanAllButLast(w, |weeks|, rest);
  }

  lemma {:induction false} MeanAllButLast(w: ODict<int, int>, n: int, rest: int)
    requires Valid(w) && |Values(w)| == n >= 2 && Sum(Values(w)[..n - 1]) == rest
    ensures var vs := Values(w); Mean(vs[..|vs| - 1]) == rest as real / (n - 1) as real
  {
  }

  /** `st` holds the statistics of the records: the total time; the week
      count, from the first record's week to the last-inserted week; the
      longest week and the longest day, each the largest group total; the
      mean time per week; and the mean per week leaving out the
      last-inserted week, each rounded as `round()` does. */
  ghost predicate StatsOfRecs(st: TimeStats, recs: seq<Rec>) {
    var weeks := KeysOf(recs, RecWeek);
    && |recs| > 0 && |weeks| >= 2
    && st.totalTime == SumAll(recs, RecDuration)
    && st.totalWeekcount == weeks[|weeks| - 1] - RecWeek(recs[0]) + 1
    && (forall i :: 0 <= i < |recs| ==> SumWhere(recs, RecWeek, RecWeek(recs[i]), RecDuration) <= st.longestWeekTime)
    && (exists i :: 0 <= i < |recs| && SumWhere(recs, RecWeek, RecWeek(recs[i]), RecDuration) == st.longestWeekTime)
    && (forall i :: 0 <= i < |recs| ==> SumWhere(recs, RecDay, RecDay(recs[i]), RecDuration) <= st.longestDayTime)
    && (exists i :: 0 <= i < |recs| && SumWhere(recs, RecDay, RecDay(recs[i]), RecDuration) == st.longestDayTime)
    && st.averageWeekTime == Round(SumAll(recs, RecDuration) as real / |weeks| as real)
    && st.averageWeekTimeWithoutCurrent ==
         Round((SumAll(recs, RecDuration) - SumWhere(recs, RecWeek, weeks[|weeks| - 1], RecDuration)) as real
               / (|weeks| - 1) as real)
  }

  /** The statistics of a log are those of its records. */
  lemma {:induction false} SummariseStats(recs: seq<Rec>)
    ensures TablesValid(Tabulate(recs))
    ensures Summarise(Tabulate(recs)).Ok? ==> StatsOfRecs(Summarise(Tabulate(recs)).value.stats, recs)
  {
    var t := Tabulate(recs);
    TabulateValid(recs);
    if Summarise(t).Ok? {
      SummariseParts(t);
      StatsFromTallies(recs, Summarise(t).value.stats);
    }
  }

  /** The statistics `Summarise` computes, stated over the tallies of the
      records rather than over the tables. */
  lemma {:induction false} StatsFromTallies(recs: seq<Rec>, st: TimeStats)
    requires TablesValid(Tabulate(recs)) && StatsOf(Tabulate(recs), st)
    ensures StatsOfRecs(st, recs)
  {
    TabulateKeys(recs);
    KeysOfFirst(recs, RecWeek);
    assert recs != [];
    WeekStats(recs);
    WeekMeanWithoutCurrent(recs);
    assert && (forall i :: 0 <= i < |recs| ==> SumWhere(recs, RecWeek, RecWeek(recs[i]), RecDuration) <= st.longestWeekTime)
           && (exists i :: 0 <= i < |recs| && SumWhere(recs, RecWeek, RecWeek(recs[i]), RecDuration) == st.longestWeekTime)
    by { TallyMax(recs, RecWeek, RecDuration); }
    assert && (forall i :: 0 <= i < |recs| ==> SumWhere(recs, RecDay, RecDay(recs[i]), RecDuration) <= st.longestDayTime)
           && (exists i :: 0 <= i < |recs| && SumWhere(recs, RecDay, RecDay(recs[i]), RecDuration) == st.longestDayTime)
    by { TallyMax(recs, RecDay, RecDuration); }
  }

  /** `a` lists the weekdays of the records in order of first appearance,
      each with an average that, times the week count, is its summed
      durations. */
  ghost predicate AveragesTimes(a: ODict<int, real>, wc: int, recs: seq<Rec>) {
    && Valid(a) && a.keys == KeysOf(recs, RecWeekday)
    && forall k :: k in a.vals ==>
         a.vals[k] * wc as real == SumWhere(recs, RecWeekday, k, RecDuration) as real
  }

  /** Averaging a dictionary whose entries sum to the per-key durations of
      the records gives those sums divided by the week count. */
  lemma {:induction false} AverageTimesFrom(d: ODict<int, seq<int>>, wc: int, recs: seq<Rec>)
    requires Valid(d) && d.keys == KeysOf(recs, RecWeekday)
    requires forall k :: k in d.vals ==> Sum(d.vals[k]) == SumWhere(recs, RecWeekday, k, RecDuration)
    ensures AverageTimes(d, wc).Ok? ==> AveragesTimes(AverageTimes(d, wc).value, wc, recs)
  {
    AverageTimesMeaning(d, wc);
  }

  /** The per-weekday duration lists sum to the per-weekday durations. */
  lemma {:induction false} WeekdayDetailedSums(recs: seq<Rec>)
    ensures Valid(GroupBy(recs, RecWeekday, RecDuration))
    ensures GroupBy(recs, RecWeekday, RecDuration).keys == KeysOf(recs, RecWeekday)
    ensures forall k :: k in GroupBy(recs, RecWeekday, RecDuration).vals ==>
      Sum(GroupBy(recs, RecWeekday, RecDuration).vals[k]) == SumWhere(recs, RecWeekday, k, RecDuration)
  {
    var d := GroupBy(recs, RecWeekday, RecDuration);
    FillValid(recs, RecWeekday, RecDuration, RecDuration);
    GroupByMeaning(recs, RecWeekday, RecDuration);
    forall k | k in d.vals
      ensures Sum(d.vals[k]) == SumWhere(recs, RecWeekday, k, RecDuration)
    {
      SumSelect(recs, RecWeekday, k, RecDuration);
    }
  }

  /** The weekday time averages of the records: every weekday, in order of
      first appearance, whose average times the week count is its summed
      durations. */
  lemma {:induction false} WeekdayAverageTimes(recs: seq<Rec>, wc: int)
    ensures Valid(GroupBy(recs, RecWeekday, RecDuration))
    ensures var a := AverageTimes(GroupBy(recs, RecWeekday, RecDuration), wc);
      a.Ok? ==> AveragesTimes(a.value, wc, recs)
  {
    WeekdayDetailedSums(recs);
    AverageTimesFrom(GroupBy(recs, RecWeekday, RecDuration), wc, recs);
  }

  /** `a` lists the weekdays of the records in order of first appearance,
      each with a nonzero summed duration and, as its value, the
      duration-weighted mean of its qualities. */
  ghost predicate AveragesQualities(a: ODict<int, real>, recs: seq<Rec>) {
    && Valid(a) && a.keys == KeysOf(recs, RecWeekday)
    && forall k :: k in a.vals ==>
         && SumWhere(recs, RecWeekday, k, RecDuration) != 0
         && a.vals[k] ==
              SumWhere(recs, RecWeekday, k, RecWeighted) as real / SumWhere(recs, RecWeekday, k, RecDuration) as real
  }

  /** The weekday quality averages of the records: every weekday, in order
      of first appearance, with its duration-weighted quality. */
  lemma {:induction false} WeekdayAverageQualities(recs: seq<Rec>)
    ensures Valid(GroupBy(recs, RecWeekday, RecSession))
    ensures var dq := GroupBy(recs, RecWeekday, RecSession);
      var a := AverageQualities(dq.keys, dq.vals);
      a.Ok? ==> AveragesQualities(a.value, recs)
  {
    var dq := GroupBy(recs, RecWeekday, RecSession);
    FillValid(recs, RecWeekday, RecDuration, RecSession);
    GroupByMeaning(recs, RecWeekday, RecSession);
    var a := AverageQualities(dq.keys, dq.vals);
    if a.Ok? {
      AverageQualitiesValues(dq.keys, dq.vals);
      forall k | k in a.value.vals
        ensures SumWhere(recs, RecWeekday, k, RecDuration) != 0
        ensures a.value.vals[k] ==
          SumWhere(recs, RecWeekday, k, RecWeighted) as real / SumWhere(recs, RecWeekday, k, RecDuration) as real
      {
        SessionSums(recs, k);
      }
    }
  }

  /** The weekday averages of a log: every weekday, in order of first
      appearance, with its summed durations divided by the week count, and
      with its duration-weighted quality. */
  lemma {:induction false} SummariseAverages(recs: seq<Rec>)
    ensures TablesValid(Tabulate(recs))
    ensures Summarise(Tabulate(recs)).Ok? ==>
      var s := Summarise(Tabulate(recs)).value;
      && AveragesTimes(s.weekdayAvgTime, s.stats.totalWeekcount, recs)
      && AveragesQualities(s.weekdayAvgQuality, recs)
  {
    var t := Tabulate(recs);
    TabulateValid(recs);
    if Summarise(t).Ok? {
      SummariseParts(t);
      WeekdayAverageTimes(recs, WeekCount(t.weekTime));
      WeekdayAverageQualities(recs);
    }
  }

  /** A log spanning a new year: a session on Monday of ISO week 52 and one
      on Monday of ISO week 2 give a week count of 2 - 52 + 1 = -49, which the
      source then divides by. */
  lemma {:induction false} WeekCountAcrossNewYear()
    ensures var recs := [Rec("20181224", 52, 1, "math", 60, 5), Rec("20190107", 2, 1, "math", 30, 5)];
      && TablesValid(Tabulate(recs))
      && Summarise(Tabulate(recs)).Ok?
      && Summarise(Tabulate(recs)).value.stats.totalWeekcount == -49
  {
    var recs := [Rec("20181224", 52, 1, "math", 60, 5), Rec("20190107", 2, 1, "math", 30, 5)];
    assert recs[..1] == [recs[0]];
    assert KeysOf(recs, RecWeek) == [52, 2];
    assert KeysOf(recs, RecWeekday) == [1];
    assert SumWhere(recs, RecWeekday, 1, RecDuration) == 90;
    SummariseSucceeds(recs);
    SummariseStats(recs);
  }

  /** The decimal values of the fields of the two rows below. */
  lemma {:induction false} NewYearFieldValues()
    ensures DigitsValue("2018") == 2018 && DigitsValue("2019") == 2019
    ensures DigitsValue("12") == 12 && DigitsValue("24") == 24
    ensures DigitsValue("01") == 1 && DigitsValue("07") == 7
    ensures DigitsValue("9") == 9 && DigitsValue("10") == 10
    ensures DigitsValue("00") == 0 && DigitsValue("30") == 30 && DigitsValue("5") == 5
  {
    assert "2018"[..3] == "201" && "2019"[..3] == "201" && "201"[..2] == "20" && "20"[..1] == "2";
    assert "12"[..1] == "1" && "24"[..1] == "2" && "01"[..1] == "0" && "07"[..1] == "0";
    assert "10"[..1] == "1" && "00"[..1] == "0" && "30"[..1] == "3";
    assert "1"[..0] == "" && "2"[..0] == "" && "0"[..0] == "" && "3"[..0] == "";
    assert "9"[..0] == "" && "5"[..0] == "";
  }

  /** A row whose fields all convert and whose date exists decodes to the
      record of those values. */
  lemma {:induction false} DecodeRowFromFields(idx: nat, row: Row, y: int, m: int, d: int,
                                               h1: int, m1: int, h2: int, m2: int, q: int)
    requires IntField(idx, 0, row.year) == Ok(y) && IntField(idx, 1, row.month) == Ok(m)
    requires IntField(idx, 2, row.day) == Ok(d) && ValidDate(y, m, d)
    requires IntField(idx, 3, row.startHour) == Ok(h1) && IntField(idx, 4, row.startMinute) == Ok(m1)
    requires IntField(idx, 5, row.endHour) == Ok(h2) && IntField(idx, 6, row.endMinute) == Ok(m2)
    requires IntField(idx, 7, row.quality) == Ok(q)
    ensures DecodeRow(idx, row) == Ok(Rec(row.year + row.month + row.day, IsoCalendar(y, m, d).week,
      IsoCalendar(y, m, d).weekday, row.subject, Minutes(h2, m2) - Minutes(h1, m1), q))
  { }

  /** The row of 24 December 2018, 9:00 to 10:00, decodes to a one-hour
      session on Monday of ISO week 52. */
  lemma {:induction false} DecodeFirstNewYearRow()
    ensures DecodeRow(0, LogParser.Row("2018", "12", "24", "9", "00", "10", "00", "5", "math"))
      == Ok(Rec("20181224", 52, 1, "math", 60, 5))
  {
    var row := LogParser.Row("2018", "12", "24", "9", "00", "10", "00", "5", "math");
    assert row.year + row.month + row.day == "20181224";
    assert IntField(0, 0, "2018") == Ok(2018) && IntField(0, 1, "12") == Ok(12)
      && IntField(0, 2, "24") == Ok(24) && IntField(0, 3, "9") == Ok(9)
      && IntField(0, 4, "00") == Ok(0) && IntField(0, 5, "10") == Ok(10)
      && IntField(0, 6, "00") == Ok(0) && IntField(0, 7, "5") == Ok(5)
    by {
      NewYearFieldValues();
    }
    assert ValidDate(2018, 12, 24);
    IsoCalendarExampleWeek52();
    DecodeRowFromFields(0, row, 2018, 12, 24, 9, 0, 10, 0, 5);
  }

  /** The row of 7 January 2019, 9:00 to 9:30, decodes to a half-hour
      session on Monday of ISO week 2. */
  lemma {:induction false} DecodeSecondNewYearRow()
    ensures DecodeRow(1, LogParser.Row("2019", "01", "07", "9", "00", "9", "30", "5", "math"))
      == Ok(Rec("20190107", 2, 1, "math", 30, 5))
  {
    var row := LogParser.Row("2019", "01", "07", "9", "00", "9", "30", "5", "math");
    assert row.year + row.month + row.day == "20190107";
    assert IntField(1, 0, "2019") == Ok(2019) && IntField(1, 1, "01") == Ok(1)
      && IntField(1, 2, "07") == Ok(7) && IntField(1, 3, "9") == Ok(9)
      && IntField(1, 4, "00") == Ok(0) && IntField(1, 5, "9") == Ok(9)
      && IntField(1, 6, "30") == Ok(30) && IntField(1, 7, "5") == Ok(5)
    by {
      NewYearFieldValues();
    }
    assert ValidDate(2019, 1, 7);
    IsoCalendarExampleWeek2();
    DecodeRowFromFields(1, row, 2019, 1, 7, 9, 0, 9, 30, 5);
  }

  /** Two rows that decode one by one decode together, in order. */
  lemma {:induction false} DecodeTwoRows(r0: Row, r1: Row, a: Rec, b: Rec)
    requires DecodeRow(0, r0) == Ok(a) && DecodeRow(1, r1) == Ok(b)
    ensures DecodeRows([r0, r1]) == Ok([a, b])
  {
    var rows := [r0, r1];
    DecodeEachMeaning(rows, DecodeRow);
    assert DecodeRow(0, rows[0]).Ok? && DecodeRow(1, rows[1]).Ok?;
    var ys := DecodeRows(rows).value;
    assert ys[0] == a && ys[1] == b;
    assert ys == [a, b];
  }

  /** The rows of 24 December 2018 and 7 January 2019 decode, in order, to
      the two sessions of `WeekCountAcrossNewYear`. */
  lemma {:induction false} DecodeNewYearRows()
    ensures DecodeRows([LogParser.Row("2018", "12", "24", "9", "00", "10", "00", "5", "math"),
                        LogParser.Row("2019", "01", "07", "9", "00", "9", "30", "5", "math")])
      == Ok([Rec("20181224", 52, 1, "math", 60, 5), Rec("20190107", 2, 1, "math", 30, 5)])
  {
    DecodeFirstNewYearRow();
    DecodeSecondNewYearRow();
    DecodeTwoRows(LogParser.Row("2018", "12", "24", "9", "00", "10", "00", "5", "math"),
                  LogParser.Row("2019", "01", "07", "9", "00", "9", "30", "5", "math"),
                  Rec("20181224", 52, 1, "math", 60, 5), Rec("20190107", 2, 1, "math", 30, 5));
  }

  /** The same log as the first pass writes it: `get_time_sets` succeeds on
      the rows of 24 December 2018 and 7 January 2019 with a week count of -49. */
  lemma {:induction false} WrittenRowsAcrossNewYear()
    ensures var rows := [LogParser.Row("2018", "12", "24", "9", "00", "10", "00", "5", "math"),
                         LogParser.Row("2019", "01", "07", "9", "00", "9", "30", "5", "math")];
      && TimeSetsOf(rows).Ok?
      && TimeSetsOf(rows).value.stats.totalWeekcount == -49
  {
    var rows := [LogParser.Row("2018", "12", "24", "9", "00", "10", "00", "5", "math"),
                 LogParser.Row("2019", "01", "07", "9", "00", "9", "30", "5", "math")];
    var recs := [Rec("20181224", 52, 1, "math", 60, 5), Rec("20190107", 2, 1, "math", 30, 5)];
    assert TablesOf(rows) == Ok(Tabulate(recs)) by {
      DecodeNewYearRows();
    }
    WeekCountAcrossNewYear();
  }
}
