/**
 * The first pass of the tool, `parse_raw_to_csv`: it reads the raw time log
 * line by line, keeps the date of the most recent date header as its only
 * state, and turns every session entry into one nine-field row
 * `[YYYY, MM, DD, h1, m1, h2, m2, q, subject]`.  Unreadable lines are
 * reported with their 1-based number and skipped; a session entry before the
 * first date header aborts the run.
 *
 * The rows are handed on in memory; the CSV file they are written to is not
 * part of this model.
 */
module LogParser {
  import opened Wrappers
  import opened Text
  import opened Patterns

  /** A date header's groups, reordered to year, month, day. */
  datatype Day = Day(year: string, month: string, day: string)

  /** One row of the intermediate table, every field as text. */
  datatype Row = Row(
    year: string, month: string, day: string,
    startHour: string, startMinute: string,
    endHour: string, endMinute: string,
    quality: string, subject: string)

  /** The four kinds of line, recognised in this order. */
  datatype LineKind =
    | Blank
    | DateLine(day: Day)
    | SessionLine(groups: TimeGroups)
    | Unrecognised

  /** "Could not parse line n: text", with n counted from 1. */
  datatype Warning = Warning(lineNo: nat, text: string)

  /** "Time data found before the first date line!", raised after the
      warnings printed so far, which it keeps. */
  datatype ParseError = TimeBeforeFirstDate(warnings: seq<Warning>)

  datatype ParseState = ParseState(currentDay: Option<Day>, rows: seq<Row>, warnings: seq<Warning>)

  /** Sorts a line into its kind, testing in the order of the source. */
  function Classify(line: string): LineKind {
    if Strip(line) == "" then Blank
    else match MatchDate(line)
      case Some((_, g)) => DateLine(Day(g.year, g.month, g.day))
      case None =>
        match MatchTime(line)
        case Some((_, g)) => SessionLine(g)
        case None => Unrecognised
  }

  /** What the kinds mean: a line is blank when it is whitespace only; else
      it is a date header whenever the date pattern occurs anywhere in it (even
      if it holds a session entry too), and the day comes from the leftmost
      date; else it is a session entry when the session pattern occurs, with
      the groups of the leftmost match; else it is unrecognised. */
  lemma {:induction false} ClassifyMeaning(line: string)
    ensures Classify(line).Blank? <==> AllSpace(line)
    ensures Classify(line).DateLine? <==> !AllSpace(line) && exists i, g :: DateMatch(line, i, g)
    ensures Classify(line).DateLine? ==>
      exists i, g :: LeftmostDate(line, i, g) && Classify(line).day == Day(g.year, g.month, g.day)
    ensures Classify(line).SessionLine? <==>
      && !AllSpace(line)
      && (forall i, g :: !DateMatch(line, i, g))
      && exists i, g :: TimeMatch(line, i, g)
    ensures Classify(line).SessionLine? ==> exists i :: LeftmostTime(line, i, Classify(line).groups)
    ensures Classify(line).Unrecognised? <==>
      && !AllSpace(line)
      && (forall i, g :: !DateMatch(line, i, g))
      && (forall i, g :: !TimeMatch(line, i, g))
  {
    StripEmptyIffAllSpace(line);
    MatchDateLeftmost(line);
    MatchTimeLeftmost(line);
  }

  /** `current_day + result`, with `result[4]` (the quality) stripped. */
  function MakeRow(d: Day, g: TimeGroups): Row {
    Row(d.year, d.month, d.day, g.startHour, g.startMinute, g.endHour, g.endMinute,
        Strip(g.quality), g.subject)
  }

  /** The effect of line number `idx` (counted from 0) on the parse state. */
  function Step(st: ParseState, idx: nat, line: string): Result<ParseState, ParseError> {
    match Classify(line)
    case Blank => Ok(st)
    case DateLine(d) => Ok(st.(currentDay := Some(d)))
    case SessionLine(g) =>
      if st.currentDay.None? then Err(TimeBeforeFirstDate(st.warnings))
      else Ok(st.(rows := st.rows + [MakeRow(st.currentDay.value, g)]))
    case Unrecognised => Ok(st.(warnings := st.warnings + [Warning(idx + 1, line)]))
  }

  /** The whole pass over a log, line after line. */
  function ParseLines(lines: seq<string>): Result<ParseState, ParseError>
    decreases |lines|
  {
    if lines == [] then Ok(ParseState(None, [], []))
    else
      match ParseLines(lines[..|lines| - 1])
      case Err(e) => Err(e)
      case Ok(st) => Step(st, |lines| - 1, lines[|lines| - 1])
  }

  /** The parser object of `parse_raw_to_csv`: the current day and what has
      been written so far. */
  class RawLogParser {
    var currentDay: Option<Day>
    var rows: seq<Row>
    var warnings: seq<Warning>

    constructor ()
      ensures currentDay == None && rows == [] && warnings == []
    {
      currentDay := None;
      rows := [];
      warnings := [];
    }

    function State(): ParseState
      reads this
    {
      ParseState(currentDay, rows, warnings)
    }

    /** Processes line number `idx` (counted from 0); `ok` is false when the
        line aborts the run. */
    method ProcessLine(idx: nat, line: string) returns (ok: bool)
      modifies this
      ensures ok <==> Step(old(State()), idx, line).Ok?
      ensures ok ==> Step(old(State()), idx, line) == Ok(State())
      ensures !ok ==> Step(old(State()), idx, line) == Err(TimeBeforeFirstDate(warnings))
      ensures !ok ==> State() == old(State())
      ensures Classify(line).Blank? ==>
        ok && currentDay == old(currentDay) && rows == old(rows) && warnings == old(warnings)
      ensures Classify(line).DateLine? ==>
        && ok && currentDay == Some(Classify(line).day)
        && rows == old(rows) && warnings == old(warnings)
      ensures Classify(line).SessionLine? ==>
        && (ok <==> old(currentDay).Some?)
        && (ok ==> && currentDay == old(currentDay) && warnings == old(warnings)
                   && rows == old(rows) + [MakeRow(old(currentDay).value, Classify(line).groups)])
      ensures Classify(line).Unrecognised? ==>
        && ok && currentDay == old(currentDay) && rows == old(rows)
        && warnings == old(warnings) + [Warning(idx + 1, line)]
    {
      ok := true;
      if Strip(line) == "" {
        return;
      }
      var date := MatchDate(line);
      if date.Some? {
        var g := date.value.1;
        currentDay := Some(Day(g.year, g.month, g.day));
        return;
      }
      var time := MatchTime(line);
      if time.Some? {
        if currentDay.None? {
          ok := false;
          return;
        }
        rows := rows + [MakeRow(currentDay.value, time.value.1)];
        return;
      }
      warnings := warnings + [Warning(idx + 1, line)];
    }
  }

  /** Once the pass has aborted on a prefix it stays aborted. */
  lemma {:induction false} AbortIsFinal(lines: seq<string>, n: nat)
    requires n <= |lines| && ParseLines(lines[..n]).Err?
    ensures ParseLines(lines) == ParseLines(lines[..n])
    decreases |lines| - n
  {
    if n < |lines| {
      assert lines[..n + 1][..n] == lines[..n];
      AbortIsFinal(lines, n + 1);
    } else {
      assert lines[..n] == lines;
    }
  }

  /** One more line extends the pass by one step. */
  lemma {:induction false} ParseLinesExtend(lines: seq<string>, n: nat, st: ParseState)
    requires n < |lines| && ParseLines(lines[..n]) == Ok(st)
    ensures ParseLines(lines[..n + 1]) == Step(st, n, lines[n])
  {
    assert lines[..n + 1][..n] == lines[..n];
  }

  /** `parse_raw_to_csv` over the lines of a log. */
  method ParseRawLog(lines: seq<string>) returns (r: Result<ParseState, ParseError>)
    ensures r == ParseLines(lines)
  {
    var parser := new RawLogParser();
    var idx := 0;
    while idx < |lines|
      invariant 0 <= idx <= |lines|
      invariant ParseLines(lines[..idx]) == Ok(parser.State())
    {
      ParseLinesExtend(lines, idx, parser.State());
      var ok := parser.ProcessLine(idx, lines[idx]);
      if !ok {
        AbortIsFinal(lines, idx + 1);
        return Err(TimeBeforeFirstDate(parser.warnings));
      }
      idx := idx + 1;
    }
    assert lines[..idx] == lines;
    r := Ok(parser.State());
  }

  // ---------------------------------------------------------------------------
  // What the pass computes, line by line
  // ---------------------------------------------------------------------------

  /** The kind of every line, in order. */
  function Kinds(lines: seq<string>): (ks: seq<LineKind>)
    ensures |ks| == |lines|
    decreases |lines|
  {
    if lines == [] then [] else Kinds(lines[..|lines| - 1]) + [Classify(lines[|lines| - 1])]
  }

  lemma {:induction false} KindsAt(lines: seq<string>, k: int)
    requires 0 <= k < |lines|
    ensures Kinds(lines)[k] == Classify(lines[k])
    decreases |lines|
  {
    var n := |lines| - 1;
    if k < n {
      KindsAt(lines[..n], k);
    }
  }

  /** The day of the last date header among the kinds, if there is one. */
  function LastDay(ks: seq<LineKind>): Option<Day>
    decreases |ks|
  {
    if ks == [] then None
    else match ks[|ks| - 1]
      case DateLine(d) => Some(d)
      case _ => LastDay(ks[..|ks| - 1])
  }

  /** `LastDay` is unset exactly when no line is a date header. */
  lemma {:induction false} LastDayNone(ks: seq<LineKind>)
    ensures LastDay(ks).None? <==> forall k :: 0 <= k < |ks| ==> !ks[k].DateLine?
    decreases |ks|
  {
    if ks != [] {
      var n := |ks| - 1;
      var prefix := ks[..n];
      assert forall k :: 0 <= k < n ==> prefix[k] == ks[k];
      if !ks[n].DateLine? {
        assert LastDay(ks) == LastDay(prefix);
        LastDayNone(prefix);
      }
    }
  }

  /** A set `LastDay` is the day of a date header that no later date header
      follows. */
  lemma {:induction false} LastDaySome(ks: seq<LineKind>)
    ensures LastDay(ks).Some? ==>
      exists k :: && 0 <= k < |ks| && ks[k] == DateLine(LastDay(ks).value)
                  && forall j :: k < j < |ks| ==> !ks[j].DateLine?
    decreases |ks|
  {
    if ks != [] {
      var n := |ks| - 1;
      var prefix := ks[..n];
      if ks[n].DateLine? {
        assert ks[n] == DateLine(LastDay(ks).value);
      } else if LastDay(prefix).Some? {
        assert LastDay(ks) == LastDay(prefix);
        LastDaySome(prefix);
        var k :| && 0 <= k < n && prefix[k] == DateLine(LastDay(prefix).value)
                 && forall j :: k < j < n ==> !prefix[j].DateLine?;
        assert forall j :: k < j < n ==> prefix[j] == ks[j];
        assert ks[k] == DateLine(LastDay(ks).value);
      }
    }
  }

  /** `LastDay` is unset exactly when no line is a date header, and otherwise
      it is the day of a date header that no later date header follows. */
  lemma {:induction false} LastDayMeaning(ks: seq<LineKind>)
    ensures LastDay(ks).None? <==> forall k :: 0 <= k < |ks| ==> !ks[k].DateLine?
    ensures LastDay(ks).Some? ==>
      exists k :: && 0 <= k < |ks| && ks[k] == DateLine(LastDay(ks).value)
                  && forall j :: k < j < |ks| ==> !ks[j].DateLine?
  {
    LastDayNone(ks);
    LastDaySome(ks);
  }



  /** Line `k` is a session entry with no date header above it. */
  ghost predicate Orphan(ks: seq<LineKind>, k: int) {
    && 0 <= k < |ks| && ks[k].SessionLine?
    && forall j :: 0 <= j < k ==> !ks[j].DateLine?
  }

  /** The rows the log describes: one per session entry, in input order, each
      dated by the nearest date header above it. */
  function RowsOf(ks: seq<LineKind>): seq<Row>
    decreases |ks|
  {
    if ks == [] then []
    else
      var prefix := ks[..|ks| - 1];
      var own := match (ks[|ks| - 1], LastDay(prefix))
        case (SessionLine(g), Some(d)) => [MakeRow(d, g)]
        case _ => [];
      RowsOf(prefix) + own
  }

  /** The warnings the log causes: one per unrecognised line, in input order,
      with its 1-based number and its text. */
  function WarningsOf(lines: seq<string>): seq<Warning>
    decreases |lines|
  {
    if lines == [] then []
    else
      var prefix := lines[..|lines| - 1];
      var own := if Classify(lines[|lines| - 1]).Unrecognised? then [Warning(|lines|, lines[|lines| - 1])] else [];
      WarningsOf(prefix) + own
  }

  /** The kinds, last day, rows and warnings of a log with one more line. */
  lemma {:induction false} SpecSnoc(lines: seq<string>)
    requires lines != []
    ensures var n := |lines| - 1;
      var c := Classify(lines[n]);
      var ks := Kinds(lines[..n]);
      && Kinds(lines) == ks + [c]
      && LastDay(Kinds(lines)) == (if c.DateLine? then Some(c.day) else LastDay(ks))
      && RowsOf(Kinds(lines)) == RowsOf(ks) +
           (if c.SessionLine? && LastDay(ks).Some? then [MakeRow(LastDay(ks).value, c.groups)] else [])
      && WarningsOf(lines) == WarningsOf(lines[..n]) +
           (if c.Unrecognised? then [Warning(n + 1, lines[n])] else [])
  {
    var n := |lines| - 1;
    var all := Kinds(lines);
    assert all[..n] == Kinds(lines[..n]);
  }

  /** An orphan of the kinds with one more line is an orphan of the shorter
      kinds, or the new line when it is a session entry and no date header
      comes before it. */
  lemma {:induction false} OrphanSnoc(ks: seq<LineKind>, c: LineKind)
    ensures (exists k :: Orphan(ks + [c], k)) <==>
      (exists k :: Orphan(ks, k)) || (c.SessionLine? && forall j :: 0 <= j < |ks| ==> !ks[j].DateLine?)
  {
    var all := ks + [c];
    assert forall j :: 0 <= j < |ks| ==> all[j] == ks[j];
    if exists k :: Orphan(ks, k) {
      var k :| Orphan(ks, k);
      assert Orphan(all, k);
    }
    if c.SessionLine? && forall j :: 0 <= j < |ks| ==> !ks[j].DateLine? {
      assert Orphan(all, |ks|);
    }
    if exists k :: Orphan(all, k) {
      var k :| Orphan(all, k);
      if k < |ks| {
        assert Orphan(ks, k);
      }
    }
  }

  /** The pass aborts exactly when some session entry has no date header
      above it; otherwise it ends with the day of the last date header, the
      rows of all session entries in order, and a warning for every
      unrecognised line.  Blank lines contribute nothing. */
  lemma {:induction false} ParseLinesMeaning(lines: seq<string>)
    ensures ParseLines(lines).Err? <==> exists k :: Orphan(Kinds(lines), k)
    ensures ParseLines(lines).Ok? ==>
      ParseLines(lines).value == ParseState(LastDay(Kinds(lines)), RowsOf(Kinds(lines)), WarningsOf(lines))
    decreases |lines|
  {
    if lines != [] {
      var n := |lines| - 1;
      var c := Classify(lines[n]);
      var ks := Kinds(lines[..n]);
      SpecSnoc(lines);
      OrphanSnoc(ks, c);
      ParseLinesMeaning(lines[..n]);
      LastDayMeaning(ks);
      assert lines[..|lines| - 1] == lines[..n];
      if ParseLines(lines[..n]).Ok? {
        var st := ParseLines(lines[..n]).value;
        assert ParseLines(lines) == Step(st, n, lines[n]);
      }
    }
  }


  /** Line `k` is the first session entry with no date header above it. */
  ghost predicate FirstOrphan(ks: seq<LineKind>, k: int) {
    Orphan(ks, k) && forall j :: 0 <= j < k ==> !Orphan(ks, j)
  }

  /** Where there is an orphan session entry there is a first one. */
  lemma {:induction false} FirstOrphanExists(ks: seq<LineKind>, k: int)
    requires Orphan(ks, k)
    ensures exists m :: FirstOrphan(ks, m)
    decreases k
  {
    if !FirstOrphan(ks, k) {
      var j :| 0 <= j < k && Orphan(ks, j);
      FirstOrphanExists(ks, j);
    }
  }

  /** The kinds of a prefix of the lines are a prefix of their kinds. */
  lemma {:induction false} KindsPrefix(lines: seq<string>, n: nat)
    requires n <= |lines|
    ensures Kinds(lines[..n]) == Kinds(lines)[..n]
  {
    forall j | 0 <= j < n
      ensures Kinds(lines[..n])[j] == Kinds(lines)[j]
    {
      KindsAt(lines[..n], j);
      KindsAt(lines, j);
    }
  }

  /** An abort carries exactly the warnings already printed: those of the
      unrecognised lines above the first session entry without a date. */
  lemma {:induction false} ParseLinesAbortMeaning(lines: seq<string>)
    ensures ParseLines(lines).Err? ==>
      exists k :: && FirstOrphan(Kinds(lines), k)
                  && ParseLines(lines).error == TimeBeforeFirstDate(WarningsOf(lines[..k]))
  {
    if ParseLines(lines).Err? {
      var ks := Kinds(lines);
      ParseLinesMeaning(lines);
      var k0 :| Orphan(ks, k0);
      FirstOrphanExists(ks, k0);
      var k :| FirstOrphan(ks, k);
      var pre := Kinds(lines[..k]);
      KindsPrefix(lines, k);
      assert forall j :: 0 <= j < k ==> pre[j] == ks[j];
      forall j
        ensures !Orphan(pre, j)
      {
        if Orphan(pre, j) {
          assert Orphan(ks, j);
        }
      }
      ParseLinesMeaning(lines[..k]);
      var st := ParseLines(lines[..k]).value;
      assert st.warnings == WarningsOf(lines[..k]);
      LastDayMeaning(pre);
      assert st.currentDay.None?;
      KindsAt(lines, k);
      ParseLinesExtend(lines, k, st);
      assert ParseLines(lines[..k + 1]) == Err(TimeBeforeFirstDate(WarningsOf(lines[..k])));
      AbortIsFinal(lines, k + 1);
    }
  }

  /** An unreadable first line followed by a session entry: the run aborts,
      and the error keeps the warning printed for line 1. */
  lemma {:induction false} AbortKeepsEarlierWarnings(garbage: string, session: string)
    requires Classify(garbage).Unrecognised? && Classify(session).SessionLine?
    ensures ParseLines([garbage]) == Ok(ParseState(None, [], [Warning(1, garbage)]))
    ensures ParseLines([garbage, session]) == Err(TimeBeforeFirstDate([Warning(1, garbage)]))
  {
    assert [garbage][..0] == [];
    assert ParseLines([]) == Ok(ParseState(None, [], []));
    assert ParseLines([garbage]) == Step(ParseState(None, [], []), 0, garbage);
    assert [] + [Warning(1, garbage)] == [Warning(1, garbage)];
    assert [garbage, session][..1] == [garbage];
  }

  // ---------------------------------------------------------------------------
  // What the rows look like
  // ---------------------------------------------------------------------------

  /** The shape of a date the date pattern captured. */
  predicate WellFormedDay(d: Day) {
    DigitField(d.year, 4, 4) && DigitField(d.month, 2, 2) && DigitField(d.day, 2, 2)
  }

  /** The shape of every row the pass emits. */
  predicate WellFormedRow(r: Row) {
    && DigitField(r.year, 4, 4) && DigitField(r.month, 2, 2) && DigitField(r.day, 2, 2)
    && DigitField(r.startHour, 1, 2) && DigitField(r.startMinute, 1, 2)
    && DigitField(r.endHour, 1, 2) && DigitField(r.endMinute, 1, 2)
    && DigitField(r.quality, 1, 1) && NoLineFeed(r.subject)
  }

  /** A row is the current day followed by the six captured groups in order:
      the `strip()` of field 4 meets a single digit and changes nothing, so
      the subject in particular is written exactly as `(.*)` captured it. */
  lemma {:induction false} MakeRowKeepsGroups(d: Day, g: TimeGroups)
    requires DigitField(g.quality, 1, 1)
    ensures MakeRow(d, g) == Row(d.year, d.month, d.day, g.startHour, g.startMinute,
                                 g.endHour, g.endMinute, g.quality, g.subject)
  {
    assert g.quality == [g.quality[0]];
    StripKeepsSingle(g.quality[0]);
  }

  /** The groups a line's kind carries have the shapes their patterns allow. */
  lemma {:induction false} ClassifyFields(line: string)
    ensures Classify(line).DateLine? ==> WellFormedDay(Classify(line).day)
    ensures Classify(line).SessionLine? ==>
      var g := Classify(line).groups;
      && DigitField(g.startHour, 1, 2) && DigitField(g.startMinute, 1, 2)
      && DigitField(g.endHour, 1, 2) && DigitField(g.endMinute, 1, 2)
      && DigitField(g.quality, 1, 1) && NoLineFeed(g.subject)
  {
    MatchDateLeftmost(line);
    MatchTimeLeftmost(line);
    if MatchDate(line).Some? {
      DateMatchGroups(line, MatchDate(line).value.0, MatchDate(line).value.1);
    }
    if MatchTime(line).Some? {
      TimeMatchGroups(line, MatchTime(line).value.0, MatchTime(line).value.1);
    }
  }

  /** Every row the pass emits has four-digit year, two-digit month and day,
      one- or two-digit clock fields, a one-digit quality and a subject
      without line feed; the current day, when set, is a captured date. */
  lemma {:induction false} ParsedRowsWellFormed(lines: seq<string>)
    requires ParseLines(lines).Ok?
    ensures forall r :: r in ParseLines(lines).value.rows ==> WellFormedRow(r)
    ensures ParseLines(lines).value.currentDay.Some? ==> WellFormedDay(ParseLines(lines).value.currentDay.value)
    decreases |lines|
  {
    if lines != [] {
      var n := |lines| - 1;
      ParsedRowsWellFormed(lines[..n]);
      ClassifyFields(lines[n]);
      var st := ParseLines(lines[..n]).value;
      if Classify(lines[n]).SessionLine? && st.currentDay.Some? {
        MakeRowKeepsGroups(st.currentDay.value, Classify(lines[n]).groups);
      }
    }
  }
}
