/**
 * The two regular expressions of the log format, as hand-written recognisers
 * over ASCII text, each proved against a declarative "the pattern matches at
 * index i with these groups" predicate.  Like `pattern.findall(line)[0]`, a
 * recogniser returns the groups of the leftmost match.
 *
 *   date:    (\d{2})\.(\d{2})\.(\d{4})
 *   session: (\d{1,2})[\.:](\d{1,2})\s*-\s*(\d{1,2})[\.:](\d{1,2})\s(\d)\s(.*)
 *
 * `\d` is an ASCII digit, `\s` ASCII whitespace (Text.IsSpace) and `.` any
 * character except a line feed.
 */
module Patterns {
  import opened Wrappers
  import opened Text

  // ---------------------------------------------------------------------------
  // Date headers: DD.MM.YYYY
  // ---------------------------------------------------------------------------

  /** The three groups of a date match, in pattern order. */
  datatype DateGroups = DateGroups(day: string, month: string, year: string)

  /** The date pattern matches `s` at index `i` and captures `g`. */
  predicate DateMatch(s: string, i: int, g: DateGroups) {
    && 0 <= i && i + 10 <= |s|
    && |g.day| == 2 && |g.month| == 2 && |g.year| == 4
    && AllDigits(g.day) && AllDigits(g.month) && AllDigits(g.year)
    && s[i..i + 10] == g.day + "." + g.month + "." + g.year
  }

  /** `i` is the leftmost index at which the date pattern matches, with groups `g`. */
  ghost predicate LeftmostDate(s: string, i: int, g: DateGroups) {
    DateMatch(s, i, g) && forall j, h :: 0 <= j < i ==> !DateMatch(s, j, h)
  }

  /** Character test of the recogniser: ten characters `dd.mm.yyyy` from `i`. */
  predicate DateHere(s: string, i: nat) {
    && i + 10 <= |s|
    && IsDigit(s[i]) && IsDigit(s[i + 1]) && s[i + 2] == '.'
    && IsDigit(s[i + 3]) && IsDigit(s[i + 4]) && s[i + 5] == '.'
    && IsDigit(s[i + 6]) && IsDigit(s[i + 7]) && IsDigit(s[i + 8]) && IsDigit(s[i + 9])
  }

  function DateGroupsAt(s: string, i: nat): DateGroups
    requires i + 10 <= |s|
  {
    DateGroups(s[i..i + 2], s[i + 3..i + 5], s[i + 6..i + 10])
  }

  /** The character test succeeds exactly where the pattern matches, and the
      groups of a match are determined by its index. */
  lemma {:induction false} DateHereExact(s: string, i: nat, g: DateGroups)
    ensures DateHere(s, i) ==> DateMatch(s, i, DateGroupsAt(s, i))
    ensures DateMatch(s, i, g) ==> DateHere(s, i) && g == DateGroupsAt(s, i)
  {
    if DateHere(s, i) {
      var h := DateGroupsAt(s, i);
      assert s[i..i + 10] == h.day + "." + h.month + "." + h.year;
    }
    if DateMatch(s, i, g) {
      var w := s[i..i + 10];
      assert w == g.day + "." + g.month + "." + g.year;
      assert w[..2] == g.day && w[3..5] == g.month && w[6..] == g.year;
      assert forall k :: 0 <= k < 10 ==> s[i + k] == w[k];
      assert IsDigit(g.day[0]) && IsDigit(g.day[1]);
      assert IsDigit(g.month[0]) && IsDigit(g.month[1]);
      assert IsDigit(g.year[0]) && IsDigit(g.year[1]) && IsDigit(g.year[2]) && IsDigit(g.year[3]);
    }
  }

  /** Leftmost index at or after `i` where the character test succeeds. */
  function FindDateFrom(s: string, i: nat): (r: Option<nat>)
    requires i <= |s|
    ensures r.Some? ==> i <= r.value && r.value + 10 <= |s|
    decreases |s| - i
  {
    if i + 10 > |s| then None
    else if DateHere(s, i) then Some(i)
    else FindDateFrom(s, i + 1)
  }

  /** The search stops at the first index where the character test succeeds. */
  lemma {:induction false} FindDateFromFirst(s: string, i: nat)
    requires i <= |s|
    ensures FindDateFrom(s, i).Some? ==> DateHere(s, FindDateFrom(s, i).value)
    ensures forall j :: i <= j && (FindDateFrom(s, i).None? || j < FindDateFrom(s, i).value) ==> !DateHere(s, j)
    decreases |s| - i
  {
    if i + 10 <= |s| && !DateHere(s, i) {
      FindDateFromFirst(s, i + 1);
    }
  }

  /** `re_pat_date.findall(s)[0]`, or None when `findall` finds nothing. */
  function MatchDate(s: string): Option<(nat, DateGroups)> {
    match FindDateFrom(s, 0)
    case None => None
    case Some(i) => Some((i, DateGroupsAt(s, i)))
  }

  /** What `MatchDate` returns is the leftmost date match with its groups,
      and it returns nothing exactly when the date pattern occurs nowhere. */
  lemma {:induction false} MatchDateLeftmost(s: string)
    ensures MatchDate(s).Some? ==> LeftmostDate(s, MatchDate(s).value.0, MatchDate(s).value.1)
    ensures MatchDate(s).None? ==> forall i, g :: !DateMatch(s, i, g)
  {
    FindDateFromFirst(s, 0);
    match FindDateFrom(s, 0)
    case None =>
      forall i: int, g | DateMatch(s, i, g) ensures false { DateHereExact(s, i, g); }
    case Some(i) =>
      DateHereExact(s, i, DateGroupsAt(s, i));
      forall j: int, h | 0 <= j < i && DateMatch(s, j, h) ensures false { DateHereExact(s, j, h); }
  }

  // ---------------------------------------------------------------------------
  // Session entries: H:M - H:M Q subject
  // ---------------------------------------------------------------------------

  /** The six groups of a session match, in pattern order. */
  datatype TimeGroups = TimeGroups(
    startHour: string, startMinute: string,
    endHour: string, endMinute: string,
    quality: string, subject: string)

  /** Where the pieces of a session match end, for a match starting at `i`:
      group 1 is s[i..a], s[a] the separator, group 2 is s[a+1..b], s[b..c]
      the blanks before the dash s[c], s[c+1..d] the blanks after it, group 3
      is s[d..e], s[e] the separator, group 4 is s[e+1..f], s[f] one blank,
      group 5 is s[f+1], s[f+2] one blank and group 6 is s[f+3..g]. */
  datatype TimeSpan = TimeSpan(a: int, b: int, c: int, d: int, e: int, f: int, g: int)

  predicate IsSep(c: char) {
    c == '.' || c == ':'
  }

  predicate DigitsIn(s: string, p: int, q: int) {
    0 <= p <= q <= |s| && forall k :: p <= k < q ==> IsDigit(s[k])
  }

  predicate SpacesIn(s: string, p: int, q: int) {
    0 <= p <= q <= |s| && forall k :: p <= k < q ==> IsSpace(s[k])
  }

  predicate NoLineFeedIn(s: string, p: int, q: int) {
    0 <= p <= q <= |s| && forall k :: p <= k < q ==> s[k] != '\n'
  }

  /** The session pattern matches `s` from index `i`, split as `sp` says. */
  predicate TimeShape(s: string, i: int, sp: TimeSpan) {
    // (\d{1,2})[\.:]
    && 1 <= sp.a - i <= 2 && DigitsIn(s, i, sp.a) && sp.a < |s| && IsSep(s[sp.a])
    // (\d{1,2})
    && 1 <= sp.b - (sp.a + 1) <= 2 && DigitsIn(s, sp.a + 1, sp.b)
    // \s*-\s*
    && SpacesIn(s, sp.b, sp.c) && sp.c < |s| && s[sp.c] == '-'
    && SpacesIn(s, sp.c + 1, sp.d)
    // (\d{1,2})[\.:]
    && 1 <= sp.e - sp.d <= 2 && DigitsIn(s, sp.d, sp.e) && sp.e < |s| && IsSep(s[sp.e])
    // (\d{1,2})\s(\d)\s
    && 1 <= sp.f - (sp.e + 1) <= 2 && DigitsIn(s, sp.e + 1, sp.f)
    && sp.f + 3 <= |s| && IsSpace(s[sp.f]) && IsDigit(s[sp.f + 1]) && IsSpace(s[sp.f + 2])
    // (.*), greedy: up to the next line feed or the end
    && NoLineFeedIn(s, sp.f + 3, sp.g) && (sp.g == |s| || s[sp.g] == '\n')
  }

  /** The pieces of `sp` lie in order inside `s`. */
  predicate SpanInBounds(s: string, i: int, sp: TimeSpan) {
    && 0 <= i <= sp.a && sp.a + 1 <= sp.b <= sp.c && sp.c + 1 <= sp.d
    && sp.d <= sp.e && sp.e + 1 <= sp.f && sp.f + 3 <= sp.g <= |s|
  }

  function TimeGroupsOf(s: string, i: int, sp: TimeSpan): TimeGroups
    requires SpanInBounds(s, i, sp)
  {
    TimeGroups(s[i..sp.a], s[sp.a + 1..sp.b], s[sp.d..sp.e], s[sp.e + 1..sp.f],
               s[sp.f + 1..sp.f + 2], s[sp.f + 3..sp.g])
  }

  /** The session pattern matches `s` at index `i` and captures `g`. */
  ghost predicate TimeMatch(s: string, i: int, g: TimeGroups) {
    exists sp :: TimeShape(s, i, sp) && SpanInBounds(s, i, sp) && g == TimeGroupsOf(s, i, sp)
  }

  /** `i` is the leftmost index at which the session pattern matches, with groups `g`. */
  ghost predicate LeftmostTime(s: string, i: int, g: TimeGroups) {
    TimeMatch(s, i, g) && forall j, h :: 0 <= j < i ==> !TimeMatch(s, j, h)
  }

  /** End of the run of digits starting at `p`. */
  function DigitRunEnd(s: string, p: nat): (q: nat)
    requires p <= |s|
    ensures p <= q <= |s|
    decreases |s| - p
  {
    if p < |s| && IsDigit(s[p]) then DigitRunEnd(s, p + 1) else p
  }

  lemma {:induction false} DigitRunEndSpec(s: string, p: nat)
    requires p <= |s|
    ensures DigitsIn(s, p, DigitRunEnd(s, p)) && (DigitRunEnd(s, p) == |s| || !IsDigit(s[DigitRunEnd(s, p)]))
    decreases |s| - p
  {
    if p < |s| && IsDigit(s[p]) { DigitRunEndSpec(s, p + 1); }
  }

  /** End of the run of whitespace starting at `p`. */
  function SpaceRunEnd(s: string, p: nat): (q: nat)
    requires p <= |s|
    ensures p <= q <= |s|
    decreases |s| - p
  {
    if p < |s| && IsSpace(s[p]) then SpaceRunEnd(s, p + 1) else p
  }

  lemma {:induction false} SpaceRunEndSpec(s: string, p: nat)
    requires p <= |s|
    ensures SpacesIn(s, p, SpaceRunEnd(s, p)) && (SpaceRunEnd(s, p) == |s| || !IsSpace(s[SpaceRunEnd(s, p)]))
    decreases |s| - p
  {
    if p < |s| && IsSpace(s[p]) { SpaceRunEndSpec(s, p + 1); }
  }

  /** Index of the first line feed at or after `p`, or the length of `s`. */
  function LineEnd(s: string, p: nat): (q: nat)
    requires p <= |s|
    ensures p <= q <= |s|
    decreases |s| - p
  {
    if p < |s| && s[p] != '\n' then LineEnd(s, p + 1) else p
  }

  lemma {:induction false} LineEndSpec(s: string, p: nat)
    requires p <= |s|
    ensures NoLineFeedIn(s, p, LineEnd(s, p)) && (LineEnd(s, p) == |s| || s[LineEnd(s, p)] == '\n')
    decreases |s| - p
  {
    if p < |s| && s[p] != '\n' { LineEndSpec(s, p + 1); }
  }

  /** A run that stops at a non-digit is the maximal one. */
  lemma {:induction false} DigitRunUnique(s: string, p: nat, q: int)
    requires p <= |s| && DigitsIn(s, p, q) && (q == |s| || !IsDigit(s[q]))
    ensures q == DigitRunEnd(s, p)
  {
    DigitRunEndSpec(s, p);
  }

  lemma {:induction false} SpaceRunUnique(s: string, p: nat, q: int)
    requires p <= |s| && SpacesIn(s, p, q) && (q == |s| || !IsSpace(s[q]))
    ensures q == SpaceRunEnd(s, p)
  {
    SpaceRunEndSpec(s, p);
  }

  lemma {:induction false} LineEndUnique(s: string, p: nat, q: int)
    requires p <= |s| && NoLineFeedIn(s, p, q) && (q == |s| || s[q] == '\n')
    ensures q == LineEnd(s, p)
  {
    LineEndSpec(s, p);
  }

  /** The recogniser's attempt at index `i`: every piece of the pattern is
      taken as the longest run of its characters, and the attempt fails as
      soon as a piece is missing or too long. */
  function TimeAt(s: string, i: nat): (r: Option<TimeSpan>)
    requires i <= |s|
    ensures r.Some? ==> SpanInBounds(s, i, r.value)
  {
    var a := DigitRunEnd(s, i);
    if !(1 <= a - i <= 2 && a < |s| && IsSep(s[a])) then None
    else
      var b := DigitRunEnd(s, a + 1);
      if !(1 <= b - (a + 1) <= 2) then None
      else
        var c := SpaceRunEnd(s, b);
        if !(c < |s| && s[c] == '-') then None
        else
          var d := SpaceRunEnd(s, c + 1);
          var e := DigitRunEnd(s, d);
          if !(1 <= e - d <= 2 && e < |s| && IsSep(s[e])) then None
          else
            var f := DigitRunEnd(s, e + 1);
            if !(1 <= f - (e + 1) <= 2 && f + 3 <= |s| && IsSpace(s[f])
                 && IsDigit(s[f + 1]) && IsSpace(s[f + 2])) then None
            else Some(TimeSpan(a, b, c, d, e, f, LineEnd(s, f + 3)))
  }

  /** The pieces of `sp` end where the runs of digits, whitespace and
      line end from their starts end, and the separators between them are
      the ones the pattern asks for. */
  predicate RunsAt(s: string, i: nat, sp: TimeSpan)
    requires i <= |s|
  {
    && sp.a == DigitRunEnd(s, i) && 1 <= sp.a - i <= 2 && sp.a < |s| && IsSep(s[sp.a])
    && sp.b == DigitRunEnd(s, sp.a + 1) && 1 <= sp.b - (sp.a + 1) <= 2
    && sp.c == SpaceRunEnd(s, sp.b) && sp.c < |s| && s[sp.c] == '-'
    && sp.d == SpaceRunEnd(s, sp.c + 1)
    && sp.e == DigitRunEnd(s, sp.d) && 1 <= sp.e - sp.d <= 2 && sp.e < |s| && IsSep(s[sp.e])
    && sp.f == DigitRunEnd(s, sp.e + 1) && 1 <= sp.f - (sp.e + 1) <= 2
    && sp.f + 3 <= |s| && IsSpace(s[sp.f]) && IsDigit(s[sp.f + 1]) && IsSpace(s[sp.f + 2])
    && sp.g == LineEnd(s, sp.f + 3)
  }

  /** The attempt at `i` returns exactly the split that follows the runs. */
  lemma {:induction false} TimeAtRuns(s: string, i: nat, sp: TimeSpan)
    requires i <= |s|
    ensures TimeAt(s, i) == Some(sp) <==> RunsAt(s, i, sp)
  {
  }

  /** The two digit groups of the start time lie on the runs that end at
      `sp.a` and `sp.b`. */
  lemma {:induction false} StartFromRuns(s: string, i: nat, sp: TimeSpan)
    requires i <= |s| && sp.a == DigitRunEnd(s, i) && sp.a < |s|
    requires sp.b == DigitRunEnd(s, sp.a + 1)
    ensures DigitsIn(s, i, sp.a) && DigitsIn(s, sp.a + 1, sp.b)
  {
    DigitRunEndSpec(s, i);
    DigitRunEndSpec(s, sp.a + 1);
  }

  /** The whitespace around the dash lies on the runs that end at `sp.c`
      and `sp.d`. */
  lemma {:induction false} DashFromRuns(s: string, sp: TimeSpan)
    requires 0 <= sp.b <= |s| && sp.c == SpaceRunEnd(s, sp.b) && sp.c < |s|
    requires sp.d == SpaceRunEnd(s, sp.c + 1)
    ensures SpacesIn(s, sp.b, sp.c) && SpacesIn(s, sp.c + 1, sp.d)
  {
    SpaceRunEndSpec(s, sp.b);
    SpaceRunEndSpec(s, sp.c + 1);
  }

  /** The end time's digit groups lie on the runs that end at `sp.e` and
      `sp.f`, and the comment runs to the end of the line. */
  lemma {:induction false} EndFromRuns(s: string, sp: TimeSpan)
    requires 0 <= sp.d <= |s| && sp.e == DigitRunEnd(s, sp.d) && sp.e < |s|
    requires sp.f == DigitRunEnd(s, sp.e + 1) && sp.f + 3 <= |s|
    requires sp.g == LineEnd(s, sp.f + 3)
    ensures DigitsIn(s, sp.d, sp.e) && DigitsIn(s, sp.e + 1, sp.f)
    ensures NoLineFeedIn(s, sp.f + 3, sp.g) && (sp.g == |s| || s[sp.g] == '\n')
  {
    DigitRunEndSpec(s, sp.d);
    DigitRunEndSpec(s, sp.e + 1);
    LineEndSpec(s, sp.f + 3);
  }

  /** What the attempt at `i` returns is a split the pattern admits. */
  lemma {:induction false} TimeAtSound(s: string, i: nat)
    requires i <= |s| && TimeAt(s, i).Some?
    ensures TimeShape(s, i, TimeAt(s, i).value)
  {
    var sp := TimeAt(s, i).value;
    TimeAtRuns(s, i, sp);
    StartFromRuns(s, i, sp);
    DashFromRuns(s, sp);
    EndFromRuns(s, sp);
  }

  /** In a split the pattern admits, the first two digit groups end where
      their digit runs end. */
  lemma {:induction false} StartRuns(s: string, i: nat, sp: TimeSpan)
    requires i <= |s| && TimeShape(s, i, sp)
    ensures DigitRunEnd(s, i) == sp.a && DigitRunEnd(s, sp.a + 1) == sp.b
  {
    DigitRunUnique(s, i, sp.a);
    assert sp.b == |s| || !IsDigit(s[sp.b]) by {
      if sp.b < sp.c { assert IsSpace(s[sp.b]); } else { assert s[sp.b] == '-'; }
    }
    DigitRunUnique(s, sp.a + 1, sp.b);
  }

  /** ... the blanks around the dash end where their runs end ... */
  lemma {:induction false} DashRuns(s: string, i: nat, sp: TimeSpan)
    requires i <= |s| && TimeShape(s, i, sp)
    ensures SpaceRunEnd(s, sp.b) == sp.c && SpaceRunEnd(s, sp.c + 1) == sp.d
  {
    SpaceRunUnique(s, sp.b, sp.c);
    assert sp.d < |s| && !IsSpace(s[sp.d]) by { assert IsDigit(s[sp.d]); }
    SpaceRunUnique(s, sp.c + 1, sp.d);
  }

  /** ... and so do the last two digit groups and the subject. */
  lemma {:induction false} EndRuns(s: string, i: nat, sp: TimeSpan)
    requires i <= |s| && TimeShape(s, i, sp)
    ensures DigitRunEnd(s, sp.d) == sp.e && DigitRunEnd(s, sp.e + 1) == sp.f
    ensures LineEnd(s, sp.f + 3) == sp.g
  {
    DigitRunUnique(s, sp.d, sp.e);
    DigitRunUnique(s, sp.e + 1, sp.f);
    LineEndUnique(s, sp.f + 3, sp.g);
  }

  /** A split the pattern admits is the one the attempt at `i` returns. */
  lemma {:induction false} TimeAtComplete(s: string, i: nat, sp: TimeSpan)
    requires i <= |s| && TimeShape(s, i, sp)
    ensures TimeAt(s, i) == Some(sp)
  {
    ShapeRuns(s, i, sp);
    TimeAtRuns(s, i, sp);
  }

  /** A split the pattern admits follows the runs. */
  lemma {:induction false} ShapeRuns(s: string, i: nat, sp: TimeSpan)
    requires i <= |s| && TimeShape(s, i, sp)
    ensures RunsAt(s, i, sp)
  {
    StartRuns(s, i, sp);
    DashRuns(s, i, sp);
    EndRuns(s, i, sp);
  }

  /** The attempt at `i` succeeds exactly with the split the pattern admits:
      at each index the session pattern has at most one way to match, and
      the recogniser finds it. */
  lemma {:induction false} TimeAtExact(s: string, i: nat, sp: TimeSpan)
    requires i <= |s|
    ensures TimeAt(s, i) == Some(sp) <==> TimeShape(s, i, sp)
  {
    if TimeShape(s, i, sp) {
      TimeAtComplete(s, i, sp);
    } else if TimeAt(s, i) == Some(sp) {
      TimeAtSound(s, i);
    }
  }

  /** The groups of a session match are determined by its index. */
  lemma {:induction false} TimeGroupsUnique(s: string, i: int, g1: TimeGroups, g2: TimeGroups)
    requires TimeMatch(s, i, g1) && TimeMatch(s, i, g2)
    ensures g1 == g2
  {
    var sp1 :| TimeShape(s, i, sp1) && SpanInBounds(s, i, sp1) && g1 == TimeGroupsOf(s, i, sp1);
    var sp2 :| TimeShape(s, i, sp2) && SpanInBounds(s, i, sp2) && g2 == TimeGroupsOf(s, i, sp2);
    TimeAtExact(s, i, sp1);
    TimeAtExact(s, i, sp2);
  }

  /** Leftmost index at or after `i` where the attempt succeeds. */
  function FindTimeFrom(s: string, i: nat): (r: Option<(nat, TimeSpan)>)
    requires i <= |s|
    ensures r.Some? ==> i <= r.value.0 <= |s| && SpanInBounds(s, r.value.0, r.value.1)
    decreases |s| - i
  {
    match TimeAt(s, i)
    case Some(sp) => Some((i, sp))
    case None => if i == |s| then None else FindTimeFrom(s, i + 1)
  }

  /** The search stops at the first index where the attempt succeeds. */
  lemma {:induction false} FindTimeFromFirst(s: string, i: nat)
    requires i <= |s|
    ensures FindTimeFrom(s, i).Some? ==>
      TimeAt(s, FindTimeFrom(s, i).value.0) == Some(FindTimeFrom(s, i).value.1)
    ensures forall j :: i <= j <= |s| && (FindTimeFrom(s, i).None? || j < FindTimeFrom(s, i).value.0) ==>
      TimeAt(s, j).None?
    decreases |s| - i
  {
    if TimeAt(s, i).None? && i < |s| {
      FindTimeFromFirst(s, i + 1);
    }
  }

  /** No session match starts at `j` when the attempt there fails. */
  lemma {:induction false} NoTimeMatchAt(s: string, j: int)
    requires 0 <= j <= |s| ==> TimeAt(s, j).None?
    ensures forall g :: !TimeMatch(s, j, g)
  {
    forall g | TimeMatch(s, j, g) ensures false {
      var sp :| TimeShape(s, j, sp) && SpanInBounds(s, j, sp) && g == TimeGroupsOf(s, j, sp);
      TimeAtExact(s, j, sp);
    }
  }

  /** `re_pat_time.findall(s)[0]`, or None when `findall` finds nothing. */
  function MatchTime(s: string): Option<(nat, TimeGroups)> {
    match FindTimeFrom(s, 0)
    case None => None
    case Some((i, sp)) => Some((i, TimeGroupsOf(s, i, sp)))
  }

  /** What `MatchTime` returns is the leftmost session match with its groups,
      and it returns nothing exactly when the session pattern occurs nowhere. */
  lemma {:induction false} MatchTimeLeftmost(s: string)
    ensures MatchTime(s).Some? ==> LeftmostTime(s, MatchTime(s).value.0, MatchTime(s).value.1)
    ensures MatchTime(s).None? ==> forall i, g :: !TimeMatch(s, i, g)
  {
    FindTimeFromFirst(s, 0);
    match FindTimeFrom(s, 0)
    case None =>
      NoTimeMatchEverywhere(s, |s| + 1);
    case Some((i, sp)) =>
      TimeAtExact(s, i, sp);
      NoTimeMatchEverywhere(s, i);
  }

  /** No session match starts before `n` when every attempt before `n` fails. */
  lemma {:induction false} NoTimeMatchEverywhere(s: string, n: int)
    requires forall j :: 0 <= j < n && j <= |s| ==> TimeAt(s, j).None?
    ensures forall j, g :: j < n ==> !TimeMatch(s, j, g)
  {
    forall j, g | j < n ensures !TimeMatch(s, j, g) {
      NoTimeMatchAt(s, j);
    }
  }

  // ---------------------------------------------------------------------------
  // What the captured groups look like
  // ---------------------------------------------------------------------------

  /** A digit string of `lo` to `hi` characters. */
  predicate DigitField(x: string, lo: nat, hi: nat) {
    lo <= |x| <= hi && AllDigits(x)
  }

  predicate NoLineFeed(x: string) {
    forall k :: 0 <= k < |x| ==> x[k] != '\n'
  }

  /** The date groups are digit strings of two, two and four characters. */
  lemma {:induction false} DateMatchGroups(s: string, i: int, g: DateGroups)
    requires DateMatch(s, i, g)
    ensures DigitField(g.day, 2, 2) && DigitField(g.month, 2, 2) && DigitField(g.year, 4, 4)
  {
  }

  /** A slice of a digit run is a digit string. */
  lemma {:induction false} DigitsSlice(s: string, p: int, q: int)
    requires DigitsIn(s, p, q)
    ensures AllDigits(s[p..q])
  {
    assert forall k :: 0 <= k < q - p ==> s[p..q][k] == s[p + k];
  }

  /** The groups of a split the pattern admits: one or two digits in each
      clock group, one digit of quality, no line feed in the subject. */
  lemma {:induction false} TimeShapeGroups(s: string, i: int, sp: TimeSpan)
    requires TimeShape(s, i, sp) && SpanInBounds(s, i, sp)
    ensures DigitField(TimeGroupsOf(s, i, sp).startHour, 1, 2)
    ensures DigitField(TimeGroupsOf(s, i, sp).startMinute, 1, 2)
    ensures DigitField(TimeGroupsOf(s, i, sp).endHour, 1, 2)
    ensures DigitField(TimeGroupsOf(s, i, sp).endMinute, 1, 2)
    ensures DigitField(TimeGroupsOf(s, i, sp).quality, 1, 1)
    ensures NoLineFeed(TimeGroupsOf(s, i, sp).subject)
  {
    DigitsSlice(s, i, sp.a);
    DigitsSlice(s, sp.a + 1, sp.b);
    DigitsSlice(s, sp.d, sp.e);
    DigitsSlice(s, sp.e + 1, sp.f);
    assert DigitsIn(s, sp.f + 1, sp.f + 2);
    DigitsSlice(s, sp.f + 1, sp.f + 2);
    var subject := s[sp.f + 3..sp.g];
    assert forall k :: 0 <= k < |subject| ==> subject[k] == s[sp.f + 3 + k];
  }

  /** The same for any session match. */
  lemma {:induction false} TimeMatchGroups(s: string, i: int, g: TimeGroups)
    requires TimeMatch(s, i, g)
    ensures DigitField(g.startHour, 1, 2) && DigitField(g.startMinute, 1, 2)
    ensures DigitField(g.endHour, 1, 2) && DigitField(g.endMinute, 1, 2)
    ensures DigitField(g.quality, 1, 1) && NoLineFeed(g.subject)
  {
    var sp :| TimeShape(s, i, sp) && SpanInBounds(s, i, sp) && g == TimeGroupsOf(s, i, sp);
    TimeShapeGroups(s, i, sp);
  }
}
