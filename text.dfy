/**
 * Character classes and small string functions shared by the recognisers and
 * the aggregation: ASCII digits, the ASCII part of Python's whitespace class
 * (what `str.strip()` removes and what the regex class `\s` matches), `strip()`
 * itself and the decimal value of a digit string (what `int()` gives for it).
 */
module Text {
  import opened Wrappers

  predicate IsDigit(c: char) {
    '0' <= c <= '9'
  }

  /** ASCII whitespace: tab, line feed, vertical tab, form feed, carriage
      return, the four separators 0x1C..0x1F, and space. */
  predicate IsSpace(c: char) {
    c == ' ' || 9 <= c as int <= 13 || 28 <= c as int <= 31
  }

  predicate AllDigits(s: string) {
    forall k :: 0 <= k < |s| ==> IsDigit(s[k])
  }

  /** A field `int()` accepts: a non-empty digit string. */
  predicate Numeric(s: string) {
    |s| > 0 && AllDigits(s)
  }

  predicate AllSpace(s: string) {
    forall k :: 0 <= k < |s| ==> IsSpace(s[k])
  }

  /** Drops leading whitespace. */
  function TrimStart(s: string): (r: string)
    ensures |r| <= |s|
  {
    if s != [] && IsSpace(s[0]) then TrimStart(s[1..]) else s
  }

  /** Drops trailing whitespace. */
  function TrimEnd(s: string): (r: string)
    ensures |r| <= |s|
  {
    if s != [] && IsSpace(s[|s| - 1]) then TrimEnd(s[..|s| - 1]) else s
  }

  /** `TrimStart` removes a whitespace prefix and stops at a non-blank. */
  lemma {:induction false} TrimStartSpec(s: string)
    ensures TrimStart(s) == s[|s| - |TrimStart(s)|..]
    ensures AllSpace(s[..|s| - |TrimStart(s)|])
    ensures TrimStart(s) == [] || !IsSpace(TrimStart(s)[0])
  {
    if s != [] && IsSpace(s[0]) {
      TrimStartSpec(s[1..]);
      var r := TrimStart(s);
      assert s[..|s| - |r|] == [s[0]] + s[1..][..|s| - 1 - |r|];
    }
  }

  /** `TrimEnd` removes a whitespace suffix and stops at a non-blank. */
  lemma {:induction false} TrimEndSpec(s: string)
    ensures TrimEnd(s) == s[..|TrimEnd(s)|]
    ensures AllSpace(s[|TrimEnd(s)|..])
    ensures TrimEnd(s) == [] || !IsSpace(TrimEnd(s)[|TrimEnd(s)| - 1])
  {
    if s != [] && IsSpace(s[|s| - 1]) {
      TrimEndSpec(s[..|s| - 1]);
      var r := TrimEnd(s);
      assert s[|r|..] == s[..|s| - 1][|r|..] + [s[|s| - 1]];
    }
  }

  /** Python's `str.strip()` with no argument. */
  function Strip(s: string): string {
    TrimEnd(TrimStart(s))
  }

  /** `line.strip() == ""` holds exactly for lines made only of whitespace. */
  lemma {:induction false} StripEmptyIffAllSpace(s: string)
    ensures Strip(s) == [] <==> AllSpace(s)
  {
    var t := TrimStart(s);
    TrimStartSpec(s);
    TrimEndSpec(t);
    if Strip(s) == [] {
      assert t[0..] == t;
      assert t == [];
      assert s[..|s|] == s;
    }
  }

  /** A character that is not whitespace is left alone by `strip()`. */
  lemma {:induction false} StripKeepsSingle(c: char)
    requires !IsSpace(c)
    ensures Strip([c]) == [c]
  {
    assert TrimStart([c]) == [c];
    assert TrimEnd([c]) == [c];
  }

  function Pow10(n: nat): (r: nat)
    ensures r >= 1
  {
    if n == 0 then 1 else 10 * Pow10(n - 1)
  }

  /** Decimal value of a string of digits, most significant digit first. */
  function DigitsValue(s: string): (v: nat)
    requires AllDigits(s)
    ensures v < Pow10(|s|)
  {
    if s == [] then 0
    else
      var prefix := s[..|s| - 1];
      assert AllDigits(prefix) by {
        forall k | 0 <= k < |prefix| ensures IsDigit(prefix[k]) { assert prefix[k] == s[k]; }
      }
      10 * DigitsValue(prefix) + (s[|s| - 1] as int - '0' as int)
  }

  /** `int(s)` for the strings the recognisers capture: a non-empty run of
      ASCII digits converts, anything else is a `ValueError` (None). */
  function ParseInt(s: string): (r: Option<int>)
    ensures r.Some? <==> Numeric(s)
    ensures r.Some? ==> r.value == DigitsValue(s)
    ensures r.Some? ==> 0 <= r.value < Pow10(|s|)
  {
    if Numeric(s) then Some(DigitsValue(s)) else None
  }
}
