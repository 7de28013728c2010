/**
 * `formatDate`: a timestamp such as `2021-05-03T10:20:30.000Z` shown as
 * `May 03, 2021 | 10:20 GMT`. The text is read purely by position within
 * the pieces between `-` signs; nothing checks that it is a timestamp.
 */
module DateFormat {
  import opened Common

  /** The month names, as the source spells them (index month - 1). */
  const Months: seq<string> := ["Jan", "Feb", "Mar", "April", "May", "June", "July", "Aug", "Sep", "Oct", "Nov", "Dec"]

  predicate IsDigit(c: char)
  {
    '0' <= c <= '9'
  }

  predicate AllDigits(s: string)
  {
    forall i :: 0 <= i < |s| ==> IsDigit(s[i])
  }

  function DigitsValue(s: string): nat
    requires AllDigits(s)
    decreases |s|
  {
    if |s| == 0 then 0
    else DigitsValue(s[..|s| - 1]) * 10 + (s[|s| - 1] as int - '0' as int)
  }

  /**
   * `Number(s)` for the texts modelled: surrounding whitespace is ignored,
   * an empty text is 0 and a run of decimal digits is its value; any other
   * text is treated as `NaN`.
   */
  function NumberOf(s: string): Option<int>
  {
    var t := Trim(s);
    if t == "" then Some(0)
    else if AllDigits(t) then Some(DigitsValue(t))
    else None
  }

  /** `months[Number(val) - 1]` rendered by a template: the name, or "undefined" off the table. */
  function MonthName(month: string): string
  {
    match NumberOf(month)
    case Some(n) => if 1 <= n <= 12 then Months[n - 1] else "undefined"
    case None => "undefined"
  }

  /**
   * `formatDate(date, sec)`: `undefined` for an absent or empty date; a
   * `TypeError` when the date has fewer than two `-` signs (`split[2][0]` of
   * `undefined`); otherwise the template filled from the pieces.
   */
  function FormatDate(date: Option<string>, sec: bool): (r: Result<Option<string>, JsError>)
    ensures (date.None? || date.value == "") <==> r == Success(None)
    ensures r.Failure? <==> date.Some? && date.value != "" && |Split(date.value, '-')| < 3
  {
    if date.None? || date.value == "" then Success(None)
    else
      var split := Split(date.value, '-');
      if |split| < 3 then Failure(TypeError("split[2][0]"))
      else
        var day := CharAt(split[2], 0) + CharAt(split[2], 1);
        var month := split[1];
        var year := split[0];
        var time := Slice(split[2], 3, if sec then 11 else 8);
        Success(Some(MonthName(month) + " " + day + ", " + year + " | " + time + " GMT"))
  }

  lemma TrimSolidEnds(s: string)
    requires |s| > 0 && !IsWhitespace(s[0]) && !IsWhitespace(s[|s| - 1])
    ensures Trim(s) == s
  {
  }

  /** A two-digit month from 01 to 12 names its entry of the table. */
  lemma MonthNameTable(month: string)
    requires |month| == 2 && AllDigits(month) && 1 <= DigitsValue(month) <= 12
    ensures MonthName(month) == Months[DigitsValue(month) - 1]
  {
    TrimSolidEnds(month);
  }

  /** Two separator-free pieces, each followed by the separator, come out of the split as they are. */
  lemma SplitTwoPieces(a: string, b: string, rest: string, sep: char)
    requires sep !in a && sep !in b
    ensures Split(a + [sep] + b + [sep] + rest, sep) == [a, b] + Split(rest, sep)
  {
    var tail := b + [sep] + rest;
    assert a + [sep] + b + [sep] + rest == a + [sep] + tail;
    SplitLeadingPiece(a, tail, sep);
    SplitLeadingPiece(b, rest, sep);
  }

  /** The pieces of a text shaped `YYYY-MM-DD…` with no `-` in the day and time part read. */
  lemma SplitTimestamp(d: string, n: nat)
    requires 10 <= n <= |d| && d[4] == '-' && d[7] == '-'
    requires '-' !in d[..4] && '-' !in d[5..7] && '-' !in d[8..n]
    ensures var split := Split(d, '-');
      |split| >= 3 && split[0] == d[..4] && split[1] == d[5..7] &&
      |split[2]| >= n - 8 && split[2][..n - 8] == d[8..n]
  {
    var rest := d[8..];
    assert d == d[..4] + ['-'] + d[5..7] + ['-'] + rest;
    SplitTwoPieces(d[..4], d[5..7], rest, '-');
    RestPiece(rest, n - 8);
  }

  /** The first piece of a text whose first `m` characters hold no `-` starts with those characters. */
  lemma RestPiece(rest: string, m: nat)
    requires m <= |rest| && '-' !in rest[..m]
    ensures |Split(rest, '-')[0]| >= m && Split(rest, '-')[0][..m] == rest[..m]
  {
    SplitAtFirst(rest, '-');
    assert forall j :: 0 <= j < m ==> rest[j] == rest[..m][j];
  }

  /**
   * An RFC 3339 timestamp `YYYY-MM-DDTHH:MM:SS…` becomes
   * `<month name> DD, YYYY | HH:MM GMT`, or `… | HH:MM:SS GMT` when `sec`
   * is truthy.
   */
  lemma FormatTimestamp(d: string, sec: bool)
    requires |d| >= 19 && d[4] == '-' && d[7] == '-'
    requires '-' !in d[..4] && '-' !in d[5..7] && '-' !in d[8..19]
    ensures FormatDate(Some(d), sec)
      == Success(Some(MonthName(d[5..7]) + " " + d[8..10] + ", " + d[..4] + " | " + d[11..if sec then 19 else 16] + " GMT"))
  {
    SplitTimestamp(d, 19);
    var p := Split(d, '-')[2];
    assert p[..11] == d[8..19];
    assert p[0] == d[8] && p[1] == d[9];
    assert CharAt(p, 0) + CharAt(p, 1) == d[8..10];
    var e := if sec then 11 else 8;
    assert p[3..e] == p[..11][3..e] == d[8..19][3..e] == d[11..e + 8];
    assert Slice(p, 3, e) == d[11..if sec then 19 else 16];
  }
}
