/**
 * Calendar-date strings `YYYY-MM-DD` (the year is not padded): parsing to the
 * start or the end of a local day, and formatting a `Date` back. The string
 * operations they use (`split`, `Number`, `String`, `padStart`) are modelled
 * here too.
 */
module DateUtils {
  import opened Common
  import opened JsDate

  /** `s.split(sep)` for a one-character separator. */
  function Split(s: string, sep: char): (parts: seq<string>)
    ensures |parts| >= 1
    decreases |s|
  {
    if s == [] then [""]
    else
      var rest := Split(s[1..], sep);
      if s[0] == sep then [""] + rest else [[s[0]] + rest[0]] + rest[1..]
  }

  /** A piece that holds no separator splits into itself, and a separator after it ends the piece. */
  lemma {:induction false} SplitPiece(a: string, sep: char, b: string)
    requires sep !in a
    ensures Split(a, sep) == [a]
    ensures Split(a + [sep] + b, sep) == [a] + Split(b, sep)
  {
    if a != [] {
      SplitPiece(a[1..], sep, b);
      assert (a + [sep] + b)[1..] == a[1..] + [sep] + b;
      assert [a[0]] + a[1..] == a;
    } else {
      assert a + [sep] + b == [sep] + b;
      assert ([sep] + b)[1..] == b;
    }
  }

  predicate IsDigit(c: char)
  {
    '0' <= c <= '9'
  }

  predicate IsDigits(s: string)
  {
    forall i :: 0 <= i < |s| ==> IsDigit(s[i])
  }

  function DigitChar(n: nat): (c: char)
    requires n < 10
    ensures IsDigit(c)
  {
    ('0' as int + n) as char
  }

  function DigitValue(c: char): (n: nat)
    requires IsDigit(c)
    ensures n < 10 && DigitChar(n) == c
  {
    c as int - '0' as int
  }

  /** The value of a string of decimal digits, most significant first. */
  function DigitsValue(s: string): nat
    requires IsDigits(s)
  {
    if s == [] then 0 else DigitsValue(s[..|s| - 1]) * 10 + DigitValue(s[|s| - 1])
  }

  /**
   * `Number(s)` for the strings this model understands: the empty string is 0,
   * a string of decimal digits is its value, anything else is NaN (`None`).
   */
  function ToNumber(s: string): (r: Option<int>)
    ensures s == "" ==> r == Some(0)
    ensures r.Some? && s != "" ==> IsDigits(s)
  {
    if s == "" then Some(0) else if IsDigits(s) then Some(DigitsValue(s)) else None
  }

  /** Decimal digits of a natural number, no leading zeros. */
  function NatToString(n: nat): (s: string)
    ensures s != [] && IsDigits(s)
    ensures DigitsValue(s) == n
  {
    if n < 10 then [DigitChar(n)]
    else
      var s := NatToString(n / 10) + [DigitChar(n % 10)];
      assert s[..|s| - 1] == NatToString(n / 10);
      s
  }

  /** `String(n)` for an integer. */
  function IntToString(n: int): string
  {
    if n < 0 then "-" + NatToString(-n) else NatToString(n)
  }

  /** `s.padStart(2, "0")`. */
  function PadStart2(s: string): string
  {
    if |s| >= 2 then s else seq(2 - |s|, _ => '0') + s
  }

  /** The two-digit text of a number below 100. */
  function TwoDigits(n: nat): (s: string)
    requires n < 100
    ensures |s| == 2 && IsDigits(s) && DigitsValue(s) == n
  {
    var s := [DigitChar(n / 10), DigitChar(n % 10)];
    assert s[..1] == [DigitChar(n / 10)];
    assert DigitsValue(s[..1]) == n / 10 by {
      assert s[..1][..0] == [];
    }
    s
  }

  /** Padding the text of a number below 100 gives exactly its two digits. */
  lemma PadTwoDigits(n: nat)
    requires n < 100
    ensures PadStart2(IntToString(n)) == TwoDigits(n)
  {
    if n >= 10 {
      assert NatToString(n / 10) == [DigitChar(n / 10)];
    }
  }

  /** `formatLocalDate(d)`: year as written by `String`, then month (1-based) and day padded to two digits. */
  function FormatLocalDate(d: JsDate): (r: string)
    ensures d.InvalidDate? ==> r == "NaN-NaN-NaN"
    ensures d.DateTime? ==>
              r == IntToString(d.year) + "-" + TwoDigits(d.month + 1) + "-" + TwoDigits(d.day)
  {
    match d
    case InvalidDate => "NaN-NaN-NaN"
    case DateTime(y, m, day, _, _, _) =>
      PadTwoDigits(m + 1);
      PadTwoDigits(day);
      IntToString(y) + "-" + PadStart2(IntToString(m + 1)) + "-" + PadStart2(IntToString(day))
  }

  /** The shared body of the two parsers: `split("-").map(Number)`, then `new Date(y, m - 1, d, h, mi, s)`. */
  function ParseAt(dateStr: Option<string>, h: int, mi: int, s: int): (r: Option<JsDate>)
    requires 0 <= h < 24 && 0 <= mi < 60 && 0 <= s < 60
    ensures r.None? <==> dateStr.None? || dateStr.value == ""
    ensures r.Some? && r.value.DateTime? ==> r.value.hours == h && r.value.minutes == mi && r.value.seconds == s
  {
    if dateStr.None? || dateStr.value == "" then None
    else
      var parts := Split(dateStr.value, '-');
      if |parts| < 3 then Some(InvalidDate)
      else
        match (ToNumber(parts[0]), ToNumber(parts[1]), ToNumber(parts[2]))
        case (Some(y), Some(m), Some(d)) => Some(NewDate(y, m - 1, d, h, mi, s))
        case _ => Some(InvalidDate)
  }

  /** `parseLocalDate`: `null` for a missing or empty string, otherwise local midnight of that day. */
  function ParseLocalDate(dateStr: Option<string>): (r: Option<JsDate>)
    ensures r.None? <==> dateStr.None? || dateStr.value == ""
    ensures r.Some? && r.value.DateTime? ==> r.value.hours == 0 && r.value.minutes == 0 && r.value.seconds == 0
  {
    ParseAt(dateStr, 0, 0, 0)
  }

  /** `parseLocalDateEnd`: `null` for a missing or empty string, otherwise 23:59:59 of that day. */
  function ParseLocalDateEnd(dateStr: Option<string>): (r: Option<JsDate>)
    ensures r.None? <==> dateStr.None? || dateStr.value == ""
    ensures r.Some? && r.value.DateTime? ==> r.value.hours == 23 && r.value.minutes == 59 && r.value.seconds == 59
  {
    ParseAt(dateStr, 23, 59, 59)
  }

  /** Seconds since 1970-01-01 00:00 local time; `Date` comparison compares these. */
  function TimeValue(d: JsDate): int
    requires d.DateTime?
  {
    DayOf(d) * 86400 + d.hours * 3600 + d.minutes * 60 + d.seconds
  }

  /**
   * Both parsers read the same day from the same string: the start is at
   * 00:00:00, the end at 23:59:59, so the start comes first.
   */
  lemma StartBeforeEnd(dateStr: Option<string>)
    ensures ParseLocalDate(dateStr).None? <==> ParseLocalDateEnd(dateStr).None?
    ensures ParseLocalDate(dateStr).Some? ==>
              var start, end := ParseLocalDate(dateStr).value, ParseLocalDateEnd(dateStr).value;
              (start.InvalidDate? <==> end.InvalidDate?) &&
              (start.DateTime? ==>
                 start.year == end.year && start.month == end.month && start.day == end.day &&
                 TimeValue(start) < TimeValue(end))
  {
  }

  /** The text of a date with a non-negative year splits at its two dashes into year, month and day. */
  lemma FormatSplits(d: JsDate)
    requires d.DateTime? && d.year >= 0
    ensures Split(FormatLocalDate(d), '-') == [NatToString(d.year), TwoDigits(d.month + 1), TwoDigits(d.day)]
  {
    var ys, ms, ds := NatToString(d.year), TwoDigits(d.month + 1), TwoDigits(d.day);
    assert FormatLocalDate(d) == ys + ['-'] + (ms + ['-'] + ds);
    assert '-' !in ys && '-' !in ms && '-' !in ds by {
      assert !IsDigit('-');
    }
    SplitPiece(ys, '-', ms + ['-'] + ds);
    SplitPiece(ms, '-', ds);
    SplitPiece(ds, '-', []);
  }

  /** A string that splits into three digit pieces parses to `new Date` of their values. */
  lemma ParseDigitPieces(str: string, y: nat, m: nat, day: nat, h: int, mi: int, s: int)
    requires 0 <= h < 24 && 0 <= mi < 60 && 0 <= s < 60
    requires str != "" && m < 100 && day < 100
    requires Split(str, '-') == [NatToString(y), TwoDigits(m), TwoDigits(day)]
    ensures ParseAt(Some(str), h, mi, s) == Some(NewDate(y, m - 1, day, h, mi, s))
  {
    assert ToNumber(NatToString(y)) == Some(y);
    assert ToNumber(TwoDigits(m)) == Some(m);
    assert ToNumber(TwoDigits(day)) == Some(day);
  }

  /** Formatting a date with a year of at least 100 and parsing the text back gives the same day. */
  lemma FormatParseRoundTrip(d: JsDate)
    requires d.DateTime? && d.year >= 100
    ensures ParseLocalDate(Some(FormatLocalDate(d))) == Some(DateTime(d.year, d.month, d.day, 0, 0, 0))
    ensures ParseLocalDateEnd(Some(FormatLocalDate(d))) == Some(DateTime(d.year, d.month, d.day, 23, 59, 59))
  {
    FormatSplits(d);
    ParseDigitPieces(FormatLocalDate(d), d.year, d.month + 1, d.day, 0, 0, 0);
    ParseDigitPieces(FormatLocalDate(d), d.year, d.month + 1, d.day, 23, 59, 59);
  }

  /**
   * The two-digit-year rule of `new Date` breaks the round trip below year
   * 100: a date of year 0 to 99 comes back 1900 years later.
   */
  lemma TwoDigitYearsComeBackIn1900s(d: JsDate)
    requires d.DateTime? && 0 <= d.year < 100 && d.day <= DaysInMonth(1900 + d.year, d.month)
    ensures ParseLocalDate(Some(FormatLocalDate(d))) == Some(DateTime(1900 + d.year, d.month, d.day, 0, 0, 0))
  {
    FormatSplits(d);
    ParseDigitPieces(FormatLocalDate(d), d.year, d.month + 1, d.day, 0, 0, 0);
  }
}
