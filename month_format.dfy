/**
 * Parsing of a year-month string with the `%Y-%m` format, as `datetime.strptime` does it:
 * exactly four digits, a dash, then a month matching `1[0-2]|0[1-9]|[1-9]`, with nothing left over,
 * and a year of at least 1.
 */
module MonthFormat {
  import opened Wrappers

  datatype YearMonth = YearMonth(year: int, month: int)

  predicate ValidYearMonth(ym: YearMonth) {
    1 <= ym.year <= 9999 && 1 <= ym.month <= 12
  }

  predicate IsDigit(c: char) {
    '0' <= c <= '9'
  }

  function DigitValue(c: char): (d: int)
    requires IsDigit(c)
    ensures 0 <= d <= 9
  {
    c as int - '0' as int
  }

  function DigitChar(d: int): (c: char)
    requires 0 <= d <= 9
    ensures IsDigit(c) && DigitValue(c) == d
  {
    (d + '0' as int) as char
  }

  /** The `%m` directive on what follows the dash; the whole remainder must be consumed. */
  function ParseMonth(t: string): (m: Option<int>)
    ensures m.Some? ==> 1 <= m.value <= 12
  {
    if |t| == 1 && '1' <= t[0] <= '9' then Some(DigitValue(t[0]))
    else if |t| == 2 && t[0] == '1' && '0' <= t[1] <= '2' then Some(10 + DigitValue(t[1]))
    else if |t| == 2 && t[0] == '0' && '1' <= t[1] <= '9' then Some(DigitValue(t[1]))
    else None
  }

  /** `datetime.strptime(s, "%Y-%m")`; `None` stands for the `ValueError` it raises. */
  function ParseYearMonth(s: string): (r: Option<YearMonth>)
    ensures r.Some? ==> ValidYearMonth(r.value)
    ensures r.Some? ==> (|s| == 6 || |s| == 7) && s[4] == '-'
  {
    if |s| < 6 || |s| > 7 || !(IsDigit(s[0]) && IsDigit(s[1]) && IsDigit(s[2]) && IsDigit(s[3])) || s[4] != '-' then None
    else
      var year := 1000 * DigitValue(s[0]) + 100 * DigitValue(s[1]) + 10 * DigitValue(s[2]) + DigitValue(s[3]);
      var month := ParseMonth(s[5..]);
      if year < 1 || month.None? then None else Some(YearMonth(year, month.value))
  }

  /** The canonical `YYYY-MM` spelling of a year and month. */
  function FormatYearMonth(ym: YearMonth): (s: string)
    requires ValidYearMonth(ym)
    ensures |s| == 7 && s[4] == '-'
  {
    var y := ym.year;
    [DigitChar(y / 1000), DigitChar(y / 100 % 10), DigitChar(y / 10 % 10), DigitChar(y % 10), '-',
     DigitChar(ym.month / 10), DigitChar(ym.month % 10)]
  }

  /** Two-digit month spelling reads back as the month. */
  lemma PaddedMonthParses(m: int)
    requires 1 <= m <= 12
    ensures ParseMonth([DigitChar(m / 10), DigitChar(m % 10)]) == Some(m)
  {
  }

  /** Four decimal digits of a year below 10000 read back as the year. */
  lemma YearDigits(y: int)
    requires 0 <= y <= 9999
    ensures y == 1000 * (y / 1000) + 100 * (y / 100 % 10) + 10 * (y / 10 % 10) + y % 10
  {
    assert y == 10 * (y / 10) + y % 10;
    assert y / 10 == 10 * (y / 100) + y / 10 % 10;
    assert y / 100 == 10 * (y / 1000) + y / 100 % 10;
  }

  /** Parsing the canonical spelling gives back the year and month. */
  lemma FormatThenParse(ym: YearMonth)
    requires ValidYearMonth(ym)
    ensures ParseYearMonth(FormatYearMonth(ym)) == Some(ym)
  {
    var s := FormatYearMonth(ym);
    YearDigits(ym.year);
    PaddedMonthParses(ym.month);
    assert s[5..] == [DigitChar(ym.month / 10), DigitChar(ym.month % 10)];
  }

  /** A string that parses is already in canonical form, or differs only by an unpadded month. */
  lemma ParseThenFormat(s: string)
    requires ParseYearMonth(s).Some?
    ensures |s| == 7 ==> FormatYearMonth(ParseYearMonth(s).value) == s
    ensures |s| == 6 ==> FormatYearMonth(ParseYearMonth(s).value) == s[..5] + ['0', s[5]]
  {
    var ym := ParseYearMonth(s).value;
    YearSpelling(s);
    MonthSpelling(s[5..]);
    var f := FormatYearMonth(ym);
    assert f[..5] == s[..5];
    assert f == f[..5] + [f[5], f[6]];
    if |s| == 7 {
      assert s == s[..5] + s[5..];
    }
  }

  /** The four year digits are the digits of the year they denote. */
  lemma YearSpelling(s: string)
    requires ParseYearMonth(s).Some?
    ensures var y := ParseYearMonth(s).value.year;
            [DigitChar(y / 1000), DigitChar(y / 100 % 10), DigitChar(y / 10 % 10), DigitChar(y % 10)] == s[..4]
  {
    var d0, d1, d2, d3 := DigitValue(s[0]), DigitValue(s[1]), DigitValue(s[2]), DigitValue(s[3]);
    DigitsOfNumber(d0, d1, d2, d3);
  }

  /** Reading four decimal digits as a number and taking it apart again gives the digits back. */
  lemma DigitsOfNumber(d0: int, d1: int, d2: int, d3: int)
    requires 0 <= d0 <= 9 && 0 <= d1 <= 9 && 0 <= d2 <= 9 && 0 <= d3 <= 9
    ensures var y := 1000 * d0 + 100 * d1 + 10 * d2 + d3;
            y / 1000 == d0 && y / 100 % 10 == d1 && y / 10 % 10 == d2 && y % 10 == d3
  {
    var y := 1000 * d0 + 100 * d1 + 10 * d2 + d3;
    assert y / 10 == 100 * d0 + 10 * d1 + d2;
    assert y / 100 == 10 * d0 + d1;
    assert y / 1000 == d0;
  }

  /** The two-digit spelling of a parsed month is the text itself, zero-padded when it had one digit. */
  lemma MonthSpelling(t: string)
    requires ParseMonth(t).Some?
    ensures var m := ParseMonth(t).value;
            [DigitChar(m / 10), DigitChar(m % 10)] == if |t| == 2 then t else ['0', t[0]]
  {
  }

  /** The months since year zero: the ordering key of a year-month. */
  function MonthIndex(ym: YearMonth): int {
    12 * ym.year + ym.month
  }

  /** `a` is no later than `b` (year first, then month). */
  predicate NotAfter(a: YearMonth, b: YearMonth) {
    a.year < b.year || (a.year == b.year && a.month <= b.month)
  }

  /** For valid year-months the calendar order is the order of month indices. */
  lemma NotAfterIsIndexOrder(a: YearMonth, b: YearMonth)
    requires ValidYearMonth(a) && ValidYearMonth(b)
    ensures NotAfter(a, b) <==> MonthIndex(a) <= MonthIndex(b)
  {
  }
}
