/** `get_month_diff`: the signed number of months between two `YYYY-MM` strings. */
module Util {
  import opened Wrappers
  import opened MonthFormat

  /**
   * `get_month_diff(month1, month2)`: months from `month2` to `month1`, positive when `month1` is
   * later. `None` stands for the `ValueError` raised when either string is not `%Y-%m`.
   */
  function MonthDiff(month1: string, month2: string): (d: Option<int>)
    ensures d.Some? <==> ParseYearMonth(month1).Some? && ParseYearMonth(month2).Some?
    ensures d.Some? ==>
      var a, b := ParseYearMonth(month1).value, ParseYearMonth(month2).value;
      d.value == 12 * (a.year - b.year) + (a.month - b.month)
  {
    var dt1 := ParseYearMonth(month1);
    var dt2 := ParseYearMonth(month2);
    if dt1.None? || dt2.None? then None
    else Some((dt1.value.year - dt2.value.year) * 12 + (dt1.value.month - dt2.value.month))
  }

  /** The difference is positive exactly when the first month is strictly later. */
  lemma MonthDiffPositiveIffLater(month1: string, month2: string)
    requires MonthDiff(month1, month2).Some?
    ensures MonthDiff(month1, month2).value > 0
        <==> !NotAfter(ParseYearMonth(month1).value, ParseYearMonth(month2).value)
  {
    NotAfterIsIndexOrder(ParseYearMonth(month1).value, ParseYearMonth(month2).value);
  }

  /** A month is zero months from itself. */
  lemma MonthDiffSelf(month: string)
    requires ParseYearMonth(month).Some?
    ensures MonthDiff(month, month) == Some(0)
  {
  }

  /** Swapping the arguments negates the difference. */
  lemma MonthDiffAntisymmetric(month1: string, month2: string)
    requires MonthDiff(month1, month2).Some?
    ensures MonthDiff(month2, month1) == Some(-MonthDiff(month1, month2).value)
  {
  }

  /** Differences add up along a chain of months. */
  lemma MonthDiffChain(a: string, b: string, c: string)
    requires MonthDiff(a, b).Some? && MonthDiff(b, c).Some?
    ensures MonthDiff(a, c) == Some(MonthDiff(a, b).value + MonthDiff(b, c).value)
  {
  }

  /** The difference only depends on the months denoted, not on how the month is padded. */
  lemma MonthDiffOfCanonical(month1: string, month2: string)
    requires MonthDiff(month1, month2).Some?
    ensures MonthDiff(FormatYearMonth(ParseYearMonth(month1).value), FormatYearMonth(ParseYearMonth(month2).value))
         == MonthDiff(month1, month2)
  {
    FormatThenParse(ParseYearMonth(month1).value);
    FormatThenParse(ParseYearMonth(month2).value);
  }
}
