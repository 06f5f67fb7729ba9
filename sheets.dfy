/**
 * What the PDF invoices are made from: a frame of rows, a totals row appended at the end,
 * and the rendering of the chosen columns with a `$` before every present value of a dollar
 * column and an empty string for every missing value.
 */
module Sheets {
  import opened Wrappers
  import opened Frames
  import opened Records

  /** A rendered frame: its column list and, per row, one cell per column. */
  datatype Sheet = Sheet(columns: seq<Column>, rows: seq<seq<Cell>>)

  /** `f"${data}"` on a present value; `show` prints a number as Python does. */
  function DollarCell(cell: Cell, show: real -> string): (d: Cell)
    requires cell != Absent
    ensures d.Text? && |d.s| >= 1 && d.s[0] == '$'
  {
    match cell
    case Text(s) => Text("$" + s)
    case Number(x) => Text("$" + show(x))
  }

  /** One output cell: dollar prefix in dollar columns, then `fillna("")`. */
  function RenderCell(r: Row, c: Column, dollarColumns: seq<Column>, show: real -> string): (cell: Cell)
    ensures CellOf(r, c) == Absent ==> cell == Text("")
    ensures CellOf(r, c) != Absent && c in dollarColumns ==> cell == DollarCell(CellOf(r, c), show)
    ensures CellOf(r, c) != Absent && c !in dollarColumns ==> cell == CellOf(r, c)
  {
    var v := CellOf(r, c);
    if v == Absent then Text("")
    else if c in dollarColumns then DollarCell(v, show)
    else v
  }

  /** The frame's rows rendered over `columns`. */
  function Render(rows: seq<Row>, columns: seq<Column>, dollarColumns: seq<Column>, show: real -> string): (sheet: Sheet)
    ensures sheet.columns == columns
    ensures |sheet.rows| == |rows|
    ensures forall i :: 0 <= i < |rows| ==> |sheet.rows[i]| == |columns|
    ensures forall i, k :: 0 <= i < |rows| && 0 <= k < |columns| ==>
              sheet.rows[i][k] == RenderCell(rows[i], columns[k], dollarColumns, show)
  {
    Sheet(columns,
          seq(|rows|, i requires 0 <= i < |rows| =>
            seq(|columns|, k requires 0 <= k < |columns| => RenderCell(rows[i], columns[k], dollarColumns, show))))
  }

  /** No missing value survives rendering, and every dollar cell that had a value starts with `$`. */
  lemma RenderedCellsFilled(rows: seq<Row>, columns: seq<Column>, dollarColumns: seq<Column>, show: real -> string, i: int, k: int)
    requires 0 <= i < |rows| && 0 <= k < |columns|
    ensures Render(rows, columns, dollarColumns, show).rows[i][k] != Absent
    ensures columns[k] in dollarColumns && CellOf(rows[i], columns[k]) != Absent ==>
              Render(rows, columns, dollarColumns, show).rows[i][k].s[0] == '$'
  {
  }

  /** Every column listed holds amounts. */
  predicate AmountColumns(cols: seq<Column>) {
    forall k :: 0 <= k < |cols| ==> IsAmountColumn(cols[k])
  }

  /** `row.loc[cols] = sums`: each listed amount column takes the matching value. */
  function SetAmounts(r: Row, cols: seq<Column>, sums: seq<real>): Row
    requires |cols| == |sums| && AmountColumns(cols)
    decreases |cols|
  {
    if cols == [] then r
    else SetAmount(SetAmounts(r, cols[..|cols| - 1], sums[..|sums| - 1]), cols[|cols| - 1], sums[|sums| - 1])
  }

  /** Setting several amounts leaves every unlisted column as it was. */
  lemma {:induction false} SetAmountsOther(r: Row, cols: seq<Column>, sums: seq<real>, d: Column)
    requires |cols| == |sums| && AmountColumns(cols)
    requires d !in cols
    ensures CellOf(SetAmounts(r, cols, sums), d) == CellOf(r, d)
    decreases |cols|
  {
    if cols != [] {
      var n := |cols| - 1;
      assert cols[..n] + [cols[n]] == cols;
      SetAmountsOther(r, cols[..n], sums[..n], d);
    }
  }

  /** Setting several amounts gives each listed column its own value. */
  lemma {:induction false} SetAmountsListed(r: Row, cols: seq<Column>, sums: seq<real>, k: int)
    requires |cols| == |sums| && AmountColumns(cols) && NoDuplicates(cols)
    requires 0 <= k < |cols|
    ensures AmountOf(SetAmounts(r, cols, sums), cols[k]) == Some(sums[k])
    decreases |cols|
  {
    var n := |cols| - 1;
    var init := cols[..n];
    if k < n {
      assert init[k] == cols[k];
      assert NoDuplicates(init);
      SetAmountsListed(r, init, sums[..n], k);
      assert cols[k] != cols[n];
      var before := SetAmounts(r, init, sums[..n]);
      assert CellOf(SetAmount(before, cols[n], sums[n]), cols[k]) == CellOf(before, cols[k]);
    }
  }

  /** pandas `.sum()` of each listed column. */
  function ColumnSums(rows: seq<Row>, cols: seq<Column>): (sums: seq<real>)
    requires AmountColumns(cols)
    ensures |sums| == |cols|
    ensures forall k :: 0 <= k < |cols| ==> sums[k] == SumPresent(Amounts(rows, cols[k]))
  {
    seq(|cols|, k requires 0 <= k < |cols| => SumPresent(Amounts(rows, cols[k])))
  }

  /** The appended totals row: a blank row labelled "Total" holding the sum of each listed column. */
  function TotalRow(rows: seq<Row>, cols: seq<Column>): Row
    requires AmountColumns(cols)
  {
    SetAmounts(BLANK.(invoiceMonth := Some("Total")), cols, ColumnSums(rows, cols))
  }

  /** The totals row is labelled "Total". */
  lemma TotalRowLabel(rows: seq<Row>, cols: seq<Column>)
    requires AmountColumns(cols)
    ensures CellOf(TotalRow(rows, cols), InvoiceDate) == Text("Total")
  {
    SetAmountsOther(BLANK.(invoiceMonth := Some("Total")), cols, ColumnSums(rows, cols), InvoiceDate);
  }

  /** The totals row holds, in each listed column, the sum of that column's present values. */
  lemma TotalRowSum(rows: seq<Row>, cols: seq<Column>, d: Column)
    requires AmountColumns(cols) && NoDuplicates(cols)
    requires d in cols
    ensures AmountOf(TotalRow(rows, cols), d) == Some(SumPresent(Amounts(rows, d)))
  {
    var k :| 0 <= k < |cols| && cols[k] == d;
    SetAmountsListed(BLANK.(invoiceMonth := Some("Total")), cols, ColumnSums(rows, cols), k);
  }

  /** The totals row is empty in every column that is neither the label nor listed. */
  lemma TotalRowBlank(rows: seq<Row>, cols: seq<Column>, d: Column)
    requires AmountColumns(cols)
    requires d != InvoiceDate && d !in cols
    ensures CellOf(TotalRow(rows, cols), d) == Absent
  {
    SetAmountsOther(BLANK.(invoiceMonth := Some("Total")), cols, ColumnSums(rows, cols), d);
  }

  /**
   * The sum-row block of both PDF invoices: the sum of each listed column, collected in a loop,
   * set on a blank row labelled "Total".
   */
  method SumRow(rows: seq<Row>, totalColumns: seq<Column>) returns (total: Row)
    requires AmountColumns(totalColumns)
    ensures total == TotalRow(rows, totalColumns)
  {
    var columnSums: seq<real> := [];
    var sumColumnsList: seq<Column> := [];
    for k := 0 to |totalColumns|
      invariant sumColumnsList == totalColumns[..k]
      invariant columnSums == ColumnSums(rows, sumColumnsList)
    {
      var c := totalColumns[k];
      columnSums := columnSums + [SumPresent(Amounts(rows, c))];
      sumColumnsList := sumColumnsList + [c];
      assert totalColumns[..k + 1] == totalColumns[..k] + [c];
    }
    assert totalColumns[..|totalColumns|] == totalColumns;
    total := BLANK.(invoiceMonth := Some("Total"));
    total := SetAmounts(total, sumColumnsList, columnSums);
  }
}
