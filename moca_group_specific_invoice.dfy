/**
 * The prepaid-group invoice: one PDF per prepay group, listing the group's billable projects,
 * one row per prepay credit the group receives in the invoice month, and a totals row.
 */
module MocaGroupSpecificInvoice {
  import opened Wrappers
  import opened Frames
  import opened Records
  import opened Sheets
  import opened ValidateBillablePiProcessor

  /** Columns a credit row takes over from the group's first row. */
  const CREDIT_COLUMN_COPY_LIST: seq<Column> := [InvoiceDate, InvoiceEmail, GroupName, GroupInstitution]

  /** Columns summed in the totals row. */
  const TOTAL_COLUMN_LIST: seq<Column> := [Cost, GroupBalanceUsed, Credit, Balance]

  /** Columns whose present values are shown with a `$`. */
  const DOLLAR_COLUMN_LIST: seq<Column> := [Rate, GroupBalance, Cost, GroupBalanceUsed, Credit, Balance]

  /** The columns of the exported frame, in order. */
  const EXPORT_COLUMNS: seq<Column> :=
    [InvoiceDate, Project, ProjectId, Pi, InvoiceEmail, InvoiceAddress, Institution, InstitutionId,
     SuHours, SuType, Rate, GroupName, GroupInstitution, GroupBalance, Cost, GroupBalanceUsed,
     Credit, CreditCode, Balance]

  /** The totalled columns hold amounts and are listed once each. */
  lemma TotalColumnsWellFormed()
    ensures AmountColumns(TOTAL_COLUMN_LIST) && NoDuplicates(TOTAL_COLUMN_LIST)
  {
  }

  function InGroup(group: string): Row -> bool {
    (r: Row) => r.groupName == Some(group)
  }

  predicate HasGroup(r: Row) {
    r.groupName.Some?
  }

  predicate InvoiceableInGroup(r: Row) {
    Invoiceable(r) && HasGroup(r)
  }

  function GroupNameOf(r: Row): Option<string> {
    r.groupName
  }

  /** A prepay credit for `group` dated exactly `month`. */
  function CreditFor(month: string, group: string): PrepayCredit -> bool {
    (c: PrepayCredit) => c.month == Some(month) && c.groupName == Some(group)
  }

  function CreditOf(c: PrepayCredit): Option<real> {
    c.credit
  }

  // ---------------------------------------------------------------------------------------
  // Credit rows

  /** `dst.loc[cols] = src.loc[cols]`, one column after another. */
  function CopyColumns(dst: Row, src: Row, cols: seq<Column>): Row
    decreases |cols|
  {
    if cols == [] then dst
    else CopyCell(CopyColumns(dst, src, cols[..|cols| - 1]), src, cols[|cols| - 1])
  }

  /** Copied columns hold the source's values, the others keep the destination's. */
  lemma {:induction false} CopyColumnsCells(dst: Row, src: Row, cols: seq<Column>, c: Column)
    ensures CellOf(CopyColumns(dst, src, cols), c) == if c in cols then CellOf(src, c) else CellOf(dst, c)
    decreases |cols|
  {
    if cols != [] {
      var n := |cols| - 1;
      CopyColumnsCells(dst, src, cols[..n], c);
      assert cols == cols[..n] + [cols[n]];
    }
  }

  /** Copying a row onto itself changes nothing. */
  lemma {:induction false} CopyColumnsSelf(r: Row, cols: seq<Column>)
    ensures CopyColumns(r, r, cols) == r
    decreases |cols|
  {
    if cols != [] {
      CopyColumnsSelf(r, cols[..|cols| - 1]);
      var c := cols[|cols| - 1];
      assert CopyCell(r, r, c) == r;
    }
  }

  /** The two rows agree on the columns a credit row copies. */
  predicate SameCopyColumns(a: Row, b: Row) {
    && a.invoiceMonth == b.invoiceMonth
    && a.invoiceEmail == b.invoiceEmail
    && a.groupName == b.groupName
    && a.groupInstitution == b.groupInstitution
  }

  /** Copying one of those columns from either row gives the same result. */
  lemma CopyCellFromSame(dst: Row, a: Row, b: Row, c: Column)
    requires SameCopyColumns(a, b) && c in CREDIT_COLUMN_COPY_LIST
    ensures CopyCell(dst, a, c) == CopyCell(dst, b, c)
  {
  }

  /** The row the copied values come from: the group's first row, else the blank first credit row. */
  function CopySource(groupRows: seq<Row>): Row {
    if |groupRows| > 0 then groupRows[0] else BLANK
  }

  /** A credit row: the four copied columns from the source, Cost and Balance equal to the credit. */
  function CreditRow(src: Row, credit: Option<real>): Row {
    BLANK.(invoiceMonth := src.invoiceMonth, invoiceEmail := src.invoiceEmail,
           groupName := src.groupName, groupInstitution := src.groupInstitution,
           cost := credit, balance := credit)
  }

  /** Copying the credit columns onto a blank row and setting Cost and Balance builds the credit row. */
  lemma CopyColumnsMakeCreditRow(src: Row, credit: Option<real>)
    ensures CopyColumns(BLANK, src, CREDIT_COLUMN_COPY_LIST).(cost := credit, balance := credit) == CreditRow(src, credit)
  {
    var c3: seq<Column> := [InvoiceDate, InvoiceEmail, GroupName];
    CopyFirstCreditColumns(src);
    CopyColumnsStep(BLANK, src, c3, GroupInstitution);
    assert c3 + [GroupInstitution] == CREDIT_COLUMN_COPY_LIST;
  }

  /** The first three credit columns copied onto a blank row. */
  lemma CopyFirstCreditColumns(src: Row)
    ensures CopyColumns(BLANK, src, [InvoiceDate, InvoiceEmail, GroupName])
            == BLANK.(invoiceMonth := src.invoiceMonth, invoiceEmail := src.invoiceEmail, groupName := src.groupName)
  {
    var c1: seq<Column> := [InvoiceDate];
    var c2: seq<Column> := [InvoiceDate, InvoiceEmail];
    CopyColumnsStep(BLANK, src, [], InvoiceDate);
    assert [] + [InvoiceDate] == c1;
    assert CopyColumns(BLANK, src, c1) == BLANK.(invoiceMonth := src.invoiceMonth);
    CopyColumnsStep(BLANK, src, c1, InvoiceEmail);
    assert c1 + [InvoiceEmail] == c2;
    CopyColumnsStep(BLANK, src, c2, GroupName);
    assert c2 + [GroupName] == [InvoiceDate, InvoiceEmail, GroupName];
  }

  /** Copying one more column copies the others first, then that one. */
  lemma CopyColumnsStep(dst: Row, src: Row, cols: seq<Column>, c: Column)
    ensures CopyColumns(dst, src, cols + [c]) == CopyCell(CopyColumns(dst, src, cols), src, c)
  {
    assert (cols + [c])[..|cols|] == cols;
  }

  function CreditRows(src: Row, credits: seq<PrepayCredit>): (rows: seq<Row>)
    ensures |rows| == |credits|
    ensures forall j :: 0 <= j < |credits| ==> rows[j] == CreditRow(src, credits[j].credit)
  {
    seq(|credits|, j requires 0 <= j < |credits| => CreditRow(src, credits[j].credit))
  }

  /** One more credit adds its credit row at the end. */
  lemma CreditRowsSnoc(src: Row, cs: seq<PrepayCredit>, i: int)
    requires 0 <= i < |cs|
    ensures CreditRows(src, cs[..i + 1]) == CreditRows(src, cs[..i]) + [CreditRow(src, cs[i].credit)]
  {
  }

  // ---------------------------------------------------------------------------------------
  // The group frame

  /** The group's rows followed by one credit row per credit. */
  function GroupBody(groupRows: seq<Row>, cs: seq<PrepayCredit>): seq<Row> {
    groupRows + CreditRows(CopySource(groupRows), cs)
  }

  /** Body and totals row over the selected rows and credits. */
  function GroupTable(groupRows: seq<Row>, cs: seq<PrepayCredit>): seq<Row> {
    GroupBody(groupRows, cs) + [TotalRow(GroupBody(groupRows, cs), TOTAL_COLUMN_LIST)]
  }

  /** The frame of `_get_group_dataframe` before rendering: the group's rows and its credits of the month. */
  function GroupFrame(data: seq<Row>, group: string, month: string, credits: seq<PrepayCredit>): seq<Row> {
    GroupTable(Where(data, InGroup(group)), Where(credits, CreditFor(month, group)))
  }

  /**
   * The frame is the group's rows in order, one row per credit of the month, then a row
   * labelled "Total".
   */
  lemma GroupFrameShape(data: seq<Row>, group: string, month: string, credits: seq<PrepayCredit>)
    ensures var groupRows := Where(data, InGroup(group));
            var cs := Where(credits, CreditFor(month, group));
            var frame := GroupFrame(data, group, month, credits);
            && |frame| == |groupRows| + |cs| + 1
            && frame[..|groupRows|] == groupRows
            && (forall k :: 0 <= k < |groupRows| ==> frame[k].groupName == Some(group))
            && (forall j :: 0 <= j < |cs| ==> cs[j].month == Some(month) && cs[j].groupName == Some(group))
            && CellOf(frame[|frame| - 1], InvoiceDate) == Text("Total")
  {
    var groupRows := Where(data, InGroup(group));
    var cs := Where(credits, CreditFor(month, group));
    TableShape(groupRows, cs);
    forall k | 0 <= k < |groupRows|
      ensures groupRows[k].groupName == Some(group)
    {
      assert InGroup(group)(groupRows[k]);
    }
    forall j | 0 <= j < |cs|
      ensures cs[j].month == Some(month) && cs[j].groupName == Some(group)
    {
      assert CreditFor(month, group)(cs[j]);
    }
  }

  lemma TableShape(groupRows: seq<Row>, cs: seq<PrepayCredit>)
    ensures var t := GroupTable(groupRows, cs);
            && |t| == |groupRows| + |cs| + 1
            && t[..|groupRows|] == groupRows
            && t[|t| - 1] == TotalRow(GroupBody(groupRows, cs), TOTAL_COLUMN_LIST)
            && CellOf(t[|t| - 1], InvoiceDate) == Text("Total")
  {
    var body := GroupBody(groupRows, cs);
    TotalColumnsWellFormed();
    TotalRowLabel(body, TOTAL_COLUMN_LIST);
    assert GroupTable(groupRows, cs)[..|groupRows|] == body[..|groupRows|];
  }

  /** Position `|groupRows| + j` of the table is the credit row of the `j`-th credit. */
  lemma CreditRowAt(groupRows: seq<Row>, cs: seq<PrepayCredit>, j: int)
    requires 0 <= j < |cs|
    ensures GroupTable(groupRows, cs)[|groupRows| + j] == CreditRow(CopySource(groupRows), cs[j].credit)
  {
  }

  /**
   * A credit row bills the credit in Cost and Balance, copies invoice month, e-mail, group name
   * and group institution from its source row, and is empty in every other column.
   */
  lemma CreditRowCells(src: Row, credit: Option<real>, c: Column)
    ensures var row := CreditRow(src, credit);
            && row.cost == credit && row.balance == credit
            && (c in CREDIT_COLUMN_COPY_LIST ==> CellOf(row, c) == CellOf(src, c))
            && (c !in CREDIT_COLUMN_COPY_LIST && c != Cost && c != Balance ==> CellOf(row, c) == Absent)
  {
  }

  /** With no rows for the group the copied values are missing. */
  lemma CopySourceOfEmptyGroup(groupRows: seq<Row>, c: Column)
    requires groupRows == [] && c in CREDIT_COLUMN_COPY_LIST
    ensures CellOf(CopySource(groupRows), c) == Absent
  {
  }

  function CreditAmounts(cs: seq<PrepayCredit>): seq<Option<real>> {
    MapSeq(cs, CreditOf)
  }

  /** The credit rows add the credits to Cost and Balance and nothing to the other totalled columns. */
  lemma CreditRowAmounts(src: Row, cs: seq<PrepayCredit>)
    ensures Amounts(CreditRows(src, cs), Cost) == CreditAmounts(cs)
    ensures Amounts(CreditRows(src, cs), Balance) == CreditAmounts(cs)
    ensures SumPresent(Amounts(CreditRows(src, cs), GroupBalanceUsed)) == 0.0
    ensures SumPresent(Amounts(CreditRows(src, cs), Credit)) == 0.0
  {
    SumAllMissing(Amounts(CreditRows(src, cs), GroupBalanceUsed));
    SumAllMissing(Amounts(CreditRows(src, cs), Credit));
  }

  /** A totals row over two stacked blocks adds the two blocks' sums. */
  lemma StackedTotal(a: seq<Row>, b: seq<Row>, c: Column)
    requires c in TOTAL_COLUMN_LIST
    ensures AmountOf(TotalRow(a + b, TOTAL_COLUMN_LIST), c) == Some(SumPresent(Amounts(a, c)) + SumPresent(Amounts(b, c)))
  {
    TotalColumnsWellFormed();
    TotalRowSum(a + b, TOTAL_COLUMN_LIST, c);
    AmountsAppend(a, b, c);
    SumAppend(Amounts(a, c), Amounts(b, c));
  }

  /**
   * A column the credit rows bill (Cost, Balance): its total adds the credits to the group's
   * values, missing values counting as nothing.
   */
  lemma BilledTotal(groupRows: seq<Row>, cs: seq<PrepayCredit>, c: Column)
    requires c == Cost || c == Balance
    ensures AmountOf(TotalRow(GroupBody(groupRows, cs), TOTAL_COLUMN_LIST), c)
              == Some(SumPresent(Amounts(groupRows, c)) + SumPresent(CreditAmounts(cs)))
  {
    var crs := CreditRows(CopySource(groupRows), cs);
    CreditRowAmounts(CopySource(groupRows), cs);
    StackedTotal(groupRows, crs, c);
  }

  /** A totalled column the credit rows leave empty (prepaid used, Credit): its total is the group's own. */
  lemma OwnTotal(groupRows: seq<Row>, cs: seq<PrepayCredit>, c: Column)
    requires c == GroupBalanceUsed || c == Credit
    ensures AmountOf(TotalRow(GroupBody(groupRows, cs), TOTAL_COLUMN_LIST), c) == Some(SumPresent(Amounts(groupRows, c)))
  {
    var crs := CreditRows(CopySource(groupRows), cs);
    CreditRowAmounts(CopySource(groupRows), cs);
    StackedTotal(groupRows, crs, c);
  }

  /** A group project row carrying the amount columns the totals read. */
  function ProjectRow(group: string, cost: real, used: real, credit: Option<real>, balance: real): Row {
    BLANK.(groupName := Some(group), cost := Some(cost), groupBalanceUsed := Some(used),
           credit := credit, balance := Some(balance))
  }

  /** Three projects of group G1: balances 100, 200, 300; prepaid used 1000, 2000, 0; credits 50, none, 50. */
  function ExampleGroupRows(): seq<Row> {
    [ProjectRow("G1", 0.0, 1000.0, Some(50.0), 100.0),
     ProjectRow("G1", 0.0, 2000.0, None, 200.0),
     ProjectRow("G1", 0.0, 0.0, Some(50.0), 300.0)]
  }

  /** One prepay credit of 5000 for G1 in 2024-01. */
  function ExampleCredits(): seq<PrepayCredit> {
    [PrepayCredit(Some("2024-01"), Some("G1"), Some(5000.0))]
  }

  lemma ExampleColumnSums()
    ensures SumPresent(Amounts(ExampleGroupRows(), Cost)) == 0.0
    ensures SumPresent(Amounts(ExampleGroupRows(), GroupBalanceUsed)) == 3000.0
    ensures SumPresent(Amounts(ExampleGroupRows(), Credit)) == 100.0
    ensures SumPresent(Amounts(ExampleGroupRows(), Balance)) == 600.0
    ensures SumPresent(CreditAmounts(ExampleCredits())) == 5000.0
  {
    var data := ExampleGroupRows();
    assert Amounts(data, Cost) == [Some(0.0), Some(0.0), Some(0.0)];
    assert Amounts(data, GroupBalanceUsed) == [Some(1000.0), Some(2000.0), Some(0.0)];
    assert Amounts(data, Credit) == [Some(50.0), None, Some(50.0)];
    assert Amounts(data, Balance) == [Some(100.0), Some(200.0), Some(300.0)];
    assert CreditAmounts(ExampleCredits()) == [Some(5000.0)];
  }

  /** Every example row belongs to G1 and the credit is G1's for 2024-01, so nothing is filtered out. */
  lemma ExampleSelection()
    ensures GroupFrame(ExampleGroupRows(), "G1", "2024-01", ExampleCredits()) == GroupTable(ExampleGroupRows(), ExampleCredits())
  {
    WhereAll(ExampleGroupRows(), InGroup("G1"));
    WhereAll(ExampleCredits(), CreditFor("2024-01", "G1"));
  }

  /**
   * One group with three projects and one credit of 5000 in the month: a single credit row,
   * and totals of 5000 cost, 3000 prepaid used, 100 credit and 5600 balance.
   */
  lemma OneGroupTotalsExample()
    ensures var frame := GroupFrame(ExampleGroupRows(), "G1", "2024-01", ExampleCredits());
            && |frame| == 5
            && frame[3].cost == Some(5000.0) && frame[3].balance == Some(5000.0)
            && AmountOf(frame[4], Cost) == Some(5000.0)
            && AmountOf(frame[4], GroupBalanceUsed) == Some(3000.0)
            && AmountOf(frame[4], Credit) == Some(100.0)
            && AmountOf(frame[4], Balance) == Some(5600.0)
  {
    var data := ExampleGroupRows();
    var credits := ExampleCredits();
    ExampleSelection();
    TableShape(data, credits);
    CreditRowAt(data, credits, 0);
    BilledTotal(data, credits, Cost);
    BilledTotal(data, credits, Balance);
    OwnTotal(data, credits, GroupBalanceUsed);
    OwnTotal(data, credits, Credit);
    ExampleColumnSums();
  }

  /** Credits dated in other months, or for other groups, add no row. */
  lemma OtherMonthsExcluded(data: seq<Row>, group: string, month: string, credits: seq<PrepayCredit>)
    requires forall k :: 0 <= k < |credits| ==> credits[k].month != Some(month) || credits[k].groupName != Some(group)
    ensures |GroupFrame(data, group, month, credits)| == |Where(data, InGroup(group))| + 1
  {
    WhereEmptyIff(credits, CreditFor(month, group));
    GroupFrameShape(data, group, month, credits);
  }

  // ---------------------------------------------------------------------------------------
  // The invoice

  /** Names of the groups of `rows`, in first-appearance order, each once. */
  function GroupList(rows: seq<Row>): seq<string> {
    Distinct(PresentValues(MapSeq(rows, GroupNameOf)))
  }

  /** The group list names every group of the rows, once each. */
  lemma GroupListMembers(rows: seq<Row>, g: string)
    ensures g in GroupList(rows) <==> exists k :: 0 <= k < |rows| && rows[k].groupName == Some(g)
    ensures NoDuplicates(GroupList(rows))
  {
    var names := MapSeq(rows, GroupNameOf);
    PresentValuesMembers(names, g);
    if Some(g) in names {
      var k :| 0 <= k < |names| && names[k] == Some(g);
      assert rows[k].groupName == Some(g);
    }
    if exists k :: 0 <= k < |rows| && rows[k].groupName == Some(g) {
      var k :| 0 <= k < |rows| && rows[k].groupName == Some(g);
      assert names[k] == Some(g);
    }
  }

  /** Every listed group has at least one row, so its frame's copy source is its own first row. */
  lemma GroupListHasRows(rows: seq<Row>, g: string)
    requires g in GroupList(rows)
    ensures |Where(rows, InGroup(g))| > 0
  {
    GroupListMembers(rows, g);
    var k :| 0 <= k < |rows| && rows[k].groupName == Some(g);
    WhereEmptyIff(rows, InGroup(g));
    assert InGroup(g)(rows[k]);
  }

  /** The rows the invoice bills: billable, with a PI, and in a prepay group. */
  lemma PrepareKeepsExactly(data: seq<Row>)
    ensures Where(Where(data, Invoiceable), HasGroup) == Where(data, InvoiceableInGroup)
    ensures forall r :: r in Where(data, InvoiceableInGroup) <==> r in data && Invoiceable(r) && r.groupName.Some?
  {
    WhereWhere(data, Invoiceable, HasGroup, InvoiceableInGroup);
    forall r {
      WhereMembers(data, InvoiceableInGroup, r);
    }
  }

  class MOCAGroupInvoice {
    const invoiceMonth: string
    const prepayCredits: seq<PrepayCredit>
    var data: seq<Row>
    var exportData: seq<Row>
    var groupList: seq<string>

    constructor(invoiceMonth: string, data: seq<Row>, prepayCredits: seq<PrepayCredit>)
      ensures this.invoiceMonth == invoiceMonth && this.prepayCredits == prepayCredits
      ensures this.data == data && exportData == [] && groupList == []
    {
      this.invoiceMonth := invoiceMonth;
      this.prepayCredits := prepayCredits;
      this.data := data;
      exportData := [];
      groupList := [];
    }

    /** `_prepare`: keep the billable rows with a PI and a group; list their groups. */
    method Prepare()
      requires Classified(data)
      modifies this
      ensures data == old(data)
      ensures exportData == Where(Where(data, Invoiceable), HasGroup)
      ensures groupList == GroupList(exportData)
    {
      exportData := Where(data, Invoiceable);
      exportData := Where(exportData, HasGroup);
      groupList := GroupList(exportData);
    }

    /**
     * `_get_group_dataframe`: the group's rows, a credit row for each credit of the month,
     * a totals row, then rendering.
     */
    method GroupDataframe(data: seq<Row>, group: string, show: real -> string) returns (sheet: Sheet)
      ensures sheet == Render(GroupFrame(data, group, invoiceMonth, prepayCredits), EXPORT_COLUMNS, DOLLAR_COLUMN_LIST, show)
    {
      var groupProjects := Where(data, InGroup(group));
      var groupCreditInfo := Where(prepayCredits, CreditFor(invoiceMonth, group));
      groupProjects := AddCreditRows(groupProjects, groupCreditInfo);
      TotalColumnsWellFormed();
      var total := SumRow(groupProjects, TOTAL_COLUMN_LIST);
      groupProjects := groupProjects + [total];
      sheet := Render(groupProjects, EXPORT_COLUMNS, DOLLAR_COLUMN_LIST, show);
    }
  }

  /** One pass of the copy loop: the new row takes one more copied column, the rows before it stay. */
  lemma CopyStep(gp: seq<Row>, last: int, src: Row, k: int)
    requires 0 <= k < |CREDIT_COLUMN_COPY_LIST| && |gp| == last + 1 && last >= 0
    requires gp[last] == CopyColumns(BLANK, src, CREDIT_COLUMN_COPY_LIST[..k])
    requires SameCopyColumns(gp[0], src)
    requires last == 0 ==> src == BLANK
    ensures var gp' := gp[last := CopyCell(gp[last], gp[0], CREDIT_COLUMN_COPY_LIST[k])];
            && gp'[..last] == gp[..last]
            && gp'[last] == CopyColumns(BLANK, src, CREDIT_COLUMN_COPY_LIST[..k + 1])
            && SameCopyColumns(gp'[0], src)
  {
    var c := CREDIT_COLUMN_COPY_LIST[k];
    CopyCellFromSame(gp[last], gp[0], src, c);
    assert CREDIT_COLUMN_COPY_LIST[..k + 1][..k] == CREDIT_COLUMN_COPY_LIST[..k];
    if last == 0 {
      CopyColumnsSelf(BLANK, CREDIT_COLUMN_COPY_LIST[..k + 1]);
    }
  }

  /** Billing the credit in the copied row completes the next credit row; the first row keeps its copied columns. */
  lemma CreditStep(gp: seq<Row>, last: int, groupRows: seq<Row>, src: Row, cs: seq<PrepayCredit>, i: int)
    requires 0 <= i < |cs| && |gp| == last + 1 && last >= 0
    requires gp[..last] == groupRows + CreditRows(src, cs[..i])
    requires gp[last] == CopyColumns(BLANK, src, CREDIT_COLUMN_COPY_LIST[..|CREDIT_COLUMN_COPY_LIST|])
    requires SameCopyColumns(gp[0], src)
    requires last == 0 ==> src == BLANK
    ensures var gp' := gp[last := gp[last].(cost := cs[i].credit, balance := cs[i].credit)];
            && gp' == groupRows + CreditRows(src, cs[..i + 1])
            && SameCopyColumns(gp'[0], src)
  {
    assert CREDIT_COLUMN_COPY_LIST[..|CREDIT_COLUMN_COPY_LIST|] == CREDIT_COLUMN_COPY_LIST;
    var gp' := gp[last := gp[last].(cost := cs[i].credit, balance := cs[i].credit)];
    CopyColumnsMakeCreditRow(src, cs[i].credit);
    CreditRowsSnoc(src, cs, i);
    assert gp' == gp[..last] + [gp'[last]];
  }

  /**
   * The credit loop of `_get_group_dataframe`: per credit, append a blank row, copy the credit
   * columns into it from the frame's first row, and bill the credit in Cost and Balance.
   */
  method AddCreditRows(groupRows: seq<Row>, groupCreditInfo: seq<PrepayCredit>) returns (groupProjects: seq<Row>)
    ensures groupProjects == GroupBody(groupRows, groupCreditInfo)
  {
    groupProjects := groupRows;
    ghost var src := CopySource(groupRows);
    var i := 0;
    while i < |groupCreditInfo|
      invariant 0 <= i <= |groupCreditInfo|
      invariant groupProjects == groupRows + CreditRows(src, groupCreditInfo[..i])
      invariant |groupProjects| > 0 ==> SameCopyColumns(groupProjects[0], src)
      invariant groupRows == [] ==> src == BLANK
    {
      var groupCredit := groupCreditInfo[i].credit;
      groupProjects := groupProjects + [BLANK];
      var last := |groupProjects| - 1;
      assert last == 0 ==> src == BLANK;
      for k := 0 to |CREDIT_COLUMN_COPY_LIST|
        invariant |groupProjects| == last + 1
        invariant groupProjects[..last] == groupRows + CreditRows(src, groupCreditInfo[..i])
        invariant groupProjects[last] == CopyColumns(BLANK, src, CREDIT_COLUMN_COPY_LIST[..k])
        invariant SameCopyColumns(groupProjects[0], src)
      {
        CopyStep(groupProjects, last, src, k);
        groupProjects := groupProjects[last := CopyCell(groupProjects[last], groupProjects[0], CREDIT_COLUMN_COPY_LIST[k])];
      }
      CreditStep(groupProjects, last, groupRows, src, groupCreditInfo, i);
      groupProjects := groupProjects[last := groupProjects[last].(cost := groupCredit, balance := groupCredit)];
      i := i + 1;
    }
    assert groupCreditInfo[..i] == groupCreditInfo;
  }
}
