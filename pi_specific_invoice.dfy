/**
 * The PI-specific invoice: one PDF per PI, listing the PI's billable projects and a totals row,
 * with the prepay-group columns left out when none of the PI's projects is in a group.
 */
module PiSpecificInvoice {
  import opened Wrappers
  import opened Frames
  import opened Records
  import opened Sheets
  import opened ValidateBillablePiProcessor

  /** Columns summed in the totals row (no prepaid-used total). */
  const TOTAL_COLUMN_LIST: seq<Column> := [Cost, Credit, Balance]

  /** Columns whose present values are shown with a `$`. */
  const DOLLAR_COLUMN_LIST: seq<Column> := [Rate, GroupBalance, Cost, GroupBalanceUsed, Credit, Balance]

  /** The columns of the exported frame, in order. */
  const EXPORT_COLUMNS: seq<Column> :=
    [InvoiceDate, Project, ProjectId, Pi, InvoiceEmail, InvoiceAddress, Institution, InstitutionId,
     SuHours, SuType, Rate, GroupName, GroupInstitution, GroupBalance, Cost, GroupBalanceUsed,
     Credit, CreditCode, Balance]

  /** The prepay-group columns, dropped from a PI's frame when it has no group data. */
  const GROUP_COLUMNS: seq<Column> := [GroupName, GroupInstitution, GroupBalance, GroupBalanceUsed]

  lemma TotalColumnsWellFormed()
    ensures AmountColumns(TOTAL_COLUMN_LIST) && NoDuplicates(TOTAL_COLUMN_LIST)
  {
  }

  function PiOf(r: Row): Option<string> {
    r.pi
  }

  function HasPi(pi: string): Row -> bool {
    (r: Row) => r.pi == Some(pi)
  }

  predicate NotGroupColumn(c: Column) {
    c !in GROUP_COLUMNS
  }

  /** `pandas.isna(pi_projects[GROUP_NAME]).all()`: no row names a prepay group (true on no rows). */
  predicate NoGroupData(rows: seq<Row>) {
    forall k :: 0 <= k < |rows| ==> rows[k].groupName.None?
  }

  /** The columns of a PI's frame: all export columns, less the group columns when there is no group data. */
  function PiColumns(piRows: seq<Row>): seq<Column> {
    if NoGroupData(piRows) then Where(EXPORT_COLUMNS, NotGroupColumn) else EXPORT_COLUMNS
  }

  /** The frame of `_get_pi_dataframe` before rendering: the PI's rows and a totals row. */
  function PiFrame(data: seq<Row>, pi: string): seq<Row> {
    var piRows := Where(data, HasPi(pi));
    piRows + [TotalRow(piRows, TOTAL_COLUMN_LIST)]
  }

  /** `_prepare`'s PI list: the distinct PIs of the kept rows, in first-appearance order, a missing PI included. */
  function PiList(exportData: seq<Row>): seq<Option<string>> {
    Distinct(MapSeq(exportData, PiOf))
  }

  /** `_prepare` keeps exactly the billable rows with a PI, in their order. */
  lemma PrepareKeepsExactly(data: seq<Row>)
    ensures Subsequence(Where(data, Invoiceable), data)
    ensures forall r :: r in Where(data, Invoiceable) <==> r in data && r.isBillable == Some(true) && r.missingPi == Some(false)
  {
    WhereSubsequence(data, Invoiceable);
    forall r {
      WhereMembers(data, Invoiceable, r);
    }
  }

  /** The PI list names every PI of the kept rows once. */
  lemma PiListMembers(exportData: seq<Row>, p: Option<string>)
    ensures p in PiList(exportData) <==> exists k :: 0 <= k < |exportData| && exportData[k].pi == p
    ensures NoDuplicates(PiList(exportData))
  {
    var pis := MapSeq(exportData, PiOf);
    if p in pis {
      var k :| 0 <= k < |pis| && pis[k] == p;
      assert exportData[k].pi == p;
    }
    if exists k :: 0 <= k < |exportData| && exportData[k].pi == p {
      var k :| 0 <= k < |exportData| && exportData[k].pi == p;
      assert pis[k] == p;
    }
  }

  /** Every PI listed has at least one row, so its frame has at least one project row. */
  lemma PiListHasRows(exportData: seq<Row>, pi: string)
    requires Some(pi) in PiList(exportData)
    ensures |Where(exportData, HasPi(pi))| > 0
  {
    PiListMembers(exportData, Some(pi));
    var k :| 0 <= k < |exportData| && exportData[k].pi == Some(pi);
    WhereEmptyIff(exportData, HasPi(pi));
    assert HasPi(pi)(exportData[k]);
  }

  /**
   * When the missing-PI flag says exactly whether the PI is missing, as the billable-PI processor
   * sets it, no missing PI reaches the list.
   */
  lemma MissingPiNeverListed(data: seq<Row>)
    requires forall k :: 0 <= k < |data| ==> data[k].missingPi == Some(data[k].pi.None?)
    ensures None !in PiList(Where(data, Invoiceable))
  {
    var exportData := Where(data, Invoiceable);
    PiListMembers(exportData, None);
    forall k | 0 <= k < |exportData|
      ensures exportData[k].pi.Some?
    {
      WhereMembers(data, Invoiceable, exportData[k]);
    }
  }

  /** The frame is the PI's rows in order, then a row labelled "Total": one row more than the PI has. */
  lemma PiFrameShape(data: seq<Row>, pi: string)
    ensures var piRows := Where(data, HasPi(pi));
            var frame := PiFrame(data, pi);
            && |frame| == |piRows| + 1
            && frame[..|piRows|] == piRows
            && Subsequence(piRows, data)
            && (forall r :: r in piRows <==> r in data && r.pi == Some(pi))
            && CellOf(frame[|piRows|], InvoiceDate) == Text("Total")
  {
    var piRows := Where(data, HasPi(pi));
    WhereSubsequence(data, HasPi(pi));
    forall r {
      WhereMembers(data, HasPi(pi), r);
    }
    TotalColumnsWellFormed();
    TotalRowLabel(piRows, TOTAL_COLUMN_LIST);
    assert PiFrame(data, pi)[..|piRows|] == piRows;
  }

  /**
   * The totals row holds the sums of Cost, Credit and Balance over the PI's rows and nothing in
   * any other column, so no prepaid-used total.
   */
  lemma PiTotals(data: seq<Row>, pi: string, c: Column)
    ensures var piRows := Where(data, HasPi(pi));
            var total := PiFrame(data, pi)[|piRows|];
            && (c in TOTAL_COLUMN_LIST ==> AmountOf(total, c) == Some(SumPresent(Amounts(piRows, c))))
            && (c != InvoiceDate && c !in TOTAL_COLUMN_LIST ==> CellOf(total, c) == Absent)
  {
    var piRows := Where(data, HasPi(pi));
    TotalColumnsWellFormed();
    if c in TOTAL_COLUMN_LIST {
      TotalRowSum(piRows, TOTAL_COLUMN_LIST, c);
    } else if c != InvoiceDate {
      TotalRowBlank(piRows, TOTAL_COLUMN_LIST, c);
    }
  }

  /**
   * A group column is shown exactly when some row of the PI names a group; the other export
   * columns are always shown.
   */
  lemma GroupColumnsDroppedIff(piRows: seq<Row>, c: Column)
    requires c in EXPORT_COLUMNS
    ensures c in GROUP_COLUMNS ==> (c in PiColumns(piRows) <==> exists k :: 0 <= k < |piRows| && piRows[k].groupName.Some?)
    ensures c !in GROUP_COLUMNS ==> c in PiColumns(piRows)
  {
    var kept := Where(EXPORT_COLUMNS, NotGroupColumn);
    if NoGroupData(piRows) {
      assert PiColumns(piRows) == kept;
      WhereMembers(EXPORT_COLUMNS, NotGroupColumn, c);
    } else {
      assert PiColumns(piRows) == EXPORT_COLUMNS;
    }
  }

  /** The file `name/institution_pi_month.pdf` one PI's invoice is written to. */
  function PdfPath(name: string, institution: string, pi: string, month: string): string {
    name + "/" + institution + "_" + pi + "_" + month + ".pdf"
  }

  /** `pi_dataframe[INSTITUTION].iat[0]` after `fillna("")`: the first row's institution, or "". */
  function FirstInstitution(frame: seq<Row>): string {
    if |frame| > 0 && frame[0].institution.Some? then frame[0].institution.value else ""
  }

  /** One PI's invoice: where it is written and what it shows. */
  datatype PiPdf = PiPdf(path: string, sheet: Sheet)

  /** The invoice for one PI: its frame rendered over its columns, written under the first row's institution. */
  function PiInvoice(name: string, month: string, exportData: seq<Row>, show: real -> string, pi: string): PiPdf {
    var frame := PiFrame(exportData, pi);
    PiPdf(PdfPath(name, FirstInstitution(frame), pi, month),
          Render(frame, PiColumns(Where(exportData, HasPi(pi))), DOLLAR_COLUMN_LIST, show))
  }

  function PiInvoiceFor(name: string, month: string, exportData: seq<Row>, show: real -> string): string -> PiPdf {
    (pi: string) => PiInvoice(name, month, exportData, show, pi)
  }

  /** The first row of the PI's frame is the PI's first project row. */
  lemma PdfPathUsesFirstProject(exportData: seq<Row>, pi: string)
    requires |Where(exportData, HasPi(pi))| > 0
    ensures var first := Where(exportData, HasPi(pi))[0];
            && first.pi == Some(pi)
            && FirstInstitution(PiFrame(exportData, pi)) == if first.institution.Some? then first.institution.value else ""
  {
    assert HasPi(pi)(Where(exportData, HasPi(pi))[0]);
  }

  /**
   * The export writes one invoice per present PI of the list: with the list duplicate-free,
   * exactly one fewer than the list has entries when a missing PI is on it.
   */
  lemma ExportSkipsMissingPi(piList: seq<Option<string>>, f: string -> PiPdf)
    requires NoDuplicates(piList)
    ensures |MapSeq(PresentValues(piList), f)| == if None in piList then |piList| - 1 else |piList|
  {
    PresentValuesLength(piList);
  }

  /** Each invoice written is the invoice of a PI on the list, in list order. */
  lemma ExportEntries(piList: seq<Option<string>>, f: string -> PiPdf, k: int)
    requires 0 <= k < |PresentValues(piList)|
    ensures Some(PresentValues(piList)[k]) in piList
    ensures MapSeq(PresentValues(piList), f)[k] == f(PresentValues(piList)[k])
  {
    PresentValuesMembers(piList, PresentValues(piList)[k]);
  }

  class PIInvoice {
    const name: string
    const invoiceMonth: string
    var data: seq<Row>
    var exportData: seq<Row>
    var piList: seq<Option<string>>

    constructor(name: string, invoiceMonth: string, data: seq<Row>)
      ensures this.name == name && this.invoiceMonth == invoiceMonth
      ensures this.data == data && exportData == [] && piList == []
    {
      this.name := name;
      this.invoiceMonth := invoiceMonth;
      this.data := data;
      exportData := [];
      piList := [];
    }

    /** `_prepare`: keep the billable rows with a PI; list their PIs. */
    method Prepare()
      requires Classified(data)
      modifies this
      ensures data == old(data)
      ensures exportData == Where(data, Invoiceable)
      ensures piList == PiList(exportData)
    {
      exportData := Where(data, Invoiceable);
      piList := PiList(exportData);
    }

    /**
     * `_get_pi_dataframe`: the PI's rows, the group columns dropped when no row names a group,
     * a totals row, then rendering.
     */
    method PiDataframe(data: seq<Row>, pi: string, show: real -> string) returns (sheet: Sheet)
      ensures sheet == Render(PiFrame(data, pi), PiColumns(Where(data, HasPi(pi))), DOLLAR_COLUMN_LIST, show)
    {
      var piProjects := Where(data, HasPi(pi));
      var columns := EXPORT_COLUMNS;
      if forall k :: 0 <= k < |piProjects| ==> piProjects[k].groupName.None? {
        columns := Where(columns, NotGroupColumn);
      }
      TotalColumnsWellFormed();
      var total := SumRow(piProjects, TOTAL_COLUMN_LIST);
      piProjects := piProjects + [total];
      sheet := Render(piProjects, columns, DOLLAR_COLUMN_LIST, show);
    }

    /** `export`: one invoice per PI of the list, skipping a missing PI. */
    method Export(show: real -> string) returns (pdfs: seq<PiPdf>)
      ensures pdfs == MapSeq(PresentValues(piList), PiInvoiceFor(name, invoiceMonth, exportData, show))
    {
      var pis := piList;
      var data := exportData;
      var f := PiInvoiceFor(name, invoiceMonth, data, show);
      pdfs := [];
      var i := 0;
      while i < |pis|
        invariant 0 <= i <= |pis|
        invariant pdfs == MapSeq(PresentValues(pis[..i]), f)
      {
        var p := pis[i];
        MapPresentValuesSnoc(pis, i, f);
        if p.None? {
          i := i + 1;
          continue;
        }
        var sheet := PiDataframe(data, p.value, show);
        var institution := FirstInstitution(PiFrame(data, p.value));
        pdfs := pdfs + [PiPdf(PdfPath(name, institution, p.value, invoiceMonth), sheet)];
        i := i + 1;
      }
      assert pis[..i] == pis;
    }
  }
}
