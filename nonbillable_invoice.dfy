/**
 * The non-billable invoice: every row the billable-PI processor marked as not billable.
 */
module NonbillableInvoice {
  import opened Wrappers
  import opened Frames
  import opened Records
  import opened ValidateBillablePiProcessor

  /** The exported columns; unlike the billable invoices, the cluster name is included. */
  const EXPORT_COLUMNS: seq<Column> :=
    [InvoiceDate, Project, ProjectId, Pi, ClusterName, InvoiceEmail, InvoiceAddress, Institution,
     InstitutionId, SuHours, SuType, Rate, Cost]

  /** Thirteen distinct columns, the cluster name among them and no prepay-group or credit column. */
  lemma ExportColumnsFixed()
    ensures |EXPORT_COLUMNS| == 13 && NoDuplicates(EXPORT_COLUMNS)
    ensures ClusterName in EXPORT_COLUMNS
    ensures forall c :: c in [GroupName, GroupInstitution, GroupBalance, GroupBalanceUsed, Credit, CreditCode, Balance] ==> c !in EXPORT_COLUMNS
  {
  }

  /** `~data[IS_BILLABLE]`. */
  predicate NotBillable(r: Row) {
    r.isBillable == Some(false)
  }

  /**
   * `_prepare_export`: the export data is an order-preserving subset of the data, holding exactly
   * the rows marked not billable. The invoice's stored PI and project lists play no part.
   */
  function PrepareExport(data: seq<Row>): (exportData: seq<Row>)
    ensures Subsequence(exportData, data)
    ensures forall r :: r in exportData <==> r in data && r.isBillable == Some(false)
  {
    WhereSubsequence(data, NotBillable);
    assert forall r :: r in Where(data, NotBillable) <==> r in data && NotBillable(r) by {
      forall r
        ensures r in Where(data, NotBillable) <==> r in data && NotBillable(r)
      {
        WhereMembers(data, NotBillable, r);
      }
    }
    Where(data, NotBillable)
  }

  /** No row is both on the non-billable invoice and among the rows the PI and group invoices bill. */
  lemma DisjointFromBilledRows(data: seq<Row>, r: Row)
    ensures !(r in PrepareExport(data) && r in Where(data, Invoiceable))
  {
    WhereMembers(data, Invoiceable, r);
  }
}
