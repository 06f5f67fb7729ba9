/**
 * The bare-metal invoice: the rows whose project ID marks them as bare-metal usage.
 */
module BmInvoice {
  import opened Wrappers
  import opened Frames
  import opened Records
  import BmUsageProcessor

  /** The fifteen exported columns: no prepay-group and no cluster columns. */
  const EXPORT_COLUMNS: seq<Column> :=
    [InvoiceDate, Project, ProjectId, Pi, InvoiceEmail, InvoiceAddress, Institution, InstitutionId,
     SuHours, SuType, Rate, Cost, Credit, CreditCode, Balance]

  /** `data[PROJECT_ID] == "ESI Bare Metal"`. */
  predicate IsBareMetal(r: Row) {
    r.projectId == Some("ESI Bare Metal")
  }

  /**
   * `_prepare_export`: the export data is an order-preserving subset of the data, holding exactly
   * the bare-metal rows.
   */
  function PrepareExport(data: seq<Row>): (exportData: seq<Row>)
    ensures Subsequence(exportData, data)
    ensures forall r :: r in exportData <==> r in data && r.projectId == Some("ESI Bare Metal")
  {
    WhereSubsequence(data, IsBareMetal);
    assert forall r :: r in Where(data, IsBareMetal) <==> r in data && IsBareMetal(r) by {
      forall r
        ensures r in Where(data, IsBareMetal) <==> r in data && IsBareMetal(r)
      {
        WhereMembers(data, IsBareMetal, r);
      }
    }
    Where(data, IsBareMetal)
  }

  /** The export column list holds fifteen distinct columns, none of them a group or cluster column. */
  lemma ExportColumnsFixed()
    ensures |EXPORT_COLUMNS| == 15 && NoDuplicates(EXPORT_COLUMNS)
    ensures forall c :: c in [GroupName, GroupInstitution, GroupBalance, GroupBalanceUsed, ClusterName] ==> c !in EXPORT_COLUMNS
  {
  }

  /** Every row the bare-metal usage processor relabels is picked up by this invoice. */
  lemma RelabelledRowsSelected(rows: seq<Row>, mask: seq<bool>, i: int)
    requires BmUsageProcessor.SelectedHaveProjects(rows, mask)
    requires 0 <= i < |rows| && mask[i]
    ensures BmUsageProcessor.RelabelBareMetal(rows, mask)[i] in PrepareExport(BmUsageProcessor.RelabelBareMetal(rows, mask))
  {
    assert BmUsageProcessor.BM_PROJECT_ID == "ESI Bare Metal";
  }
}
