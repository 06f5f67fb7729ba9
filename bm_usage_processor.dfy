/**
 * The bare-metal usage processor: the rows of bare-metal projects are relabelled so the
 * bare-metal invoice can pick them out.  Which rows are bare metal is still a placeholder that
 * selects every row.
 */
module BmUsageProcessor {
  import opened Wrappers
  import opened Records

  const BM_SUFFIX := " BM Usage"
  const BM_PROJECT_ID := "ESI Bare Metal"
  const BM_INVOICE_EMAIL := "nclinton@bu.edu"

  /** `_get_bm_project_mask`: every row is selected. */
  function BmProjectMask(rows: seq<Row>): (mask: seq<bool>)
    ensures |mask| == |rows|
    ensures forall i :: 0 <= i < |rows| ==> mask[i]
  {
    seq(|rows|, _ => true)
  }

  /** Appending the suffix to a missing project name fails, so selected rows need one. */
  predicate SelectedHaveProjects(rows: seq<Row>, mask: seq<bool>) {
    |mask| == |rows| && forall i :: 0 <= i < |rows| && mask[i] ==> rows[i].project.Some?
  }

  /** The selected rows relabelled: suffixed project name, bare-metal project ID and invoice e-mail. */
  function RelabelBareMetal(rows: seq<Row>, mask: seq<bool>): (r: seq<Row>)
    requires SelectedHaveProjects(rows, mask)
    ensures |r| == |rows|
    ensures forall i :: 0 <= i < |rows| && !mask[i] ==> r[i] == rows[i]
    ensures forall i :: 0 <= i < |rows| && mask[i] ==>
              r[i] == rows[i].(project := r[i].project, projectId := r[i].projectId, invoiceEmail := r[i].invoiceEmail)
    ensures forall i :: 0 <= i < |rows| && mask[i] ==>
              && r[i].project == Some(rows[i].project.value + BM_SUFFIX)
              && r[i].projectId == Some(BM_PROJECT_ID)
              && r[i].invoiceEmail == Some(BM_INVOICE_EMAIL)
  {
    seq(|rows|, i requires 0 <= i < |rows| =>
      if mask[i] then
        rows[i].(project := Some(rows[i].project.value + BM_SUFFIX),
                 projectId := Some(BM_PROJECT_ID),
                 invoiceEmail := Some(BM_INVOICE_EMAIL))
      else rows[i])
  }

  /** A relabelled project name ends with the suffix and starts with the old name. */
  lemma RelabelKeepsName(rows: seq<Row>, mask: seq<bool>, i: int)
    requires SelectedHaveProjects(rows, mask) && 0 <= i < |rows| && mask[i]
    ensures var p := RelabelBareMetal(rows, mask)[i].project.value;
            && |p| == |rows[i].project.value| + |BM_SUFFIX|
            && p[..|rows[i].project.value|] == rows[i].project.value
            && p[|rows[i].project.value|..] == BM_SUFFIX
  {
  }

  /** Two rows whose names include spaces and dashes are both relabelled. */
  lemma RelabelExample()
    ensures var a := BLANK.(project := Some("test"));
            var b := BLANK.(project := Some("test bm-bm"));
            var r := RelabelBareMetal([a, b], BmProjectMask([a, b]));
            && r[0] == a.(project := Some("test BM Usage"), projectId := Some("ESI Bare Metal"), invoiceEmail := Some("nclinton@bu.edu"))
            && r[1] == b.(project := Some("test bm-bm BM Usage"), projectId := Some("ESI Bare Metal"), invoiceEmail := Some("nclinton@bu.edu"))
  {
    assert "test" + BM_SUFFIX == "test BM Usage";
    assert "test bm-bm" + BM_SUFFIX == "test bm-bm BM Usage";
  }

  class BMUsageProcessor {
    var data: seq<Row>

    constructor(data: seq<Row>)
      ensures this.data == data
    {
      this.data := data;
    }

    /** `_process`: relabel the rows the mask selects. */
    method Process()
      requires forall i :: 0 <= i < |data| ==> data[i].project.Some?
      modifies this
      ensures data == RelabelBareMetal(old(data), BmProjectMask(old(data)))
    {
      var mask := BmProjectMask(data);
      data := RelabelBareMetal(data, mask);
    }
  }
}
