/**
 * The billable-PI processor: it marks each row billable or not and flags rows whose PI is
 * missing.  A row is not billable when its PI is on the non-billable PI list, when its project
 * (compared case-insensitively) is non-billable on every cluster or on the row's own cluster,
 * or when it runs on a non-billable cluster.
 *
 * The project test is computed, as in the source, through a left merge of the rows with the
 * non-billable project table; the merged rows are then read back by position.
 */
module ValidateBillablePiProcessor {
  import opened Wrappers
  import opened Frames
  import opened Strings
  import opened Records

  /** Clusters none of whose projects are billable. */
  const NONBILLABLE_CLUSTERS: seq<string> := ["ocp-test"]

  predicate NonbillableCluster(cluster: Option<string>) {
    cluster.Some? && cluster.value in NONBILLABLE_CLUSTERS
  }

  /** Lower-casing a project column that holds a missing value fails, so every row needs one. */
  predicate ProjectsPresent(data: seq<Row>) {
    forall k :: 0 <= k < |data| ==> data[k].project.Some?
  }

  // ---------------------------------------------------------------------------------------
  // Reference rule, row by row

  /** The project of `row` is billable: not excluded everywhere, not excluded on its cluster, and not on a non-billable cluster. */
  predicate ProjectBillable(row: Row, table: seq<NonbillableProject>)
    requires row.project.Some?
  {
    var p := Lower(row.project.value);
    && !(exists k :: 0 <= k < |table| && table[k].cluster.None? && Lower(table[k].name) == p)
    && !(exists k :: 0 <= k < |table| && table[k].cluster == row.clusterName && Lower(table[k].name) == p)
    && !NonbillableCluster(row.clusterName)
  }

  /** The PI of `row` is billable; a missing PI is not on the list. */
  predicate PiBillable(row: Row, nonbillablePis: seq<string>) {
    !(row.pi.Some? && row.pi.value in nonbillablePis)
  }

  // ---------------------------------------------------------------------------------------
  // The merge-based computation

  /** A table entry matches the merge key of a row: lower-cased name and cluster, missing matching missing. */
  function MatchesKey(project: string, cluster: Option<string>): NonbillableProject -> bool {
    (e: NonbillableProject) => Lower(e.name) == project && e.cluster == cluster
  }

  /** How many table entries a row with this key joins with. */
  function MatchCount(project: string, cluster: Option<string>, table: seq<NonbillableProject>): nat {
    |Where(table, MatchesKey(project, cluster))|
  }

  lemma MatchCountZeroIff(project: string, cluster: Option<string>, table: seq<NonbillableProject>)
    ensures MatchCount(project, cluster, table) == 0 <==>
              !(exists k :: 0 <= k < |table| && table[k].cluster == cluster && Lower(table[k].name) == project)
  {
    WhereEmptyIff(table, MatchesKey(project, cluster));
  }

  /** The merge indicator: whether a merged row found a partner in the table. */
  datatype Source = LeftOnly | Both

  /** The columns of a merged row the masks read: lower-cased project, cluster, indicator. */
  datatype MergedRow = MergedRow(project: string, cluster: Option<string>, source: Source)

  /** A left join of one row: one merged row per matching entry, or a single unmatched row. */
  function JoinRow(project: string, cluster: Option<string>, table: seq<NonbillableProject>): (m: seq<MergedRow>)
    ensures |m| == if MatchCount(project, cluster, table) == 0 then 1 else MatchCount(project, cluster, table)
    ensures forall k :: 0 <= k < |m| ==>
              m[k] == MergedRow(project, cluster, if MatchCount(project, cluster, table) == 0 then LeftOnly else Both)
  {
    var n := MatchCount(project, cluster, table);
    if n == 0 then [MergedRow(project, cluster, LeftOnly)]
    else seq(n, _ => MergedRow(project, cluster, Both))
  }

  /** `pandas.merge(data_lowercase, table_lowercase, how="left", indicator=...)`, row by row in order. */
  function LeftMerge(data: seq<Row>, table: seq<NonbillableProject>): (m: seq<MergedRow>)
    requires ProjectsPresent(data)
    ensures |m| >= |data|
    decreases |data|
  {
    if data == [] then []
    else JoinRow(Lower(data[0].project.value), data[0].clusterName, table) + LeftMerge(data[1..], table)
  }

  function LowerName(e: NonbillableProject): NonbillableProject {
    e.(name := Lower(e.name))
  }

  predicate IsClusterAgnostic(e: NonbillableProject) {
    e.cluster.None?
  }

  function NameOf(e: NonbillableProject): string {
    e.name
  }

  /** The lower-cased names of the entries with no cluster, each once. */
  function ClusterAgnosticProjects(table: seq<NonbillableProject>): seq<string> {
    Distinct(MapSeq(Where(MapSeq(table, LowerName), IsClusterAgnostic), NameOf))
  }

  lemma ClusterAgnosticMembers(table: seq<NonbillableProject>, x: string)
    ensures x in ClusterAgnosticProjects(table) <==>
              exists k :: 0 <= k < |table| && table[k].cluster.None? && Lower(table[k].name) == x
  {
    var lowered := MapSeq(table, LowerName);
    var agnostic := Where(lowered, IsClusterAgnostic);
    var names := MapSeq(agnostic, NameOf);
    if x in names {
      var j :| 0 <= j < |names| && names[j] == x;
      WhereMembers(lowered, IsClusterAgnostic, agnostic[j]);
      var k :| 0 <= k < |lowered| && lowered[k] == agnostic[j];
      assert table[k].cluster.None? && Lower(table[k].name) == x;
    }
    if exists k :: 0 <= k < |table| && table[k].cluster.None? && Lower(table[k].name) == x {
      var k :| 0 <= k < |table| && table[k].cluster.None? && Lower(table[k].name) == x;
      WhereMembers(lowered, IsClusterAgnostic, lowered[k]);
      var j :| 0 <= j < |agnostic| && agnostic[j] == lowered[k];
      assert names[j] == x;
    }
  }

  /** The three masks combined on one merged row. */
  function MergedBillable(agnostic: seq<string>): MergedRow -> bool {
    (m: MergedRow) => m.project !in agnostic && m.source != Both && !NonbillableCluster(m.cluster)
  }

  /** `find_billable_projects`: one flag per merged row, so more flags than rows when a row joins twice. */
  function FindBillableProjects(data: seq<Row>, table: seq<NonbillableProject>): (mask: seq<bool>)
    requires ProjectsPresent(data)
    ensures |mask| == |LeftMerge(data, table)|
  {
    MapSeq(LeftMerge(data, table), MergedBillable(ClusterAgnosticProjects(table)))
  }

  /** Every row joins with at most one table entry (the table has no repeated name and cluster). */
  predicate NoJoinDuplication(data: seq<Row>, table: seq<NonbillableProject>)
    requires ProjectsPresent(data)
  {
    forall k :: 0 <= k < |data| ==> MatchCount(Lower(data[k].project.value), data[k].clusterName, table) <= 1
  }

  /** One row's merged flag is the reference rule. */
  lemma JoinRowBillable(row: Row, table: seq<NonbillableProject>)
    requires row.project.Some?
    requires MatchCount(Lower(row.project.value), row.clusterName, table) <= 1
    ensures |JoinRow(Lower(row.project.value), row.clusterName, table)| == 1
    ensures MergedBillable(ClusterAgnosticProjects(table))(JoinRow(Lower(row.project.value), row.clusterName, table)[0])
            == ProjectBillable(row, table)
  {
    var p := Lower(row.project.value);
    MatchCountZeroIff(p, row.clusterName, table);
    ClusterAgnosticMembers(table, p);
  }

  /**
   * When no row joins twice, the merge keeps one row per input row and the returned mask is,
   * position by position, the reference rule.
   */
  lemma {:induction false} FindBillableProjectsPerRow(data: seq<Row>, table: seq<NonbillableProject>)
    requires ProjectsPresent(data)
    requires NoJoinDuplication(data, table)
    ensures |FindBillableProjects(data, table)| == |data|
    ensures forall i :: 0 <= i < |data| ==> FindBillableProjects(data, table)[i] == ProjectBillable(data[i], table)
    decreases |data|
  {
    if data != [] {
      var rest := data[1..];
      assert forall k :: 0 <= k < |rest| ==> rest[k] == data[k + 1];
      FindBillableProjectsPerRow(rest, table);
      JoinRowBillable(data[0], table);
      var head := JoinRow(Lower(data[0].project.value), data[0].clusterName, table);
      var f := MergedBillable(ClusterAgnosticProjects(table));
      MapSeqAppend(head, LeftMerge(rest, table), f);
      assert FindBillableProjects(data, table) == MapSeq(head, f) + FindBillableProjects(rest, table);
    }
  }

  // ---------------------------------------------------------------------------------------
  // The processor

  /** `_validate_pi_names`: the missing-PI flag of each row. */
  function ValidatePiNames(data: seq<Row>): (missing: seq<bool>)
    ensures |missing| == |data|
    ensures forall i :: 0 <= i < |data| ==> (missing[i] <==> data[i].pi.None?)
  {
    seq(|data|, i requires 0 <= i < |data| => data[i].pi.None?)
  }

  /**
   * `_get_billables` as written: the PI mask is indexed by row, the project mask by merged
   * row, and the combination is read back by position, so the two line up only while no row
   * has joined twice.
   */
  function GetBillablesAsWritten(data: seq<Row>, nonbillablePis: seq<string>, table: seq<NonbillableProject>): (b: seq<bool>)
    requires ProjectsPresent(data)
    ensures |b| == |data|
  {
    var projectMask := FindBillableProjects(data, table);
    seq(|data|, i requires 0 <= i < |data| => PiBillable(data[i], nonbillablePis) && projectMask[i])
  }

  /** `_get_billables`: each row billable exactly when its PI and its project are. */
  function GetBillables(data: seq<Row>, nonbillablePis: seq<string>, table: seq<NonbillableProject>): (b: seq<bool>)
    requires ProjectsPresent(data)
    ensures |b| == |data|
    ensures forall i :: 0 <= i < |data| ==>
              (b[i] <==> PiBillable(data[i], nonbillablePis) && ProjectBillable(data[i], table))
  {
    seq(|data|, i requires 0 <= i < |data| => PiBillable(data[i], nonbillablePis) && ProjectBillable(data[i], table))
  }

  /** Without repeated table entries the merge-based computation gives the row-by-row rule. */
  lemma GetBillablesAsWrittenAgrees(data: seq<Row>, nonbillablePis: seq<string>, table: seq<NonbillableProject>)
    requires ProjectsPresent(data)
    requires NoJoinDuplication(data, table)
    ensures GetBillablesAsWritten(data, nonbillablePis, table) == GetBillables(data, nonbillablePis, table)
  {
    FindBillableProjectsPerRow(data, table);
  }

  /** Two rows on one cluster; the first one's project is listed twice in the table. */
  function DuplicateExampleRows(): seq<Row> {
    [BLANK.(project := Some("a"), clusterName := Some("c1")), BLANK.(project := Some("b"), clusterName := Some("c1"))]
  }

  function DuplicateExampleTable(): seq<NonbillableProject> {
    [NonbillableProject("a", Some("c1")), NonbillableProject("a", Some("c1"))]
  }

  /**
   * A table listing the same project and cluster twice shifts the flags: the second row below
   * is billable by every rule, yet reads the flag of the duplicated merged row.
   */
  lemma DuplicateEntryShiftsFlags()
    ensures GetBillablesAsWritten(DuplicateExampleRows(), [], DuplicateExampleTable()) == [false, false]
    ensures GetBillables(DuplicateExampleRows(), [], DuplicateExampleTable()) == [false, true]
  {
    DuplicateEntryMerge();
    DuplicateEntryRowRule();
  }

  /** The merge-based flags of the example: the duplicated merged row hides the second row's flag. */
  lemma DuplicateEntryMerge()
    ensures GetBillablesAsWritten(DuplicateExampleRows(), [], DuplicateExampleTable()) == [false, false]
  {
    var rows := DuplicateExampleRows();
    var table := DuplicateExampleTable();
    var both := MergedRow("a", Some("c1"), Both);
    DuplicateExampleMerged();
    var mask := FindBillableProjects(rows, table);
    assert mask[0] == MergedBillable(ClusterAgnosticProjects(table))(both) == false;
    assert mask[1] == MergedBillable(ClusterAgnosticProjects(table))(both) == false;
  }

  /** The example's merge: the first row joins both table entries, the second none. */
  lemma DuplicateExampleMerged()
    ensures LeftMerge(DuplicateExampleRows(), DuplicateExampleTable())
            == [MergedRow("a", Some("c1"), Both), MergedRow("a", Some("c1"), Both), MergedRow("b", Some("c1"), LeftOnly)]
  {
    var rows := DuplicateExampleRows();
    var table := DuplicateExampleTable();
    var b := rows[1];
    LowerOfLowerCase("a");
    LowerOfLowerCase("b");
    assert Where(table, MatchesKey("a", Some("c1"))) == table;
    assert Where(table, MatchesKey("b", Some("c1"))) == [];
    assert rows[1..] == [b] && [b][1..] == [];
    var ja := JoinRow("a", Some("c1"), table);
    var jb := JoinRow("b", Some("c1"), table);
    assert LeftMerge([b], table) == jb + [];
    assert LeftMerge(rows, table) == ja + jb;
  }

  /** The row-by-row flags of the example: only the first row's project is listed. */
  lemma DuplicateEntryRowRule()
    ensures GetBillables(DuplicateExampleRows(), [], DuplicateExampleTable()) == [false, true]
  {
    var rows := DuplicateExampleRows();
    var table := DuplicateExampleTable();
    LowerOfLowerCase("a");
    LowerOfLowerCase("b");
    MatchCountZeroIff("b", Some("c1"), table);
    ClusterAgnosticMembers(table, "b");
    assert ProjectBillable(rows[1], table);
  }

  /** Three rows, the last on the test cluster; the first one's project is listed twice. */
  function ShiftedClusterExampleRows(): seq<Row> {
    [BLANK.(project := Some("q"), clusterName := Some("c1")),
     BLANK.(project := Some("p"), clusterName := Some("c1")),
     BLANK.(project := Some("r"), clusterName := Some("ocp-test"))]
  }

  function ShiftedClusterExampleTable(): seq<NonbillableProject> {
    [NonbillableProject("q", Some("c1")), NonbillableProject("q", Some("c1"))]
  }

  /** The example's merge: the first row joins both table entries, the others none. */
  lemma ShiftedClusterExampleMerged()
    ensures LeftMerge(ShiftedClusterExampleRows(), ShiftedClusterExampleTable())
            == [MergedRow("q", Some("c1"), Both), MergedRow("q", Some("c1"), Both),
                MergedRow("p", Some("c1"), LeftOnly), MergedRow("r", Some("ocp-test"), LeftOnly)]
  {
    var rows := ShiftedClusterExampleRows();
    var table := ShiftedClusterExampleTable();
    LowerOfLowerCase("q");
    assert Where(table, MatchesKey("q", Some("c1"))) == table;
    ShiftedClusterExampleTail();
    assert LeftMerge(rows, table) == JoinRow("q", Some("c1"), table) + LeftMerge(rows[1..], table);
  }

  /** The example's last two rows join no table entry. */
  lemma ShiftedClusterExampleTail()
    ensures LeftMerge(ShiftedClusterExampleRows()[1..], ShiftedClusterExampleTable())
            == [MergedRow("p", Some("c1"), LeftOnly), MergedRow("r", Some("ocp-test"), LeftOnly)]
  {
    var rows := ShiftedClusterExampleRows();
    var table := ShiftedClusterExampleTable();
    var p := rows[1];
    var r := rows[2];
    LowerOfLowerCase("q");
    LowerOfLowerCase("p");
    LowerOfLowerCase("r");
    assert Where(table, MatchesKey("p", Some("c1"))) == [];
    assert Where(table, MatchesKey("r", Some("ocp-test"))) == [];
    assert rows[1..] == [p, r] && [p, r][1..] == [r] && [r][1..] == [];
    assert LeftMerge([r], table) == JoinRow("r", Some("ocp-test"), table) + [];
    assert LeftMerge([p, r], table) == JoinRow("p", Some("c1"), table) + LeftMerge([r], table);
  }

  /**
   * The code as written bills the test-cluster row of the example: it reads the flag of the
   * second row's merged row, which passes every test.
   */
  lemma AsWrittenBillsTestCluster()
    ensures ShiftedClusterExampleRows()[2].clusterName == Some("ocp-test")
    ensures ClassifyAsWritten(ShiftedClusterExampleRows(), [], ShiftedClusterExampleTable())[2].isBillable == Some(true)
  {
    ShiftedClusterFlag();
  }

  /** The merge-based flag the example's third row reads is the second row's, which passes. */
  lemma ShiftedClusterFlag()
    ensures GetBillablesAsWritten(ShiftedClusterExampleRows(), [], ShiftedClusterExampleTable())[2]
  {
    var rows := ShiftedClusterExampleRows();
    var table := ShiftedClusterExampleTable();
    ShiftedClusterExampleMerged();
    ClusterAgnosticMembers(table, "p");
    var mask := FindBillableProjects(rows, table);
    assert mask[2] == MergedBillable(ClusterAgnosticProjects(table))(MergedRow("p", Some("c1"), LeftOnly)) == true;
  }

  /** A row whose PI is on the list is never billable. */
  lemma NonbillablePiExcluded(data: seq<Row>, nonbillablePis: seq<string>, table: seq<NonbillableProject>, i: int)
    requires ProjectsPresent(data) && 0 <= i < |data|
    requires data[i].pi.Some? && data[i].pi.value in nonbillablePis
    ensures !GetBillables(data, nonbillablePis, table)[i]
  {
  }

  /** A row on a non-billable cluster is never billable. */
  lemma NonbillableClusterExcluded(data: seq<Row>, nonbillablePis: seq<string>, table: seq<NonbillableProject>, i: int)
    requires ProjectsPresent(data) && 0 <= i < |data|
    requires data[i].clusterName == Some("ocp-test")
    ensures !GetBillables(data, nonbillablePis, table)[i]
  {
  }

  /** A project listed for every cluster is excluded whatever the case of either spelling. */
  lemma ProjectMatchIgnoresCase(data: seq<Row>, nonbillablePis: seq<string>, table: seq<NonbillableProject>, i: int, k: int)
    requires ProjectsPresent(data) && 0 <= i < |data| && 0 <= k < |table|
    requires table[k].cluster.None? && Lower(table[k].name) == Lower(data[i].project.value)
    ensures !GetBillables(data, nonbillablePis, table)[i]
  {
  }

  /** Set the "Is Billable" column. */
  function WithIsBillable(rows: seq<Row>, flags: seq<bool>): (r: seq<Row>)
    requires |flags| == |rows|
    ensures |r| == |rows|
    ensures forall i :: 0 <= i < |rows| ==> r[i] == rows[i].(isBillable := Some(flags[i]))
  {
    seq(|rows|, i requires 0 <= i < |rows| => rows[i].(isBillable := Some(flags[i])))
  }

  /** Set the "Missing PI" column. */
  function WithMissingPi(rows: seq<Row>, flags: seq<bool>): (r: seq<Row>)
    requires |flags| == |rows|
    ensures |r| == |rows|
    ensures forall i :: 0 <= i < |rows| ==> r[i] == rows[i].(missingPi := Some(flags[i]))
  {
    seq(|rows|, i requires 0 <= i < |rows| => rows[i].(missingPi := Some(flags[i])))
  }

  /** A row the invoices bill: billable and with a PI. */
  predicate Invoiceable(row: Row) {
    row.isBillable == Some(true) && row.missingPi == Some(false)
  }

  /**
   * The data after `_process`: the "Is Billable" column, then the "Missing PI" column, and no
   * other change.  A row is then invoiceable exactly when its PI is present and both its PI and
   * its project are billable.
   */
  function Classify(data: seq<Row>, nonbillablePis: seq<string>, table: seq<NonbillableProject>): (r: seq<Row>)
    requires ProjectsPresent(data)
    ensures |r| == |data|
    ensures forall i :: 0 <= i < |data| ==>
              r[i] == data[i].(isBillable := Some(PiBillable(data[i], nonbillablePis) && ProjectBillable(data[i], table)),
                               missingPi := Some(data[i].pi.None?))
    ensures Classified(r)
    ensures forall i :: 0 <= i < |data| ==>
              (Invoiceable(r[i]) <==>
                 data[i].pi.Some? && data[i].pi.value !in nonbillablePis && ProjectBillable(data[i], table))
  {
    var billable := WithIsBillable(data, GetBillables(data, nonbillablePis, table));
    WithMissingPi(billable, ValidatePiNames(billable))
  }

  /**
   * The data after `_process` as the code computes it: the "Is Billable" column takes the
   * merge-based flags by position, then the "Missing PI" column is set.  The PI test is still
   * applied row by row, so a listed PI is never billable; the project flags are the row's own
   * only when no row joins twice (`ClassifyAsWrittenAgrees`).
   */
  function ClassifyAsWritten(data: seq<Row>, nonbillablePis: seq<string>, table: seq<NonbillableProject>): (r: seq<Row>)
    requires ProjectsPresent(data)
    ensures |r| == |data|
    ensures Classified(r)
    ensures forall i :: 0 <= i < |data| ==>
              && r[i].missingPi == Some(data[i].pi.None?)
              && r[i].isBillable == Some(GetBillablesAsWritten(data, nonbillablePis, table)[i])
              && r[i].(isBillable := data[i].isBillable, missingPi := data[i].missingPi) == data[i]
    ensures forall i :: 0 <= i < |data| && r[i].isBillable == Some(true) ==> PiBillable(data[i], nonbillablePis)
  {
    var billable := WithIsBillable(data, GetBillablesAsWritten(data, nonbillablePis, table));
    WithMissingPi(billable, ValidatePiNames(billable))
  }

  /** When no row joins twice, the code's classification is the row-by-row one. */
  lemma ClassifyAsWrittenAgrees(data: seq<Row>, nonbillablePis: seq<string>, table: seq<NonbillableProject>)
    requires ProjectsPresent(data)
    requires NoJoinDuplication(data, table)
    ensures ClassifyAsWritten(data, nonbillablePis, table) == Classify(data, nonbillablePis, table)
  {
    GetBillablesAsWrittenAgrees(data, nonbillablePis, table);
  }

  class ValidateBillablePIsProcessor {
    var data: seq<Row>
    const nonbillablePis: seq<string>
    const nonbillableProjects: seq<NonbillableProject>

    constructor(data: seq<Row>, nonbillablePis: seq<string>, nonbillableProjects: seq<NonbillableProject>)
      ensures this.data == data
      ensures this.nonbillablePis == nonbillablePis
      ensures this.nonbillableProjects == nonbillableProjects
    {
      this.data := data;
      this.nonbillablePis := nonbillablePis;
      this.nonbillableProjects := nonbillableProjects;
    }

    /**
     * `_process`: computes the billable flags, stores them, then computes and stores the
     * missing-PI flags; when no row joins twice this is the row-by-row classification.
     */
    method Process()
      requires ProjectsPresent(data)
      modifies this
      ensures data == ClassifyAsWritten(old(data), nonbillablePis, nonbillableProjects)
      ensures NoJoinDuplication(old(data), nonbillableProjects) ==>
                data == Classify(old(data), nonbillablePis, nonbillableProjects)
    {
      ghost var data0 := data;
      var billable := GetBillablesAsWritten(data, nonbillablePis, nonbillableProjects);
      data := WithIsBillable(data, billable);
      var missing := ValidatePiNames(data);
      data := WithMissingPi(data, missing);
      if NoJoinDuplication(data0, nonbillableProjects) {
        ClassifyAsWrittenAgrees(data0, nonbillablePis, nonbillableProjects);
      }
    }
  }
}
