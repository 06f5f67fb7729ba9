/**
 * The record set the pipeline threads through its stages: one `Row` per project allocation and
 * month, every column possibly missing (pandas NaN is `None`), plus the side tables the invoices
 * read (prepay credits and contacts) and the non-billable project table.
 */
module Records {
  import opened Wrappers

  datatype Row = Row(
    invoiceMonth: Option<string>,      // "Invoice Month"
    project: Option<string>,           // "Project - Allocation" (a project name or ID)
    projectId: Option<string>,         // "Project - Allocation ID"
    pi: Option<string>,                // "Manager (PI)"
    clusterName: Option<string>,       // "Cluster Name"
    invoiceEmail: Option<string>,      // "Invoice Email"
    invoiceAddress: Option<string>,    // invoice address
    institution: Option<string>,       // "Institution"
    institutionId: Option<string>,     // "Institution - Specific Code"
    suHours: Option<real>,             // "SU Hours (GBhr or SUhr)"
    suType: Option<string>,            // SU type
    rate: Option<string>,              // "Rate", read as a decimal string
    groupName: Option<string>,         // "Prepaid Group Name"
    groupInstitution: Option<string>,  // "Prepaid Group Institution"
    groupBalance: Option<real>,        // "Prepaid Group Balance"
    cost: Option<real>,                // "Cost"
    groupBalanceUsed: Option<real>,    // "Prepaid Group Used"
    credit: Option<real>,              // "Credit"
    creditCode: Option<string>,        // credit code
    balance: Option<real>,             // "Balance"
    isBillable: Option<bool>,          // "Is Billable", added by the billable-PI processor
    missingPi: Option<bool>,           // "Missing PI", added by the billable-PI processor
    suCharge: Option<real>,            // "SU Charge", added by the Lenovo processor
    charge: Option<real>)              // "Charge", added by the Lenovo processor

  /** The row `df.loc[len(df)] = None` appends: every column missing. */
  const BLANK: Row := Row(None, None, None, None, None, None, None, None, None, None, None, None,
                          None, None, None, None, None, None, None, None, None, None, None, None)

  /** The billable-PI processor has run: both of its columns exist on every row. */
  predicate Classified(rows: seq<Row>) {
    forall k :: 0 <= k < |rows| ==> rows[k].isBillable.Some? && rows[k].missingPi.Some?
  }

  /** The columns that invoices export. */
  datatype Column =
    | InvoiceDate | Project | ProjectId | Pi | ClusterName | InvoiceEmail | InvoiceAddress
    | Institution | InstitutionId | SuHours | SuType | Rate | GroupName | GroupInstitution
    | GroupBalance | Cost | GroupBalanceUsed | Credit | CreditCode | Balance

  /** A cell's value: missing, text, or a number. */
  datatype Cell = Absent | Text(s: string) | Number(x: real)

  function TextCell(v: Option<string>): Cell {
    if v.Some? then Text(v.value) else Absent
  }

  function NumberCell(v: Option<real>): Cell {
    if v.Some? then Number(v.value) else Absent
  }

  /** The value of column `c` in row `r`. */
  function CellOf(r: Row, c: Column): Cell {
    match c
    case InvoiceDate => TextCell(r.invoiceMonth)
    case Project => TextCell(r.project)
    case ProjectId => TextCell(r.projectId)
    case Pi => TextCell(r.pi)
    case ClusterName => TextCell(r.clusterName)
    case InvoiceEmail => TextCell(r.invoiceEmail)
    case InvoiceAddress => TextCell(r.invoiceAddress)
    case Institution => TextCell(r.institution)
    case InstitutionId => TextCell(r.institutionId)
    case SuHours => NumberCell(r.suHours)
    case SuType => TextCell(r.suType)
    case Rate => TextCell(r.rate)
    case GroupName => TextCell(r.groupName)
    case GroupInstitution => TextCell(r.groupInstitution)
    case GroupBalance => NumberCell(r.groupBalance)
    case Cost => NumberCell(r.cost)
    case GroupBalanceUsed => NumberCell(r.groupBalanceUsed)
    case Credit => NumberCell(r.credit)
    case CreditCode => TextCell(r.creditCode)
    case Balance => NumberCell(r.balance)
  }

  /** `dst.loc[c] = src.loc[c]`: column `c` of `dst` takes the value it has in `src`. */
  function CopyCell(dst: Row, src: Row, c: Column): (r: Row)
    ensures CellOf(r, c) == CellOf(src, c)
    ensures forall d :: d != c ==> CellOf(r, d) == CellOf(dst, d)
  {
    match c
    case InvoiceDate => dst.(invoiceMonth := src.invoiceMonth)
    case Project => dst.(project := src.project)
    case ProjectId => dst.(projectId := src.projectId)
    case Pi => dst.(pi := src.pi)
    case ClusterName => dst.(clusterName := src.clusterName)
    case InvoiceEmail => dst.(invoiceEmail := src.invoiceEmail)
    case InvoiceAddress => dst.(invoiceAddress := src.invoiceAddress)
    case Institution => dst.(institution := src.institution)
    case InstitutionId => dst.(institutionId := src.institutionId)
    case SuHours => dst.(suHours := src.suHours)
    case SuType => dst.(suType := src.suType)
    case Rate => dst.(rate := src.rate)
    case GroupName => dst.(groupName := src.groupName)
    case GroupInstitution => dst.(groupInstitution := src.groupInstitution)
    case GroupBalance => dst.(groupBalance := src.groupBalance)
    case Cost => dst.(cost := src.cost)
    case GroupBalanceUsed => dst.(groupBalanceUsed := src.groupBalanceUsed)
    case Credit => dst.(credit := src.credit)
    case CreditCode => dst.(creditCode := src.creditCode)
    case Balance => dst.(balance := src.balance)
  }

  /** The dollar-amount columns that invoices total. */
  predicate IsAmountColumn(c: Column) {
    c == Cost || c == GroupBalanceUsed || c == Credit || c == Balance
  }

  /** The value of an amount column. */
  function AmountOf(r: Row, c: Column): (v: Option<real>)
    requires IsAmountColumn(c)
    ensures NumberCell(v) == CellOf(r, c)
  {
    match c
    case Cost => r.cost
    case GroupBalanceUsed => r.groupBalanceUsed
    case Credit => r.credit
    case Balance => r.balance
  }

  /** `r.loc[c] = v` for an amount column. */
  function SetAmount(r: Row, c: Column, v: real): (r': Row)
    requires IsAmountColumn(c)
    ensures AmountOf(r', c) == Some(v)
    ensures forall d :: d != c ==> CellOf(r', d) == CellOf(r, d)
    ensures r'.isBillable == r.isBillable && r'.missingPi == r.missingPi
  {
    match c
    case Cost => r.(cost := Some(v))
    case GroupBalanceUsed => r.(groupBalanceUsed := Some(v))
    case Credit => r.(credit := Some(v))
    case Balance => r.(balance := Some(v))
  }

  /** A column of amounts, one per row. */
  function Amounts(rows: seq<Row>, c: Column): (xs: seq<Option<real>>)
    requires IsAmountColumn(c)
    ensures |xs| == |rows|
    ensures forall k :: 0 <= k < |rows| ==> xs[k] == AmountOf(rows[k], c)
  {
    seq(|rows|, k requires 0 <= k < |rows| => AmountOf(rows[k], c))
  }

  /** The amounts of two stacked frames are the two columns stacked. */
  lemma AmountsAppend(a: seq<Row>, b: seq<Row>, c: Column)
    requires IsAmountColumn(c)
    ensures Amounts(a + b, c) == Amounts(a, c) + Amounts(b, c)
  {
    assert forall k :: 0 <= k < |a| ==> (a + b)[k] == a[k];
    assert forall k :: |a| <= k < |a| + |b| ==> (a + b)[k] == b[k - |a|];
  }

  /** A row of the non-billable projects table: a project name or ID and an optional cluster. */
  datatype NonbillableProject = NonbillableProject(name: string, cluster: Option<string>)

  /** A row of the prepay credits table: month, group name, credit. */
  datatype PrepayCredit = PrepayCredit(month: Option<string>, groupName: Option<string>, credit: Option<real>)

  /** A row of the prepay contacts table: group name and its "Managed" flag. */
  datatype PrepayContact = PrepayContact(groupName: Option<string>, managed: Option<string>)
}
