/**
 * The driver helpers of the report run: the PI alias file parser, the timed-projects window,
 * the union of the excluded-project lists, the Lenovo charge-info map, and the fixed order in
 * which the processors hand the record set along.
 */
module ProcessReport {
  import opened Wrappers
  import opened Frames
  import opened Strings
  import opened Records
  import opened MonthFormat
  import LenovoProcessor
  import ValidateBillablePiProcessor

  // ---------------------------------------------------------------------------------------
  // load_alias

  /** The fields of one alias line: stripped, then split on commas. */
  function AliasFields(line: string): (fields: seq<string>)
    ensures |fields| >= 1
  {
    Split(Strip(line), ',')
  }

  /** What a line contributes: its first field is the PI, the remaining fields, in order, are the aliases. */
  function AliasEntry(line: string): (string, seq<string>) {
    var fields := AliasFields(line);
    (fields[0], fields[1..])
  }

  /** A dictionary filled from key-value pairs in order, a later pair overwriting an earlier one's key. */
  function LastWins<K, V>(pairs: seq<(K, V)>): map<K, V>
    decreases |pairs|
  {
    if pairs == [] then map[]
    else
      var last := pairs[|pairs| - 1];
      LastWins(pairs[..|pairs| - 1])[last.0 := last.1]
  }

  /** The dictionary after reading the file's lines in order. */
  function AliasMap(lines: seq<string>): map<string, seq<string>> {
    LastWins(MapSeq(lines, AliasEntry))
  }

  /** `load_alias`: reads the file line by line into the dictionary. */
  method LoadAlias(lines: seq<string>) returns (aliasDict: map<string, seq<string>>)
    ensures aliasDict == AliasMap(lines)
  {
    aliasDict := map[];
    for i := 0 to |lines|
      invariant aliasDict == AliasMap(lines[..i])
    {
      var piAliasInfo := AliasFields(lines[i]);
      aliasDict := aliasDict[piAliasInfo[0] := piAliasInfo[1..]];
      AliasMapSnoc(lines, i);
    }
    assert lines[..|lines|] == lines;
  }

  /** Reading one more line sets the entry of its first field. */
  lemma AliasMapSnoc(lines: seq<string>, i: int)
    requires 0 <= i < |lines|
    ensures AliasMap(lines[..i + 1]) == AliasMap(lines[..i])[AliasEntry(lines[i]).0 := AliasEntry(lines[i]).1]
  {
    LastWinsMapSnoc(lines, i, AliasEntry);
  }

  /** Filling from one more item's pair sets that pair's key. */
  lemma LastWinsMapSnoc<T, K, V>(items: seq<T>, i: int, f: T -> (K, V))
    requires 0 <= i < |items|
    ensures LastWins(MapSeq(items[..i + 1], f)) == LastWins(MapSeq(items[..i], f))[f(items[i]).0 := f(items[i]).1]
  {
    var pairs := MapSeq(items[..i + 1], f);
    assert pairs[..i] == MapSeq(items[..i], f);
  }

  /** The dictionary's keys are exactly the keys of the pairs. */
  lemma {:induction false} LastWinsKeys<K, V>(pairs: seq<(K, V)>, key: K)
    ensures key in LastWins(pairs) <==> exists i :: 0 <= i < |pairs| && pairs[i].0 == key
    decreases |pairs|
  {
    if pairs != [] {
      var init := pairs[..|pairs| - 1];
      LastWinsKeys(init, key);
      if exists i :: 0 <= i < |init| && init[i].0 == key {
        var i :| 0 <= i < |init| && init[i].0 == key;
        assert pairs[i] == init[i];
      }
      if exists i :: 0 <= i < |pairs| && pairs[i].0 == key {
        var i :| 0 <= i < |pairs| && pairs[i].0 == key;
        if i < |init| {
          assert init[i] == pairs[i];
        }
      }
    }
  }

  /** A key's entry is the value of the last pair with that key. */
  lemma {:induction false} LastWinsValue<K, V>(pairs: seq<(K, V)>, i: int)
    requires 0 <= i < |pairs|
    requires forall j :: i < j < |pairs| ==> pairs[j].0 != pairs[i].0
    ensures pairs[i].0 in LastWins(pairs) && LastWins(pairs)[pairs[i].0] == pairs[i].1
    decreases |pairs|
  {
    var n := |pairs| - 1;
    if i < n {
      var init := pairs[..n];
      assert init[i] == pairs[i];
      forall j | i < j < |init|
        ensures init[j].0 != init[i].0
      {
        assert init[j] == pairs[j];
      }
      LastWinsValue(init, i);
    }
  }

  /** A PI is a key exactly when some line starts with it. */
  lemma AliasMapKeys(lines: seq<string>, pi: string)
    ensures pi in AliasMap(lines) <==> exists i :: 0 <= i < |lines| && AliasEntry(lines[i]).0 == pi
  {
    var pairs := MapSeq(lines, AliasEntry);
    LastWinsKeys(pairs, pi);
    assert forall i :: 0 <= i < |lines| ==> pairs[i] == AliasEntry(lines[i]);
  }

  /** A PI's aliases are those of the last line naming it: later lines replace earlier ones. */
  lemma AliasLastLineWins(lines: seq<string>, i: int)
    requires 0 <= i < |lines|
    requires forall j :: i < j < |lines| ==> AliasEntry(lines[j]).0 != AliasEntry(lines[i]).0
    ensures AliasEntry(lines[i]).0 in AliasMap(lines)
    ensures AliasMap(lines)[AliasEntry(lines[i]).0] == AliasEntry(lines[i]).1
  {
    LastWinsValue(MapSeq(lines, AliasEntry), i);
  }

  /** A line written as comma-joined fields, with no surrounding blanks, reads back as those fields. */
  lemma AliasLineRoundTrip(fields: seq<string>)
    requires |fields| >= 1
    requires forall k :: 0 <= k < |fields| ==> ',' !in fields[k]
    requires Strip(Join(fields, ',')) == Join(fields, ',')
    ensures AliasEntry(Join(fields, ',')) == (fields[0], fields[1..])
  {
    SplitJoin(fields, ',');
  }

  // ---------------------------------------------------------------------------------------
  // timed_projects

  /** A row of the timed-projects file: a project and its start and end months, possibly missing. */
  datatype TimedProject = TimedProject(project: string, startDate: Option<string>, endDate: Option<string>)

  /**
   * The first and last months whose first day a nanosecond pandas timestamp can hold
   * (`Timestamp.min` is 1677-09-21, `Timestamp.max` is 2262-04-11).
   */
  const TIMESTAMP_FIRST_MONTH: YearMonth := YearMonth(1677, 10)
  const TIMESTAMP_LAST_MONTH: YearMonth := YearMonth(2262, 4)

  predicate InTimestampRange(ym: YearMonth) {
    NotAfter(TIMESTAMP_FIRST_MONTH, ym) && NotAfter(ym, TIMESTAMP_LAST_MONTH)
  }

  /** The value is `%Y-%m`, whatever its month's range. */
  predicate DateMatchesFormat(d: Option<string>) {
    d.None? || ParseYearMonth(d.value).Some?
  }

  /**
   * `pandas.to_datetime(..., format="%Y-%m")` on a column value succeeds: a missing value stays
   * missing, and a present one is `%Y-%m` with its month inside the timestamp range.
   */
  predicate DateParses(d: Option<string>) {
    d.None? || (ParseYearMonth(d.value).Some? && InTimestampRange(ParseYearMonth(d.value).value))
  }

  predicate DatesParse(t: TimedProject) {
    DateParses(t.startDate) && DateParses(t.endDate)
  }

  /** The window mask `start <= month <= end`, both ends inclusive; a missing end point compares false. */
  predicate WindowHolds(month: YearMonth, t: TimedProject) {
    && t.startDate.Some? && t.endDate.Some?
    && ParseYearMonth(t.startDate.value).Some? && ParseYearMonth(t.endDate.value).Some?
    && NotAfter(ParseYearMonth(t.startDate.value).value, month)
    && NotAfter(month, ParseYearMonth(t.endDate.value).value)
  }

  function InWindow(month: YearMonth): TimedProject -> bool {
    (t: TimedProject) => WindowHolds(month, t)
  }

  function ProjectOf(t: TimedProject): string {
    t.project
  }

  /**
   * `timed_projects`: the projects whose window holds the invoice month, in file order; a date
   * that is not `%Y-%m`, or whose month a timestamp cannot hold, makes the conversion fail.
   */
  function TimedProjects(table: seq<TimedProject>, month: YearMonth): (r: Result<seq<string>, string>)
    ensures r.Success? <==> forall k :: 0 <= k < |table| ==> DatesParse(table[k])
    ensures r.Failure? ==>
              (r.error == FORMAT_ERROR <==>
                 exists k :: 0 <= k < |table| && !(DateMatchesFormat(table[k].startDate) && DateMatchesFormat(table[k].endDate)))
  {
    if forall k :: 0 <= k < |table| ==> DatesParse(table[k]) then
      Success(MapSeq(Where(table, InWindow(month)), ProjectOf))
    else if exists k :: 0 <= k < |table| && !(DateMatchesFormat(table[k].startDate) && DateMatchesFormat(table[k].endDate)) then
      Failure(FORMAT_ERROR)
    else
      Failure(BOUNDS_ERROR)
  }

  const FORMAT_ERROR: string := "time data does not match format '%Y-%m'"
  const BOUNDS_ERROR: string := "Out of bounds nanosecond timestamp"

  /** A month written `YYYY-MM` converts exactly when a timestamp can hold it. */
  lemma FormattedDateParses(ym: YearMonth)
    requires ValidYearMonth(ym)
    ensures DateMatchesFormat(Some(FormatYearMonth(ym)))
    ensures DateParses(Some(FormatYearMonth(ym))) <==> NotAfter(YearMonth(1677, 10), ym) && NotAfter(ym, YearMonth(2262, 4))
  {
    FormatThenParse(ym);
  }

  /** A well-formed start month before the timestamp range still makes the conversion fail. */
  lemma StartBeforeTimestampRangeFails(month: YearMonth)
    ensures var t := TimedProject("p", Some(FormatYearMonth(YearMonth(1500, 1))), None);
            TimedProjects([t], month) == Failure(BOUNDS_ERROR)
  {
    var t := TimedProject("p", Some(FormatYearMonth(YearMonth(1500, 1))), None);
    FormattedDateParses(YearMonth(1500, 1));
    assert !DatesParse([t][0]);
  }

  /** The list keeps the file's order of the rows it takes. */
  lemma TimedProjectsInFileOrder(table: seq<TimedProject>, month: YearMonth)
    requires TimedProjects(table, month).Success?
    ensures Subsequence(TimedProjects(table, month).value, MapSeq(table, ProjectOf))
  {
    WhereSubsequence(table, InWindow(month));
    SubsequenceMap(Where(table, InWindow(month)), table, ProjectOf);
  }

  /** A project is listed exactly when some row for it has the invoice month inside its window. */
  lemma TimedProjectsMembers(table: seq<TimedProject>, month: YearMonth, p: string)
    requires TimedProjects(table, month).Success?
    ensures p in TimedProjects(table, month).value <==>
              exists k :: 0 <= k < |table| && table[k].project == p && WindowHolds(month, table[k])
  {
    MapWhereMembers(table, InWindow(month), ProjectOf, p);
  }

  /** The window includes both of its end months, and a row missing either end never matches. */
  lemma WindowEnds(month: YearMonth, t: TimedProject)
    requires ValidYearMonth(month) && DatesParse(t)
    ensures (t.startDate == Some(FormatYearMonth(month)) && t.endDate.Some?
             && NotAfter(month, ParseYearMonth(t.endDate.value).value)) ==> WindowHolds(month, t)
    ensures (t.endDate == Some(FormatYearMonth(month)) && t.startDate.Some?
             && NotAfter(ParseYearMonth(t.startDate.value).value, month)) ==> WindowHolds(month, t)
    ensures t.startDate.None? || t.endDate.None? ==> !WindowHolds(month, t)
  {
    FormatThenParse(month);
  }

  // ---------------------------------------------------------------------------------------
  // The excluded-project list

  /** `list(set(projects + timed_projects_list))`: the union of both lists, each name once (order unspecified). */
  function ExcludedProjects(projects: seq<string>, timedProjects: seq<string>): set<string> {
    set p | p in projects + timedProjects
  }

  /** A name is excluded exactly when either list names it; the union is no longer than both lists. */
  lemma ExcludedProjectsUnion(projects: seq<string>, timedProjects: seq<string>)
    ensures forall p :: p in ExcludedProjects(projects, timedProjects) <==> p in projects || p in timedProjects
    ensures |ExcludedProjects(projects, timedProjects)| <= |projects| + |timedProjects|
  {
    var all := projects + timedProjects;
    assert ExcludedProjects(projects, timedProjects) == set p | p in multiset(all);
    SetOfSeqBound(all);
  }

  /** A sequence has no more distinct values than entries. */
  lemma {:induction false} SetOfSeqBound(s: seq<string>)
    ensures |set p | p in s| <= |s|
    decreases |s|
  {
    if s != [] {
      SetOfSeqBound(s[1..]);
      assert (set p | p in s) == (set p | p in s[1..]) + {s[0]};
    }
  }

  // ---------------------------------------------------------------------------------------
  // get_lenovo_su_charge_info

  const LENOVO_SU_NAMES: seq<string> := ["GPUA100SXM4", "GPUH100"]

  /**
   * `get_lenovo_su_charge_info`: for each Lenovo SU name, the rate `Lenovo <name> Charge` in
   * force in the invoice month; `rateAt` stands for the rates lookup.
   */
  method LenovoSuChargeInfo(rateAt: string -> real) returns (suChargeInfo: map<string, real>)
    ensures suChargeInfo.Keys == {"GPUA100SXM4", "GPUH100"}
    ensures forall name :: name in suChargeInfo ==> suChargeInfo[name] == rateAt("Lenovo " + name + " Charge")
  {
    suChargeInfo := map[];
    for k := 0 to |LENOVO_SU_NAMES|
      invariant suChargeInfo.Keys == set j | 0 <= j < k :: LENOVO_SU_NAMES[j]
      invariant forall name :: name in suChargeInfo ==> suChargeInfo[name] == rateAt("Lenovo " + name + " Charge")
    {
      var suName := LENOVO_SU_NAMES[k];
      suChargeInfo := suChargeInfo[suName := rateAt("Lenovo " + suName + " Charge")];
    }
    assert (set j | 0 <= j < 2 :: LENOVO_SU_NAMES[j]) == {"GPUA100SXM4", "GPUH100"} by {
      assert LENOVO_SU_NAMES[0] == "GPUA100SXM4" && LENOVO_SU_NAMES[1] == "GPUH100";
    }
  }

  // ---------------------------------------------------------------------------------------
  // The processor chain of main

  /** The processors `main` runs. */
  datatype Stage =
    | ValidateClusterName | ColdfrontFetch | ValidatePiAlias | AddInstitution | Lenovo
    | ValidateBillablePis | NewPiCredit | BuSubsidy | Prepayment

  /** The order in which `main` runs them. */
  const PROCESSOR_ORDER: seq<Stage> :=
    [ValidateClusterName, ColdfrontFetch, ValidatePiAlias, AddInstitution, Lenovo,
     ValidateBillablePis, NewPiCredit, BuSubsidy, Prepayment]

  /** Every processor runs once, and Lenovo charges and billability come before credits, subsidy and prepayment. */
  lemma ProcessorOrderFixed()
    ensures |PROCESSOR_ORDER| == 9 && NoDuplicates(PROCESSOR_ORDER)
    ensures forall s: Stage :: s in PROCESSOR_ORDER
    ensures PROCESSOR_ORDER[4] == Lenovo && PROCESSOR_ORDER[5] == ValidateBillablePis
    ensures forall j :: 6 <= j < 9 ==> PROCESSOR_ORDER[j] in {NewPiCredit, BuSubsidy, Prepayment}
  {
    var o := PROCESSOR_ORDER;
    forall s: Stage
      ensures s in o
    {
      match s
      case ValidateClusterName => assert o[0] == s;
      case ColdfrontFetch => assert o[1] == s;
      case ValidatePiAlias => assert o[2] == s;
      case AddInstitution => assert o[3] == s;
      case Lenovo => assert o[4] == s;
      case ValidateBillablePis => assert o[5] == s;
      case NewPiCredit => assert o[6] == s;
      case BuSubsidy => assert o[7] == s;
      case Prepayment => assert o[8] == s;
    }
  }

  /**
   * One stage's effect on the record set: the Lenovo and billable-PI processors as modelled;
   * the others, which this model does not describe, as given functions.
   */
  function StageEffect(s: Stage, data: seq<Row>, other: Stage -> (seq<Row> -> seq<Row>),
                       nonbillablePis: seq<string>, table: seq<NonbillableProject>): seq<Row>
    requires s == ValidateBillablePis ==> ValidateBillablePiProcessor.ProjectsPresent(data)
  {
    match s
    case Lenovo => LenovoProcessor.LenovoCharges(data)
    case ValidateBillablePis => ValidateBillablePiProcessor.ClassifyAsWritten(data, nonbillablePis, table)
    case _ => other(s)(data)
  }

  /** The record set after running the stages in order, each on the previous stage's data. */
  function Pipeline(stages: seq<Stage>, data: seq<Row>, other: Stage -> (seq<Row> -> seq<Row>),
                    nonbillablePis: seq<string>, table: seq<NonbillableProject>): Option<seq<Row>>
    decreases |stages|
  {
    if stages == [] then Some(data)
    else if stages[0] == ValidateBillablePis && !ValidateBillablePiProcessor.ProjectsPresent(data) then None
    else Pipeline(stages[1..], StageEffect(stages[0], data, other, nonbillablePis, table), other, nonbillablePis, table)
  }

  /** The Lenovo processor leaves the project column as it is. */
  lemma LenovoKeepsProjects(data: seq<Row>)
    ensures ValidateBillablePiProcessor.ProjectsPresent(LenovoProcessor.LenovoCharges(data))
            == ValidateBillablePiProcessor.ProjectsPresent(data)
  {
    var r := LenovoProcessor.LenovoCharges(data);
    assert forall i :: 0 <= i < |data| ==> r[i].project == data[i].project;
  }

  /**
   * The processing part of `main`: each processor is built on the previous one's data and run;
   * the subsidy processor gets a copy, which with values is the data itself.  `main` hands the
   * Coldfront processor the merged frame itself rather than the cluster-name processor's data,
   * so chaining the two assumes, as the processors modelled here do, that the cluster-name
   * processor rewrites that shared frame in place.
   */
  method RunProcessors(data: seq<Row>, other: Stage -> (seq<Row> -> seq<Row>),
                       nonbillablePis: seq<string>, table: seq<NonbillableProject>)
    returns (processedData: seq<Row>)
    requires ValidateBillablePiProcessor.ProjectsPresent(
               other(AddInstitution)(other(ValidatePiAlias)(other(ColdfrontFetch)(other(ValidateClusterName)(data)))))
    ensures Some(processedData) == Pipeline(PROCESSOR_ORDER, data, other, nonbillablePis, table)
  {
    var d := other(ValidateClusterName)(data);
    d := other(ColdfrontFetch)(d);
    d := other(ValidatePiAlias)(d);
    d := other(AddInstitution)(d);
    var lenovoProc := new LenovoProcessor.LenovoProcessor(d);
    lenovoProc.Process();
    LenovoKeepsProjects(d);
    var validateBillablePiProc := new ValidateBillablePiProcessor.ValidateBillablePIsProcessor(lenovoProc.data, nonbillablePis, table);
    validateBillablePiProc.Process();
    d := other(NewPiCredit)(validateBillablePiProc.data);
    d := other(BuSubsidy)(d);
    processedData := other(Prepayment)(d);
    PipelineUnfolds(data, other, nonbillablePis, table);
  }

  /** The fixed order unfolded: the chain `RunProcessors` builds stage by stage. */
  lemma PipelineUnfolds(data: seq<Row>, other: Stage -> (seq<Row> -> seq<Row>),
                        nonbillablePis: seq<string>, table: seq<NonbillableProject>)
    requires ValidateBillablePiProcessor.ProjectsPresent(
               other(AddInstitution)(other(ValidatePiAlias)(other(ColdfrontFetch)(other(ValidateClusterName)(data)))))
    ensures var before := other(AddInstitution)(other(ValidatePiAlias)(other(ColdfrontFetch)(other(ValidateClusterName)(data))));
            var classified := ValidateBillablePiProcessor.ClassifyAsWritten(LenovoProcessor.LenovoCharges(before), nonbillablePis, table);
            Pipeline(PROCESSOR_ORDER, data, other, nonbillablePis, table)
              == Some(other(Prepayment)(other(BuSubsidy)(other(NewPiCredit)(classified))))
  {
    var d4 := other(AddInstitution)(other(ValidatePiAlias)(other(ColdfrontFetch)(other(ValidateClusterName)(data))));
    var d6 := ValidateBillablePiProcessor.ClassifyAsWritten(LenovoProcessor.LenovoCharges(d4), nonbillablePis, table);
    PipelineFront(data, other, nonbillablePis, table);
    PipelineMiddle(d4, other, nonbillablePis, table);
    PipelineBack(d6, other, nonbillablePis, table);
    assert PROCESSOR_ORDER[0..] == PROCESSOR_ORDER;
  }

  /** The four data-preparing stages. */
  lemma PipelineFront(data: seq<Row>, other: Stage -> (seq<Row> -> seq<Row>),
                      nonbillablePis: seq<string>, table: seq<NonbillableProject>)
    ensures Pipeline(PROCESSOR_ORDER[0..], data, other, nonbillablePis, table)
              == Pipeline(PROCESSOR_ORDER[4..],
                          other(AddInstitution)(other(ValidatePiAlias)(other(ColdfrontFetch)(other(ValidateClusterName)(data)))),
                          other, nonbillablePis, table)
  {
    var o := PROCESSOR_ORDER;
    var d1 := other(ValidateClusterName)(data);
    var d2 := other(ColdfrontFetch)(d1);
    var d3 := other(ValidatePiAlias)(d2);
    PipelineStep(o, 0, data, d1, other, nonbillablePis, table);
    PipelineStep(o, 1, d1, d2, other, nonbillablePis, table);
    PipelineStep(o, 2, d2, d3, other, nonbillablePis, table);
    PipelineStep(o, 3, d3, other(AddInstitution)(d3), other, nonbillablePis, table);
  }

  /** The Lenovo stage, then the billable-PI stage. */
  lemma PipelineMiddle(d4: seq<Row>, other: Stage -> (seq<Row> -> seq<Row>),
                       nonbillablePis: seq<string>, table: seq<NonbillableProject>)
    requires ValidateBillablePiProcessor.ProjectsPresent(d4)
    ensures Pipeline(PROCESSOR_ORDER[4..], d4, other, nonbillablePis, table)
              == Pipeline(PROCESSOR_ORDER[6..],
                          ValidateBillablePiProcessor.ClassifyAsWritten(LenovoProcessor.LenovoCharges(d4), nonbillablePis, table),
                          other, nonbillablePis, table)
  {
    var d5 := LenovoProcessor.LenovoCharges(d4);
    LenovoKeepsProjects(d4);
    PipelineStep(PROCESSOR_ORDER, 4, d4, d5, other, nonbillablePis, table);
    BillableStep(PROCESSOR_ORDER, d5, other, nonbillablePis, table);
  }

  /** The billable-PI stage at position 5. */
  lemma BillableStep(stages: seq<Stage>, d5: seq<Row>, other: Stage -> (seq<Row> -> seq<Row>),
                     nonbillablePis: seq<string>, table: seq<NonbillableProject>)
    requires |stages| > 5 && stages[5] == ValidateBillablePis
    requires ValidateBillablePiProcessor.ProjectsPresent(d5)
    ensures Pipeline(stages[5..], d5, other, nonbillablePis, table)
              == Pipeline(stages[6..], ValidateBillablePiProcessor.ClassifyAsWritten(d5, nonbillablePis, table), other, nonbillablePis, table)
  {
    assert stages[5..][1..] == stages[6..];
  }

  /** The three stages that follow classification. */
  lemma PipelineBack(d6: seq<Row>, other: Stage -> (seq<Row> -> seq<Row>),
                     nonbillablePis: seq<string>, table: seq<NonbillableProject>)
    ensures Pipeline(PROCESSOR_ORDER[6..], d6, other, nonbillablePis, table)
              == Some(other(Prepayment)(other(BuSubsidy)(other(NewPiCredit)(d6))))
  {
    var o := PROCESSOR_ORDER;
    var d7 := other(NewPiCredit)(d6);
    var d8 := other(BuSubsidy)(d7);
    PipelineStep(o, 6, d6, d7, other, nonbillablePis, table);
    PipelineStep(o, 7, d7, d8, other, nonbillablePis, table);
    PipelineStep(o, 8, d8, other(Prepayment)(d8), other, nonbillablePis, table);
    assert o[9..] == [];
  }

  /** Running the stages from position `k` is running stage `k`, then the stages after it. */
  lemma PipelineStep(stages: seq<Stage>, k: int, data: seq<Row>, next: seq<Row>, other: Stage -> (seq<Row> -> seq<Row>),
                     nonbillablePis: seq<string>, table: seq<NonbillableProject>)
    requires 0 <= k < |stages|
    requires stages[k] == ValidateBillablePis ==> ValidateBillablePiProcessor.ProjectsPresent(data)
    requires next == StageEffect(stages[k], data, other, nonbillablePis, table)
    ensures Pipeline(stages[k..], data, other, nonbillablePis, table) == Pipeline(stages[k + 1..], next, other, nonbillablePis, table)
  {
    assert stages[k..][1..] == stages[k + 1..];
  }
}
