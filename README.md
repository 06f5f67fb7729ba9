# Invoicing pipeline core, modelled in Dafny

This project models the record-level billing logic of the `process_report` invoicing pipeline.
The pipeline reads one month of cloud-usage rows, one row per project allocation. A chain of
processors enriches and classifies the rows. Invoices then select and total them.

What is modelled:

- **Rows and side tables** (`records.dfy`). A record set is a `seq<Row>`. Every column is an
  `Option`, and a missing value stands for pandas NaN. Money and hours are exact `real`s.
- **Table operations** (`frames.dfy`). Boolean-mask selection (`Where`), column projection,
  `unique()` in first-appearance order, and pandas `.sum()`, which skips missing values.
- **The billable-PI processor** (`validate_billable_pi_processor.dfy`). The project test goes
  through the same left merge the source uses, so the model keeps one merged row per matching
  table entry. It is related to a row-by-row reference rule. The processor itself is a class
  whose `Process` rewrites `data` with the flags the merge produces.
- **The Lenovo and bare-metal processors**. Each is a class whose `Process` replaces `data` by a
  specification function of the old data.
- **The institute directory validators**. Each is a loop over a set of names seen so far,
  proved against "no duplicates". Record parsing applies defaults and forbids extra keys.
- **Month parsing** in the `%Y-%m` format, and the month difference.
- **The invoices.**
  - The prepaid-group and PI invoices are classes. `Prepare` sets the export data and the
    group or PI list. The frame builders are methods with the source's loops: credit rows,
    the column-sum list, and, for the PI invoice, the export loop that skips a missing PI.
    Each method is proved equal to a frame function, and lemmas state the shape and totals
    of that function.
  - The prepay-credits snapshot, the non-billable invoice and the bare-metal invoice are pure
    selections, modelled as functions.
- **The driver helpers of `process_report.py`**. These are the alias-file loader loop, the
  timed-projects window, the union of the exclusion lists, the Lenovo charge-info loop and the
  fixed processor order.

## Model

| member | source | states |
|---|---|---|
| Strings.Lower | process_report/processors/validate_billable_pi_processor.py:44-45 | `str.lower` keeps the length, lower-cases each character, and leaves no upper-case letter |
| Strings.LowerIdempotent | process_report/processors/validate_billable_pi_processor.py:47-56 | lower-casing twice is lower-casing once, so lower-cased copies compare as the originals do |
| Strings.LowerOfLowerCase | process_report/processors/validate_billable_pi_processor.py:44-45 | a string without upper-case letters is its own lower-case form |
| Strings.Strip | process_report/process_report.py:55 | `line.strip()` leaves no blank at either end |
| Strings.StripLeft | process_report/process_report.py:55 | the leading blanks are removed and the rest is kept as a suffix |
| Strings.StripRight | process_report/process_report.py:55 | the trailing blanks are removed and the rest is kept as a prefix |
| Strings.IndexOf | process_report/process_report.py:55 | the first position of the separator, with no separator before it |
| Strings.Split | process_report/process_report.py:55 | `split(",")` gives at least one field, no field holds a comma, and joining the fields with commas gives back the line |
| Strings.SplitJoin | process_report/process_report.py:55 | splitting comma-joined comma-free fields gives back those fields |
| Records.CopyCell | process_report/invoices/MOCA_group_specific_invoice.py:85-87 | `dst.loc[c] = src.loc[c]` sets column `c` to the source's value and changes no other column |
| Records.AmountOf | process_report/invoices/MOCA_group_specific_invoice.py:99 | the amount read is the cell of that column |
| Records.SetAmount | process_report/invoices/MOCA_group_specific_invoice.py:107 | setting one amount column changes only that column |
| Records.Amounts | process_report/invoices/MOCA_group_specific_invoice.py:99 | a column of amounts has one entry per row, in row order |
| Records.AmountsAppend | process_report/invoices/MOCA_group_specific_invoice.py:79-99 | the amounts of stacked frames are the stacked amounts |
| Frames.Where | process_report/invoices/pi_specific_invoice.py:64-66 | a boolean-mask selection is no longer than the frame and keeps only rows the mask accepts |
| Frames.WhereMembers | process_report/invoices/pi_specific_invoice.py:64-66 | a row is selected exactly when it is in the frame and the mask accepts it |
| Frames.WhereSubsequence | process_report/invoices/prepay_credits_snapshot.py:54 | a selection keeps the frame's order: it is a subsequence of the frame |
| Frames.MapWhereMembers | process_report/process_report.py:435-437 | a value is in a selected-then-projected column exactly when some accepted row projects to it |
| Frames.MapPresentValuesSnoc | process_report/invoices/pi_specific_invoice.py:108-122 | mapping over the present values of one more entry appends that entry's image exactly when it is present |
| Frames.Distinct | process_report/invoices/pi_specific_invoice.py:67 | `unique()` lists every value of the column once and nothing else |
| Frames.DistinctSnoc | process_report/invoices/pi_specific_invoice.py:67 | `unique()` keeps values in order of first appearance |
| Frames.SumAppend | process_report/invoices/MOCA_group_specific_invoice.py:99 | `.sum()` over stacked columns adds the two sums |
| Frames.SumSkipsMissing | process_report/invoices/MOCA_group_specific_invoice.py:99 | `.sum()` is the sum of the present values only |
| Frames.SumAllMissing | process_report/invoices/MOCA_group_specific_invoice.py:99 | `.sum()` of an all-missing column is zero |
| MonthFormat.ParseYearMonth | process_report/institute_list_models.py:11 | `strptime(v, "%Y-%m")` accepts only a four-digit year, a dash and a one- or two-digit month 1-12, and yields a valid month |
| MonthFormat.FormatThenParse | process_report/util.py:44-45 | a month written as `YYYY-MM` parses back to itself |
| MonthFormat.ParseMonth | process_report/util.py:44 | the `%m` field: one or two digits naming a month 1-12 |
| MonthFormat.FormatYearMonth | process_report/util.py:44 | the `%Y-%m` spelling: four year digits, a dash, two month digits |
| MonthFormat.ParseThenFormat | process_report/util.py:44-45 | a parsed string is the `YYYY-MM` spelling of its month, or differs from it only by an unpadded month |
| MonthFormat.NotAfterIsIndexOrder | process_report/process_report.py:435-437 | calendar order of months is the order of their month counts |
| Util.MonthDiff | process_report/util.py:42-46 | fails exactly when either string is not `%Y-%m`; otherwise it is 12 times the year difference plus the month difference |
| Util.MonthDiffPositiveIffLater | process_report/util.py:43 | the difference is positive exactly when the first month is later |
| Util.MonthDiffSelf | process_report/util.py:46 | a month is zero months from itself |
| Util.MonthDiffAntisymmetric | process_report/util.py:46 | swapping the two months negates the difference |
| Util.MonthDiffChain | process_report/util.py:46 | differences add along a chain of three months |
| Util.MonthDiffOfCanonical | process_report/util.py:44-46 | the difference depends only on the months, not on how they are padded |
| InstituteListModels.ParseDate | process_report/institute_list_models.py:9-14 | succeeds exactly when the string parses as `%Y-%m`, returns it unchanged, and otherwise fails with the source's message |
| InstituteListModels.BoolField | process_report/institute_list_models.py:33-34 | a flag is accepted when omitted or boolean, and is true only when given as true |
| InstituteListModels.StartDateField | process_report/institute_list_models.py:32 | the start date is absent exactly when omitted or null; when present, it is a valid month |
| InstituteListModels.ParseInstituteInfo | process_report/institute_list_models.py:29-36 | a record validates exactly when it is well formed; its fields are those given, and the defaults apply to omitted fields |
| InstituteListModels.ParseToRawRoundTrip | process_report/institute_list_models.py:29-36 | a record written out with every field validates back to itself |
| InstituteListModels.DefaultsWhenOmitted | process_report/institute_list_models.py:32-34 | with only a name and domains there is no start date and both flags are false |
| InstituteListModels.ExtraKeyRejected | process_report/institute_list_models.py:36 | any key outside the five fields rejects the record |
| InstituteListModels.MisspelledKeyRejected | process_report/institute_list_models.py:36 | a record with a typo in a key name is rejected |
| InstituteListModels.ParseAll | process_report/institute_list_models.py:39-40 | the list validates exactly when every record does, record by record |
| InstituteListModels.DisplayNames | process_report/institute_list_models.py:45-46 | the display names in list order |
| InstituteListModels.AllDomainsAppend | process_report/institute_list_models.py:57-58 | the domain walk over two lists is the walks over each, concatenated |
| InstituteListModels.AllDomainsSplit | process_report/institute_list_models.py:57-58 | the domain walk splits around any one institute |
| InstituteListModels.PrefixThrough | process_report/institute_list_models.py:57-61 | on a walk through the middle part of a concatenation, the positions seen so far form a prefix |
| InstituteListModels.ValidateNoDisplayNameDuplicates | process_report/institute_list_models.py:42-52 | fails exactly when a display name occurs twice, naming the first repeat; otherwise returns the list unchanged |
| InstituteListModels.ValidateNoDomainDuplicates | process_report/institute_list_models.py:54-63 | fails exactly when a domain occurs twice, within or across institutes, naming the first repeat; otherwise returns the list unchanged |
| InstituteListModels.ModelValidate | process_report/institute_list_models.py:29-63 | the directory validates exactly when every record does and neither names nor domains repeat |
| InstituteListModels.CourseListSnoc | process_report/institute_list_models.py:69-71 | one more institute extends the course list by its name exactly when it is flagged |
| InstituteListModels.NonbillableCourseList | process_report/institute_list_models.py:65-72 | the loop builds the display names of the flagged institutes, in list order |
| InstituteListModels.CourseListMembership | process_report/institute_list_models.py:65-72 | a name is on the course list exactly when a flagged institute has it |
| ValidateBillablePiProcessor.MatchCountZeroIff | process_report/processors/validate_billable_pi_processor.py:67-74 | a row finds no join partner exactly when no entry has its lower-cased project and its exact cluster |
| ValidateBillablePiProcessor.JoinRow | process_report/processors/validate_billable_pi_processor.py:67-74 | a left join yields one merged row per matching entry, or one unmatched row, each carrying the row's key |
| ValidateBillablePiProcessor.LeftMerge | process_report/processors/validate_billable_pi_processor.py:67-74 | the merged frame has at least as many rows as the data |
| ValidateBillablePiProcessor.ClusterAgnosticMembers | process_report/processors/validate_billable_pi_processor.py:57-63 | the cluster-agnostic list holds exactly the lower-cased names of entries with no cluster |
| ValidateBillablePiProcessor.FindBillableProjects | process_report/processors/validate_billable_pi_processor.py:17-83 | one flag per merged row, not per data row |
| ValidateBillablePiProcessor.JoinRowBillable | process_report/processors/validate_billable_pi_processor.py:76-83 | for a row with at most one partner, the three masks on its merged row give the reference rule |
| ValidateBillablePiProcessor.FindBillableProjectsPerRow | process_report/processors/validate_billable_pi_processor.py:17-83 | without repeated table entries there is one flag per row, and the flag at each position is the reference rule |
| ValidateBillablePiProcessor.ValidatePiNames | process_report/processors/validate_billable_pi_processor.py:101-108 | one flag per row, true exactly when the PI is missing |
| ValidateBillablePiProcessor.GetBillablesAsWritten | process_report/processors/validate_billable_pi_processor.py:111-119 | the per-row PI mask combined by position with the per-merged-row project mask |
| ValidateBillablePiProcessor.GetBillables | process_report/processors/validate_billable_pi_processor.py:111-119 | each row is billable exactly when its PI is not listed and its project and cluster pass the three tests |
| ValidateBillablePiProcessor.GetBillablesAsWrittenAgrees | process_report/processors/validate_billable_pi_processor.py:67-83 | without repeated table entries the merge-based flags equal the per-row rule |
| ValidateBillablePiProcessor.DuplicateEntryShiftsFlags | process_report/processors/validate_billable_pi_processor.py:67-83 | a table listing one entry twice makes a billable row read a non-billable flag |
| ValidateBillablePiProcessor.DuplicateExampleMerged | process_report/processors/validate_billable_pi_processor.py:67-76 | in the example the first row joins both equal table entries and the second joins none, so the merge has three rows |
| ValidateBillablePiProcessor.DuplicateEntryMerge | process_report/processors/validate_billable_pi_processor.py:67-83 | the merge-based flags of the example are both false |
| ValidateBillablePiProcessor.DuplicateEntryRowRule | process_report/processors/validate_billable_pi_processor.py:67-83 | by the row-by-row rule the example's second row is billable and its first is not |
| ValidateBillablePiProcessor.ShiftedClusterExampleMerged | process_report/processors/validate_billable_pi_processor.py:67-74 | with `q@c1`, `p@c1`, `r@ocp-test` and `q@c1` listed twice, the merge has four rows, the first row's twice |
| ValidateBillablePiProcessor.ShiftedClusterExampleTail | process_report/processors/validate_billable_pi_processor.py:67-74 | the example's `p@c1` and `r@ocp-test` rows join no table entry and stay single unmatched rows |
| ValidateBillablePiProcessor.ShiftedClusterFlag | process_report/processors/validate_billable_pi_processor.py:76-83 | the third merge-based flag of that example is the second row's, which passes every test |
| ValidateBillablePiProcessor.AsWrittenBillsTestCluster | process_report/processors/validate_billable_pi_processor.py:116-125 | as written, the example's `ocp-test` row is marked billable |
| ValidateBillablePiProcessor.NonbillablePiExcluded | process_report/processors/validate_billable_pi_processor.py:116 | a row whose PI is on the list is not billable |
| ValidateBillablePiProcessor.NonbillableClusterExcluded | process_report/processors/validate_billable_pi_processor.py:80-83 | a row on `ocp-test` is not billable |
| ValidateBillablePiProcessor.ProjectMatchIgnoresCase | process_report/processors/validate_billable_pi_processor.py:44-78 | a project listed for every cluster is not billable, whatever the case of either spelling |
| ValidateBillablePiProcessor.WithIsBillable | process_report/processors/validate_billable_pi_processor.py:122-124 | sets "Is Billable" on each row and changes nothing else |
| ValidateBillablePiProcessor.WithMissingPi | process_report/processors/validate_billable_pi_processor.py:125 | sets "Missing PI" on each row and changes nothing else |
| ValidateBillablePiProcessor.Classify | process_report/processors/validate_billable_pi_processor.py:121-125 | the intended classification, row by row: both flags are set on every row and nothing else changes; a row is invoiceable exactly when its PI is present and not listed and its project is billable |
| ValidateBillablePiProcessor.ClassifyAsWritten | process_report/processors/validate_billable_pi_processor.py:116-125 | the classification as the code computes it: Missing PI is set from the PI, Is Billable takes the merge-based flags by position, nothing else changes, and a listed PI is never billable |
| ValidateBillablePiProcessor.ClassifyAsWrittenAgrees | process_report/processors/validate_billable_pi_processor.py:67-83 | when no row joins two table entries, the code's classification is the row-by-row one |
| ValidateBillablePiProcessor.ValidateBillablePIsProcessor.constructor | process_report/processors/validate_billable_pi_processor.py:86-98 | the processor holds the data and both lists |
| ValidateBillablePiProcessor.ValidateBillablePIsProcessor.Process | process_report/processors/validate_billable_pi_processor.py:121-125 | the new data is the old data classified as the code does it, which is the row-by-row classification whenever no row joins twice |
| LenovoProcessor.LenovoCharges | process_report/processors/lenovo_processor.py:10-23 | same row count; "SU Charge" is the table price of the exact SU type, or 0; "Charge" is hours times that price; no other column changes |
| LenovoProcessor.SuCharge | process_report/processors/lenovo_processor.py:10-20 | the price of the exact SU type in the fixed map, or 0 |
| LenovoProcessor.Charge | process_report/processors/lenovo_processor.py:21-23 | hours times price, missing when the hours are missing |
| LenovoProcessor.ChargeBounds | process_report/processors/lenovo_processor.py:10-23 | a charge is between 0 and 2.74 times the hours, and 0 for a type outside the table |
| LenovoProcessor.H100CostsMoreThanA100 | process_report/processors/lenovo_processor.py:10-15 | an H100 hour costs 2.74 times an A100 hour, on OpenStack and bare metal alike |
| LenovoProcessor.LenovoProcessor.constructor | process_report/processors/lenovo_processor.py:8-9 | the processor holds the data |
| LenovoProcessor.LenovoProcessor.Process | process_report/processors/lenovo_processor.py:17-23 | the new data is the priced old data |
| BmUsageProcessor.BmProjectMask | process_report/processors/bm_usage_processor.py:11-12 | the mask selects every row |
| BmUsageProcessor.RelabelBareMetal | process_report/processors/bm_usage_processor.py:14-20 | unselected rows are unchanged; selected rows get the suffixed name, the bare-metal project ID and the e-mail, and nothing else changes |
| BmUsageProcessor.RelabelKeepsName | process_report/processors/bm_usage_processor.py:16-18 | a relabelled name is the old name followed by " BM Usage" |
| BmUsageProcessor.RelabelExample | process_report/processors/bm_usage_processor.py:14-20 | two named rows are relabelled as the source would |
| BmUsageProcessor.BMUsageProcessor.constructor | process_report/processors/bm_usage_processor.py:9-10 | the processor holds the data |
| BmUsageProcessor.BMUsageProcessor.Process | process_report/processors/bm_usage_processor.py:14-20 | the new data is the relabelled old data under the all-rows mask |
| Sheets.DollarCell | process_report/invoices/pi_specific_invoice.py:100-102 | a present value is shown starting with `$` |
| Sheets.RenderCell | process_report/invoices/pi_specific_invoice.py:97-104 | a missing value becomes "", a present dollar value gets `$`, and other values are kept |
| Sheets.Render | process_report/invoices/pi_specific_invoice.py:97-104 | the sheet has the frame's rows and the given columns, each cell rendered as above |
| Sheets.RenderedCellsFilled | process_report/invoices/MOCA_group_specific_invoice.py:109-116 | no rendered cell is missing, and every present dollar value starts with `$` |
| Sheets.SetAmountsOther | process_report/invoices/pi_specific_invoice.py:95 | setting the sums list leaves the unlisted columns alone |
| Sheets.SetAmountsListed | process_report/invoices/pi_specific_invoice.py:95 | setting the sums list gives each listed column its own sum |
| Sheets.ColumnSums | process_report/invoices/pi_specific_invoice.py:85-90 | one sum per listed column: the sum of its present values |
| Sheets.TotalRowLabel | process_report/invoices/pi_specific_invoice.py:91-94 | the totals row is labelled "Total" in the invoice-month column |
| Sheets.TotalRowSum | process_report/invoices/pi_specific_invoice.py:95 | the totals row holds, in each listed column, the sum of its present values |
| Sheets.TotalRowBlank | process_report/invoices/pi_specific_invoice.py:91-93 | the totals row is empty in every column that is neither the label nor listed |
| Sheets.SumRow | process_report/invoices/pi_specific_invoice.py:84-95 | the loop over the total columns builds the totals row |
| MocaGroupSpecificInvoice.TotalColumnsWellFormed | process_report/invoices/MOCA_group_specific_invoice.py:18-23 | the four totalled columns are amount columns, each listed once |
| MocaGroupSpecificInvoice.CopyColumnsCells | process_report/invoices/MOCA_group_specific_invoice.py:83-87 | copied columns take the source's values; the others keep their own |
| MocaGroupSpecificInvoice.CopyColumnsSelf | process_report/invoices/MOCA_group_specific_invoice.py:83-87 | copying a row onto itself changes nothing |
| MocaGroupSpecificInvoice.CopyCellFromSame | process_report/invoices/MOCA_group_specific_invoice.py:83-87 | copying from two rows that agree on the copied columns gives the same row |
| MocaGroupSpecificInvoice.CopyColumnsMakeCreditRow | process_report/invoices/MOCA_group_specific_invoice.py:79-92 | a blank row with the four columns copied and the credit in Cost and Balance is the credit row |
| MocaGroupSpecificInvoice.CreditRow | process_report/invoices/MOCA_group_specific_invoice.py:77-92 | a blank row with the month, e-mail, group name and group institution of the source row and the credit in Cost and Balance |
| MocaGroupSpecificInvoice.CopyColumnsStep | process_report/invoices/MOCA_group_specific_invoice.py:83-87 | copying a list of columns and then one more is copying the longer list |
| MocaGroupSpecificInvoice.CopyFirstCreditColumns | process_report/invoices/MOCA_group_specific_invoice.py:83-87 | copying the month, email and group name onto a blank row sets exactly those three fields |
| MocaGroupSpecificInvoice.CreditStep | process_report/invoices/MOCA_group_specific_invoice.py:77-92 | billing the credit in Cost and Balance of the copied row appends the next credit row, and the first row keeps its copied columns |
| MocaGroupSpecificInvoice.CreditRows | process_report/invoices/MOCA_group_specific_invoice.py:77-92 | one credit row per credit, in order |
| MocaGroupSpecificInvoice.CreditRowsSnoc | process_report/invoices/MOCA_group_specific_invoice.py:77-79 | one more credit appends its credit row |
| MocaGroupSpecificInvoice.GroupFrameShape | process_report/invoices/MOCA_group_specific_invoice.py:67-107 | the frame is the group's rows in order, then one credit row per credit of that month and group, then "Total"; its length is group rows plus credits plus one |
| MocaGroupSpecificInvoice.TableShape | process_report/invoices/MOCA_group_specific_invoice.py:77-107 | the body is followed by its totals row |
| MocaGroupSpecificInvoice.CreditRowAt | process_report/invoices/MOCA_group_specific_invoice.py:77-92 | the position after the group rows holds the `j`-th credit's row |
| MocaGroupSpecificInvoice.CreditRowCells | process_report/invoices/MOCA_group_specific_invoice.py:79-92 | a credit row has Cost = Balance = the credit, copies month, e-mail, group name and group institution from its source, and is empty elsewhere |
| MocaGroupSpecificInvoice.CopySourceOfEmptyGroup | process_report/invoices/MOCA_group_specific_invoice.py:85-87 | with no group rows, the copied values are missing |
| MocaGroupSpecificInvoice.CreditRowAmounts | process_report/invoices/MOCA_group_specific_invoice.py:90-92 | credit rows contribute the credits to Cost and Balance and nothing to the other totals |
| MocaGroupSpecificInvoice.StackedTotal | process_report/invoices/MOCA_group_specific_invoice.py:94-107 | the totals over stacked blocks add the blocks' sums |
| MocaGroupSpecificInvoice.BilledTotal | process_report/invoices/MOCA_group_specific_invoice.py:90-107 | the Cost or Balance total is the group rows' sum plus the credits |
| MocaGroupSpecificInvoice.OwnTotal | process_report/invoices/MOCA_group_specific_invoice.py:94-107 | the prepaid-used or Credit total is the group rows' own sum |
| MocaGroupSpecificInvoice.ExampleColumnSums | process_report/invoices/MOCA_group_specific_invoice.py:94-107 | the column sums of the three-project example |
| MocaGroupSpecificInvoice.ExampleSelection | process_report/invoices/MOCA_group_specific_invoice.py:68-76 | in the example every row and the credit are selected |
| MocaGroupSpecificInvoice.OneGroupTotalsExample | process_report/invoices/MOCA_group_specific_invoice.py:94-107 | the example's totals are 5000 cost, 3000 prepaid used, 100 credit and 5600 balance |
| MocaGroupSpecificInvoice.OtherMonthsExcluded | process_report/invoices/MOCA_group_specific_invoice.py:73-76 | when no credit is for that month and group, no credit row is added |
| MocaGroupSpecificInvoice.GroupListMembers | process_report/invoices/MOCA_group_specific_invoice.py:65 | the group list names each group of the rows once and nothing else |
| MocaGroupSpecificInvoice.GroupListHasRows | process_report/invoices/MOCA_group_specific_invoice.py:65-70 | each listed group has at least one row |
| MocaGroupSpecificInvoice.GroupList | process_report/invoices/MOCA_group_specific_invoice.py:65 | the distinct group names of the kept rows, in first-appearance order |
| MocaGroupSpecificInvoice.GroupFrame | process_report/invoices/MOCA_group_specific_invoice.py:67-107 | the group's rows, the credit rows of its credits that month, then the totals row |
| MocaGroupSpecificInvoice.PrepareKeepsExactly | process_report/invoices/MOCA_group_specific_invoice.py:58-64 | the two filters keep exactly the billable rows with a PI and a group |
| MocaGroupSpecificInvoice.MOCAGroupInvoice.constructor | process_report/invoices/MOCA_group_specific_invoice.py:56 | the invoice holds its month, data and credits table |
| MocaGroupSpecificInvoice.MOCAGroupInvoice.Prepare | process_report/invoices/MOCA_group_specific_invoice.py:58-65 | the export data is the double selection, the group list is its groups, and the data is unchanged |
| MocaGroupSpecificInvoice.MOCAGroupInvoice.GroupDataframe | process_report/invoices/MOCA_group_specific_invoice.py:67-118 | the result is the group frame rendered over the export columns |
| MocaGroupSpecificInvoice.CopyStep | process_report/invoices/MOCA_group_specific_invoice.py:83-87 | one pass of the copy loop copies one more column and leaves earlier rows alone |
| MocaGroupSpecificInvoice.AddCreditRows | process_report/invoices/MOCA_group_specific_invoice.py:77-92 | the credit loop yields the group rows followed by one credit row per credit |
| PiSpecificInvoice.TotalColumnsWellFormed | process_report/invoices/pi_specific_invoice.py:26-30 | the three totalled columns are amount columns, each listed once |
| PiSpecificInvoice.PrepareKeepsExactly | process_report/invoices/pi_specific_invoice.py:63-66 | the export data keeps exactly the billable rows with a PI, in order |
| PiSpecificInvoice.PiListMembers | process_report/invoices/pi_specific_invoice.py:67 | the PI list names each PI of the kept rows once, a missing PI included |
| PiSpecificInvoice.PiListHasRows | process_report/invoices/pi_specific_invoice.py:67-70 | each listed PI has at least one row |
| PiSpecificInvoice.PiList | process_report/invoices/pi_specific_invoice.py:67 | the distinct PIs of the kept rows in first-appearance order, a missing PI included |
| PiSpecificInvoice.PiColumns | process_report/invoices/pi_specific_invoice.py:72-82 | all export columns, less the four group columns when no row names a group |
| PiSpecificInvoice.PiFrame | process_report/invoices/pi_specific_invoice.py:69-95 | the PI's rows followed by their totals row |
| PiSpecificInvoice.PdfPath | process_report/invoices/pi_specific_invoice.py:120-122 | `<name>/<institution>_<pi>_<month>.pdf` |
| PiSpecificInvoice.MissingPiNeverListed | process_report/invoices/pi_specific_invoice.py:63-67 | after classification no missing PI reaches the list |
| PiSpecificInvoice.PiFrameShape | process_report/invoices/pi_specific_invoice.py:70-94 | the frame is the PI's rows in order, then "Total": one row more |
| PiSpecificInvoice.PiTotals | process_report/invoices/pi_specific_invoice.py:84-95 | the totals row holds the Cost, Credit and Balance sums only |
| PiSpecificInvoice.GroupColumnsDroppedIff | process_report/invoices/pi_specific_invoice.py:72-82 | a group column is shown exactly when some row of the PI names a group |
| PiSpecificInvoice.PdfPathUsesFirstProject | process_report/invoices/pi_specific_invoice.py:119-122 | the file name uses the institution of the PI's first project |
| PiSpecificInvoice.ExportSkipsMissingPi | process_report/invoices/pi_specific_invoice.py:114-116 | one invoice per present PI, so one fewer than the list when a missing PI is on it |
| PiSpecificInvoice.ExportEntries | process_report/invoices/pi_specific_invoice.py:114-122 | each invoice written is that of a listed PI, in list order |
| PiSpecificInvoice.PIInvoice.constructor | process_report/invoices/pi_specific_invoice.py:18-19 | the invoice holds its folder name, month and data |
| PiSpecificInvoice.PIInvoice.Prepare | process_report/invoices/pi_specific_invoice.py:63-67 | the export data is the selection, the PI list is its PIs, and the data is unchanged |
| PiSpecificInvoice.PIInvoice.PiDataframe | process_report/invoices/pi_specific_invoice.py:69-106 | the result is the PI frame rendered over its columns |
| PiSpecificInvoice.PIInvoice.Export | process_report/invoices/pi_specific_invoice.py:108-122 | the loop writes the invoice of each present PI, in list order |
| PrepayCreditsSnapshot.ManagedGroupsMembers | process_report/invoices/prepay_credits_snapshot.py:42-45 | a group is managed exactly when some contact row for it says "Yes" |
| PrepayCreditsSnapshot.ManagedGroups | process_report/invoices/prepay_credits_snapshot.py:42-45 | the group names of the contact rows marked "Yes", in row order |
| PrepayCreditsSnapshot.Snapshot | process_report/invoices/prepay_credits_snapshot.py:41-54 | the credits of the invoice month whose group is in the managed list, in order |
| PrepayCreditsSnapshot.SnapshotExactly | process_report/invoices/prepay_credits_snapshot.py:41-57 | the snapshot keeps the credits' order and holds exactly the credits of the month whose group is managed |
| PrepayCreditsSnapshot.SnapshotExcludes | process_report/invoices/prepay_credits_snapshot.py:47-53 | credits of other months or unmanaged groups never appear |
| PrepayCreditsSnapshot.OutputPath | process_report/invoices/prepay_credits_snapshot.py:29-31 | the file name is the prefix, the month and ".csv" |
| PrepayCreditsSnapshot.OutputPathInjective | process_report/invoices/prepay_credits_snapshot.py:29-31 | different months get different files |
| PrepayCreditsSnapshot.S3KeyIsOutputPathUnderMonth | process_report/invoices/prepay_credits_snapshot.py:33-35 | the upload key is the file name under `Invoices/<month>/` |
| PrepayCreditsSnapshot.OutputS3Key | process_report/invoices/prepay_credits_snapshot.py:33-35 | `Invoices/<month>/NERC_Prepaid_Group-Credits-<month>.csv` |
| NonbillableInvoice.ExportColumnsFixed | process_report/invoices/nonbillable_invoice.py:11-25 | thirteen distinct columns, Cluster Name among them, and no group or credit column |
| NonbillableInvoice.PrepareExport | process_report/invoices/nonbillable_invoice.py:27-28 | the export keeps the data's order and holds exactly the rows marked not billable |
| NonbillableInvoice.DisjointFromBilledRows | process_report/invoices/nonbillable_invoice.py:27-28 | no row is both on this invoice and billed on the PI invoices |
| BmInvoice.PrepareExport | process_report/invoices/bm_invoice.py:27-30 | the export keeps the data's order and holds exactly the rows whose project ID is "ESI Bare Metal" |
| BmInvoice.ExportColumnsFixed | process_report/invoices/bm_invoice.py:9-25 | fifteen distinct columns, no group or cluster column |
| BmInvoice.RelabelledRowsSelected | process_report/invoices/bm_invoice.py:27-30 | every row the bare-metal processor relabels is on this invoice |
| ProcessReport.AliasFields | process_report/process_report.py:55 | a stripped and split line has at least one field |
| ProcessReport.AliasEntry | process_report/process_report.py:55-56 | a line's key is its first field and its aliases the remaining fields |
| ProcessReport.AliasMap | process_report/process_report.py:49-61 | the lines' entries stored in file order, a later line overwriting an earlier one's key |
| ProcessReport.LoadAlias | process_report/process_report.py:49-61 | the loop's dictionary is the lines' entries applied in order |
| ProcessReport.AliasMapSnoc | process_report/process_report.py:54-56 | reading one more line sets the entry of its first field to its remaining fields |
| ProcessReport.LastWinsMapSnoc | process_report/process_report.py:56 | filling from one more item sets that item's key to its value |
| ProcessReport.LastWinsKeys | process_report/process_report.py:54-56 | the keys are exactly the keys of the entries read |
| ProcessReport.LastWinsValue | process_report/process_report.py:56 | a key holds the value of its last entry |
| ProcessReport.AliasMapKeys | process_report/process_report.py:54-56 | a PI is a key exactly when some line starts with it |
| ProcessReport.AliasLastLineWins | process_report/process_report.py:56 | a PI's aliases are those of the last line naming it |
| ProcessReport.AliasLineRoundTrip | process_report/process_report.py:55-56 | a line of comma-joined fields yields its first field as key and the rest, in order, as aliases |
| ProcessReport.TimedProjects | process_report/process_report.py:425-438 | fails exactly when some present date is not `%Y-%m` or falls outside the nanosecond timestamp range, with the format message exactly when some date is not `%Y-%m` |
| ProcessReport.FormattedDateParses | process_report/process_report.py:430-433 | a `YYYY-MM` date is well-formed, and converts exactly when its month lies from 1677-10 to 2262-04 |
| ProcessReport.StartBeforeTimestampRangeFails | process_report/process_report.py:430-432 | a well-formed start date in 1500 makes the conversion fail with the bounds message |
| ProcessReport.TimedProjectsInFileOrder | process_report/process_report.py:438 | the listed projects keep the file's order |
| ProcessReport.TimedProjectsMembers | process_report/process_report.py:435-438 | a project is listed exactly when one of its rows has start ≤ month ≤ end |
| ProcessReport.WindowEnds | process_report/process_report.py:435-437 | both ends of the window are inclusive, and a missing end never matches |
| ProcessReport.ExcludedProjectsUnion | process_report/process_report.py:248 | a project is excluded exactly when either list names it, and the union is no longer than both lists |
| ProcessReport.ExcludedProjects | process_report/process_report.py:248 | the set of names on either list |
| ProcessReport.SetOfSeqBound | process_report/process_report.py:248 | a list has no more distinct names than entries |
| ProcessReport.LenovoSuChargeInfo | process_report/process_report.py:448-454 | the map has exactly the keys GPUA100SXM4 and GPUH100, each with its "Lenovo ... Charge" rate |
| ProcessReport.ProcessorOrderFixed | process_report/process_report.py:252-317 | nine stages, each once, with Lenovo and billable-PI at positions 4 and 5 and the three credit stages after them |
| ProcessReport.LenovoKeepsProjects | process_report/process_report.py:274-284 | the Lenovo stage leaves the project column as the billable-PI stage needs it |
| ProcessReport.RunProcessors | process_report/process_report.py:252-317 | building and running the processors in main's order gives the pipeline's result, with the billable stage computed as the code does it |
| ProcessReport.PipelineUnfolds | process_report/process_report.py:252-317 | the fixed order is the nine stages applied in turn, each to the previous stage's result |
| ProcessReport.PipelineFront | process_report/process_report.py:252-272 | the first four stages apply in turn, Coldfront to the cluster-name stage's result |
| ProcessReport.PipelineMiddle | process_report/process_report.py:274-284 | Lenovo pricing, then classification |
| ProcessReport.BillableStep | process_report/processors/validate_billable_pi_processor.py:121-125 | the billable-PI stage replaces the data by its classification |
| ProcessReport.StageEffect | process_report/process_report.py:274-284 | the Lenovo stage prices the rows, the billable-PI stage classifies them as the code does, and the other stages are given functions |
| ProcessReport.Pipeline | process_report/process_report.py:252-317 | the stages run in order, each on the previous one's data, and the billable stage meeting a row with no project is the error case |
| ProcessReport.PipelineBack | process_report/process_report.py:286-317 | the three credit stages apply in turn |
| ProcessReport.PipelineStep | process_report/process_report.py:252-317 | running from one stage is running that stage and then the rest |

## Left out

- Reading and writing files, S3, PDF and HTML rendering, logging, the clock and `sys.exit` are
  left out. File contents are sequences, and the rates lookup is a parameter.
- The prepay archive key is left out, because it reads the clock.
- The invoice `export()` methods are left out, except the PI invoice's loop over its PI list
  (`PIInvoice.Export`). In that loop the HTML template and the PDF writer are an output value
  (`PiPdf`), and the number printer used for `$` amounts is an abstract function.
- `_filter_columns` renaming is left out.
- Lower-casing is ASCII only. Python lower-cases all of Unicode.
- `%Y-%m` digits are ASCII only. Python's `\d` also matches other Unicode digits.
- `validate_domain` is left out. It defers to an outside library's list of top-level domains,
  so domains are opaque strings.
- Pydantic's type coercion is left out. A field must already hold a value of its declared kind.
- The processors `main` calls whose source is not part of this model are left out: cluster-name validation, Coldfront
  fetch, PI alias validation, add-institution, new-PI credit, BU subsidy and prepayment. In
  `ProcessReport.Pipeline` and `ProcessReport.RunProcessors` they are given functions. The
  subsidy stage's `.copy()` changes nothing under value semantics.
- `main` hands `ValidateBillablePIsProcessor` a plain list of project names where the class
  expects a table of (name, cluster). The model types that argument as the table.
- `main` passes `lenovo_su_charge_info` to the Lenovo processor, but the class never reads it; it uses the fixed `SU_CHARGE_MAP`. The model follows the class.
- ExcludedProjectsUnion: `list(set(...))` has an unspecified order, so the union is a `set`, and
  only membership and size are stated.
- TimedProjects: the invoice month is taken as an already parsed year and month. pandas would
  convert the string itself, and that step is not modelled.
- PrepayCreditsSnapshot.SnapshotExactly: `isin` matches a missing group with a missing managed
  group, and the model keeps that behaviour.
- The pandas row index is not modelled. Frames re-indexed with `reset_index` are plain sequences.
- The tests that expect course-based non-billability, a different Lenovo price, or a selective
  bare-metal mask disagree with the code. The model follows the code.
- Group and PI invoices: the source's `if column_name in ...columns` checks are always true for
  the copy and total columns. The one exception is the PI frame after the group columns are
  dropped, and there only the prepaid-used column is affected, which is not totalled.
- BmUsageProcessor.BMUsageProcessor.Process requires every row to have a project name.
  Appending the suffix to a missing name raises in the source.
- ValidateBillablePiProcessor.Classify requires every row to have a project name.
  Lower-casing a missing project raises in the source.
- ValidateBillablePiProcessor.Classify is the corrected, row-by-row classification of the
  finding below, not what `_process` computes on a table that repeats a lower-cased
  (name, cluster) pair. The processor, `ValidateBillablePIsProcessor.Process`, and the
  pipeline use `ClassifyAsWritten`, which is what the code computes; the two agree whenever
  no row joins twice (`ClassifyAsWrittenAgrees`).
- ProcessReport.RunProcessors: `main` builds the Coldfront processor on `merged_dataframe`
  itself (process_report.py:259-261), not on the cluster-name processor's data. The model
  feeds the cluster-name stage's result to Coldfront, which is right only if that processor
  rewrites the shared frame in place, as the modelled processors do with column assignment.
  The cluster-name processor's source is not part of this model. `ProcessReport.PipelineFront`
  and `ProcessReport.PipelineUnfolds` rest on the same assumption.
- TimedProjects: the timestamp range is that of pandas 2's default nanosecond timestamps;
  other pandas versions may choose another unit and accept a wider range. Which message a
  failure carries is simplified: pandas reports the first bad value it meets, and the model
  reports the format error whenever some date is not `%Y-%m`.

## Findings

| source | as written | input that shows it | evidently intended | confidence | as-written member | corrected member |
|---|---|---|---|---|---|---|
| process_report/processors/validate_billable_pi_processor.py:67-83, 116-119 | The left merge emits one merged row per matching table entry, and the project mask is combined with the per-row PI mask by position. A table that lists a (name, cluster) pair twice therefore makes the mask longer than the data, and every later row reads the flag of the row before it. | Rows `a@c1` and `b@c1`, with the table listing `a@c1` twice: row `b` is flagged not billable. With rows `q@c1`, `p@c1`, `r@ocp-test` and `q@c1` listed twice, the `ocp-test` row is flagged billable. | Each row is billable exactly when its PI and its own project and cluster pass the tests. | not executed | ValidateBillablePiProcessor.GetBillablesAsWritten, ValidateBillablePiProcessor.DuplicateEntryShiftsFlags, ValidateBillablePiProcessor.AsWrittenBillsTestCluster | ValidateBillablePiProcessor.GetBillables, ValidateBillablePiProcessor.Classify |
