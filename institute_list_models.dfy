/**
 * The institute directory: one record per institute (display name, e-mail domains, partnership
 * start month and two flags), the field rules a raw record must satisfy, and the list-level
 * rules that no display name and no domain occurs twice.
 */
module InstituteListModels {
  import opened Wrappers
  import opened Frames
  import opened MonthFormat

  /** A validated institute record; the three optional fields already hold their defaults. */
  datatype InstituteInfo = InstituteInfo(
    displayName: string,
    domains: seq<string>,
    partnershipStartDate: Option<string>,
    includeInNercTotalInvoice: bool,
    coursesNonbillable: bool)

  /** A loaded YAML value, as far as the record's fields can use one. */
  datatype Value = VStr(s: string) | VBool(b: bool) | VList(items: seq<string>) | VNull

  /** A raw record: YAML mapping from key to value. */
  type RawRecord = map<string, Value>

  const DISPLAY_NAME := "display_name"
  const DOMAINS := "domains"
  const PARTNERSHIP_START := "mghpcc_partnership_start_date"
  const INCLUDE_IN_NERC_TOTAL := "include_in_nerc_total_invoice"
  const COURSES_NONBILLABLE := "courses_nonbillable"

  /** The five declared fields; any other key is forbidden. */
  const FIELD_NAMES: set<string> :=
    {DISPLAY_NAME, DOMAINS, PARTNERSHIP_START, INCLUDE_IN_NERC_TOTAL, COURSES_NONBILLABLE}

  /**
   * The partnership-date validator: the string is accepted, unchanged, exactly when it reads as
   * a `%Y-%m` month; otherwise the record is rejected with the date message.
   */
  function ParseDate(v: string): (r: Result<string, string>)
    ensures r.Success? <==> ParseYearMonth(v).Some?
    ensures r.Success? ==> r.value == v
    ensures r.Failure? ==> r.error == "Invalid date string " + v + ". Must be in format YYYY-MM"
  {
    match ParseYearMonth(v)
    case Some(_) => Success(v)
    case None => Failure("Invalid date string " + v + ". Must be in format YYYY-MM")
  }

  /** An optional field is acceptable when it is missing or holds a value of its kind. */
  predicate OptionalBoolOk(raw: RawRecord, key: string) {
    key !in raw || raw[key].VBool?
  }

  /** Reference description of a record the model accepts, field by field. */
  predicate WellFormed(raw: RawRecord) {
    && raw.Keys <= FIELD_NAMES
    && DISPLAY_NAME in raw && raw[DISPLAY_NAME].VStr?
    && DOMAINS in raw && raw[DOMAINS].VList?
    && (PARTNERSHIP_START in raw ==>
          raw[PARTNERSHIP_START].VNull?
          || (raw[PARTNERSHIP_START].VStr? && ParseYearMonth(raw[PARTNERSHIP_START].s).Some?))
    && OptionalBoolOk(raw, INCLUDE_IN_NERC_TOTAL)
    && OptionalBoolOk(raw, COURSES_NONBILLABLE)
  }

  /** A boolean field with default `false`. */
  function BoolField(raw: RawRecord, key: string): (r: Result<bool, string>)
    ensures r.Success? <==> OptionalBoolOk(raw, key)
    ensures r.Success? ==> (r.value <==> key in raw && raw[key] == VBool(true))
  {
    if key !in raw then Success(false)
    else match raw[key]
      case VBool(b) => Success(b)
      case _ => Failure(key + ": Input should be a valid boolean")
  }

  /** The partnership start field: missing or null gives no date, a string must parse. */
  function StartDateField(raw: RawRecord): (r: Result<Option<string>, string>)
    ensures r.Success? ==> (r.value.None? <==> PARTNERSHIP_START !in raw || raw[PARTNERSHIP_START].VNull?)
    ensures r.Success? && r.value.Some? ==>
              raw[PARTNERSHIP_START] == VStr(r.value.value) && ParseYearMonth(r.value.value).Some?
  {
    if PARTNERSHIP_START !in raw then Success(None)
    else match raw[PARTNERSHIP_START]
      case VNull => Success(None)
      case VStr(s) =>
        (match ParseDate(s)
         case Success(d) => Success(Some(d))
         case Failure(e) => Failure(e))
      case _ => Failure(PARTNERSHIP_START + ": Input should be a valid string")
  }

  /**
   * Validation of one record: unknown keys are rejected, the display name and the domain list
   * are required, and the three optional fields take their defaults when omitted.
   */
  function ParseInstituteInfo(raw: RawRecord): (r: Result<InstituteInfo, string>)
    ensures r.Success? <==> WellFormed(raw)
    ensures r.Success? ==> raw[DISPLAY_NAME] == VStr(r.value.displayName)
    ensures r.Success? ==> raw[DOMAINS] == VList(r.value.domains)
    ensures r.Success? ==>
              (r.value.partnershipStartDate.None? <==>
                 PARTNERSHIP_START !in raw || raw[PARTNERSHIP_START].VNull?)
    ensures r.Success? && r.value.partnershipStartDate.Some? ==>
              raw[PARTNERSHIP_START] == VStr(r.value.partnershipStartDate.value)
    ensures r.Success? ==>
              (r.value.includeInNercTotalInvoice <==>
                 INCLUDE_IN_NERC_TOTAL in raw && raw[INCLUDE_IN_NERC_TOTAL] == VBool(true))
    ensures r.Success? ==>
              (r.value.coursesNonbillable <==>
                 COURSES_NONBILLABLE in raw && raw[COURSES_NONBILLABLE] == VBool(true))
  {
    if !(raw.Keys <= FIELD_NAMES) then Failure("Extra inputs are not permitted")
    else if DISPLAY_NAME !in raw || !raw[DISPLAY_NAME].VStr? then Failure(DISPLAY_NAME + ": Field required")
    else if DOMAINS !in raw || !raw[DOMAINS].VList? then Failure(DOMAINS + ": Field required")
    else
      match StartDateField(raw)
      case Failure(e) => Failure(e)
      case Success(start) =>
        match BoolField(raw, INCLUDE_IN_NERC_TOTAL)
        case Failure(e) => Failure(e)
        case Success(nerc) =>
          match BoolField(raw, COURSES_NONBILLABLE)
          case Failure(e) => Failure(e)
          case Success(courses) =>
            Success(InstituteInfo(raw[DISPLAY_NAME].s, raw[DOMAINS].items, start, nerc, courses))
  }

  /** The raw record that lists every field of `info` explicitly. */
  function ToRaw(info: InstituteInfo): RawRecord {
    map[DISPLAY_NAME := VStr(info.displayName),
        DOMAINS := VList(info.domains),
        PARTNERSHIP_START := (if info.partnershipStartDate.Some? then VStr(info.partnershipStartDate.value) else VNull),
        INCLUDE_IN_NERC_TOTAL := VBool(info.includeInNercTotalInvoice),
        COURSES_NONBILLABLE := VBool(info.coursesNonbillable)]
  }

  /** A record whose date (if any) is a valid month validates back to itself. */
  lemma ParseToRawRoundTrip(info: InstituteInfo)
    requires info.partnershipStartDate.Some? ==> ParseYearMonth(info.partnershipStartDate.value).Some?
    ensures ParseInstituteInfo(ToRaw(info)) == Success(info)
  {
    var raw := ToRaw(info);
    assert raw.Keys == FIELD_NAMES;
    assert WellFormed(raw);
  }

  /** Omitted optional fields take their defaults: no start date, both flags false. */
  lemma DefaultsWhenOmitted(name: string, domains: seq<string>)
    ensures ParseInstituteInfo(map[DISPLAY_NAME := VStr(name), DOMAINS := VList(domains)])
            == Success(InstituteInfo(name, domains, None, false, false))
  {
    var raw := map[DISPLAY_NAME := VStr(name), DOMAINS := VList(domains)];
    assert raw.Keys <= FIELD_NAMES;
    assert PARTNERSHIP_START !in raw && INCLUDE_IN_NERC_TOTAL !in raw && COURSES_NONBILLABLE !in raw;
  }

  /** Any key outside the five declared fields rejects the record, whatever else it holds. */
  lemma ExtraKeyRejected(raw: RawRecord, key: string)
    requires key in raw && key !in FIELD_NAMES
    ensures ParseInstituteInfo(raw).Failure?
  {
  }

  /** A record whose key has a typo in one letter is rejected. */
  lemma MisspelledKeyRejected()
    ensures ParseInstituteInfo(map[DISPLAY_NAME := VStr("i1"), DOMAINS := VList(["i1.edu"]),
                                   PARTNERSHIP_START := VStr("2022-01"),
                                   "include_in_Nerc_total_invoice" := VBool(true)]).Failure?
  {
    ExtraKeyRejected(map[DISPLAY_NAME := VStr("i1"), DOMAINS := VList(["i1.edu"]),
                         PARTNERSHIP_START := VStr("2022-01"),
                         "include_in_Nerc_total_invoice" := VBool(true)],
                     "include_in_Nerc_total_invoice");
  }

  /** Every record of a list validates, or the first failure is reported. */
  function ParseAll(raws: seq<RawRecord>): (r: Result<seq<InstituteInfo>, string>)
    ensures r.Success? <==> forall k :: 0 <= k < |raws| ==> WellFormed(raws[k])
    ensures r.Success? ==> |r.value| == |raws|
    ensures r.Success? ==> forall k :: 0 <= k < |raws| ==> ParseInstituteInfo(raws[k]) == Success(r.value[k])
  {
    if raws == [] then Success([])
    else
      match ParseInstituteInfo(raws[0])
      case Failure(e) => Failure(e)
      case Success(first) =>
        match ParseAll(raws[1..])
        case Failure(e) => Failure(e)
        case Success(rest) =>
          assert forall k :: 1 <= k < |raws| ==> raws[k] == raws[1..][k - 1];
          Success([first] + rest)
  }

  function DisplayNameOf(info: InstituteInfo): string {
    info.displayName
  }

  function CoursesNonbillable(info: InstituteInfo): bool {
    info.coursesNonbillable
  }

  /** The display names, in list order. */
  function DisplayNames(institutes: seq<InstituteInfo>): (names: seq<string>)
    ensures |names| == |institutes|
    ensures forall k :: 0 <= k < |institutes| ==> names[k] == institutes[k].displayName
  {
    MapSeq(institutes, DisplayNameOf)
  }

  /** Every domain of every institute, institute by institute, in order. */
  function AllDomains(institutes: seq<InstituteInfo>): seq<string> {
    if institutes == [] then []
    else AllDomains(institutes[..|institutes| - 1]) + institutes[|institutes| - 1].domains
  }

  lemma {:induction false} AllDomainsAppend(a: seq<InstituteInfo>, b: seq<InstituteInfo>)
    ensures AllDomains(a + b) == AllDomains(a) + AllDomains(b)
    decreases |b|
  {
    if b == [] {
      assert a + b == a;
    } else {
      var bInit := b[..|b| - 1];
      assert (a + b)[..|a + b| - 1] == a + bInit;
      AllDomainsAppend(a, bInit);
    }
  }

  /**
   * The display-name rule, walking the list with a set of names seen so far: it fails exactly
   * when some name occurs twice, naming the first repeated one, and otherwise returns the list.
   */
  method ValidateNoDisplayNameDuplicates(institutes: seq<InstituteInfo>) returns (r: Result<seq<InstituteInfo>, string>)
    ensures r.Success? <==> NoDuplicates(DisplayNames(institutes))
    ensures r.Success? ==> r.value == institutes
    ensures r.Failure? ==>
              exists j :: FirstRepeatAt(DisplayNames(institutes), j)
                          && r.error == "Duplicate institute display name found: " + institutes[j].displayName
  {
    var names := DisplayNames(institutes);
    var nameSet: set<string> := {};
    var i := 0;
    while i < |institutes|
      invariant 0 <= i <= |institutes|
      invariant forall x :: x in nameSet <==> x in names[..i]
      invariant NoDuplicates(names[..i])
    {
      var name := institutes[i].displayName;
      assert names[..i + 1] == names[..i] + [name];
      if name in nameSet {
        assert FirstRepeatAt(names, i);
        FirstRepeatBreaksNoDuplicates(names, i);
        return Failure("Duplicate institute display name found: " + name);
      }
      NoDuplicatesSnoc(names[..i], name);
      nameSet := nameSet + {name};
      i := i + 1;
    }
    assert names[..i] == names;
    return Success(institutes);
  }

  /** The domain list splits around any one institute. */
  lemma AllDomainsSplit(institutes: seq<InstituteInfo>, i: int)
    requires 0 <= i < |institutes|
    ensures AllDomains(institutes[..i + 1]) == AllDomains(institutes[..i]) + institutes[i].domains
    ensures AllDomains(institutes)
            == AllDomains(institutes[..i]) + institutes[i].domains + AllDomains(institutes[i + 1..])
  {
    assert institutes[..i + 1][..i] == institutes[..i];
    assert institutes == institutes[..i + 1] + institutes[i + 1..];
    AllDomainsAppend(institutes[..i + 1], institutes[i + 1..]);
  }

  /** Walking position `k` of the middle part of a concatenation. */
  lemma PrefixThrough<T>(all: seq<T>, before: seq<T>, mid: seq<T>, after: seq<T>, k: int)
    requires all == before + mid + after
    requires 0 <= k < |mid|
    ensures all[..|before| + k] == before + mid[..k]
    ensures all[|before| + k] == mid[k]
    ensures before + mid[..k + 1] == (before + mid[..k]) + [mid[k]]
  {
    assert mid[..k + 1] == mid[..k] + [mid[k]];
  }

  /**
   * The domain rule, walking every domain of every institute with a set of domains seen so
   * far: it fails exactly when some domain occurs twice, within one institute or across two,
   * naming the first repeated one, and otherwise returns the list.
   */
  method ValidateNoDomainDuplicates(institutes: seq<InstituteInfo>) returns (r: Result<seq<InstituteInfo>, string>)
    ensures r.Success? <==> NoDuplicates(AllDomains(institutes))
    ensures r.Success? ==> r.value == institutes
    ensures r.Failure? ==>
              exists j :: FirstRepeatAt(AllDomains(institutes), j)
                          && r.error == "Duplicate domain: " + AllDomains(institutes)[j]
  {
    ghost var all := AllDomains(institutes);
    var seen: set<string> := {};
    var i := 0;
    while i < |institutes|
      invariant 0 <= i <= |institutes|
      invariant forall x :: x in seen <==> x in AllDomains(institutes[..i])
      invariant NoDuplicates(AllDomains(institutes[..i]))
    {
      ghost var before := AllDomains(institutes[..i]);
      var domains := institutes[i].domains;
      AllDomainsSplit(institutes, i);
      var k := 0;
      while k < |domains|
        invariant 0 <= k <= |domains|
        invariant forall x :: x in seen <==> x in before + domains[..k]
        invariant NoDuplicates(before + domains[..k])
      {
        var d := domains[k];
        PrefixThrough(all, before, domains, AllDomains(institutes[i + 1..]), k);
        if d in seen {
          assert FirstRepeatAt(all, |before| + k);
          FirstRepeatBreaksNoDuplicates(all, |before| + k);
          return Failure("Duplicate domain: " + d);
        }
        NoDuplicatesSnoc(before + domains[..k], d);
        seen := seen + {d};
        k := k + 1;
      }
      assert domains[..k] == domains;
      i := i + 1;
    }
    assert institutes[..i] == institutes;
    return Success(institutes);
  }

  /**
   * Validation of the whole directory: every record by its field rules, then the display-name
   * rule, then the domain rule.
   */
  method ModelValidate(raws: seq<RawRecord>) returns (r: Result<seq<InstituteInfo>, string>)
    ensures r.Success? <==>
              && ParseAll(raws).Success?
              && NoDuplicates(DisplayNames(ParseAll(raws).value))
              && NoDuplicates(AllDomains(ParseAll(raws).value))
    ensures r.Success? ==> r.value == ParseAll(raws).value
  {
    var parsed := ParseAll(raws);
    if parsed.Failure? {
      return Failure(parsed.error);
    }
    r := ValidateNoDisplayNameDuplicates(parsed.value);
    if r.Failure? {
      return;
    }
    r := ValidateNoDomainDuplicates(parsed.value);
  }

  /** Extending the list by one institute extends the course list by its name when it is flagged. */
  lemma CourseListSnoc(done: seq<InstituteInfo>, x: InstituteInfo)
    ensures DisplayNames(Where(done + [x], CoursesNonbillable))
            == DisplayNames(Where(done, CoursesNonbillable)) + (if x.coursesNonbillable then [x.displayName] else [])
  {
    WhereAppend(done, [x], CoursesNonbillable);
    var sel := Where(done, CoursesNonbillable);
    var last := Where([x], CoursesNonbillable);
    assert last == if x.coursesNonbillable then [x] else [];
    MapSeqAppend(sel, last, DisplayNameOf);
  }

  /**
   * The display names of the institutes whose courses are nonbillable, in list order, built by
   * appending one name per such institute.
   */
  method NonbillableCourseList(institutes: seq<InstituteInfo>) returns (names: seq<string>)
    ensures names == DisplayNames(Where(institutes, CoursesNonbillable))
  {
    names := [];
    var i := 0;
    while i < |institutes|
      invariant 0 <= i <= |institutes|
      invariant names == DisplayNames(Where(institutes[..i], CoursesNonbillable))
    {
      assert institutes[..i + 1] == institutes[..i] + [institutes[i]];
      CourseListSnoc(institutes[..i], institutes[i]);
      if institutes[i].coursesNonbillable {
        names := names + [institutes[i].displayName];
      }
      i := i + 1;
    }
    assert institutes[..i] == institutes;
  }

  /** The course list names exactly the institutes flagged nonbillable for courses. */
  lemma CourseListMembership(institutes: seq<InstituteInfo>, name: string)
    ensures name in DisplayNames(Where(institutes, CoursesNonbillable)) <==>
              exists k :: 0 <= k < |institutes| && institutes[k].coursesNonbillable
                          && institutes[k].displayName == name
  {
    var sel := Where(institutes, CoursesNonbillable);
    if name in DisplayNames(sel) {
      var m :| 0 <= m < |sel| && DisplayNames(sel)[m] == name;
      WhereMembers(institutes, CoursesNonbillable, sel[m]);
    }
    if exists k :: 0 <= k < |institutes| && institutes[k].coursesNonbillable && institutes[k].displayName == name {
      var k :| 0 <= k < |institutes| && institutes[k].coursesNonbillable && institutes[k].displayName == name;
      WhereMembers(institutes, CoursesNonbillable, institutes[k]);
      var m :| 0 <= m < |sel| && sel[m] == institutes[k];
      assert DisplayNames(sel)[m] == name;
    }
  }
}
