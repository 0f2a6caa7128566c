/** Mapping one raw issue record of the tracker's JSON into the normalized
    Issue entity: top-level keys default to "N/A", four custom fields are looked
    up by their fixed names, and the two duration strings are parsed. */
module Issues {
  import opened Wrappers
  import opened CustomFields
  import opened Duration

  /** The default for a missing top-level key. */
  const NotAvailable: string := "N/A"

  /** The four custom-field names the fetcher reads, exactly as the tracker spells them. */
  const StatusField: string := "Статус DEV"
  const EstimationField: string := "Оценка"
  const TimeSpentField: string := "Реально затраченное время"
  const StartDateField: string := "Дата начала"

  datatype RawProject = RawProject(name: Option<string>)

  datatype RawReporter = RawReporter(fullName: Option<string>)

  /** An issue record as the server sends it; `None` is a missing key. */
  datatype RawIssue = RawIssue(
    idReadable: Option<string>,
    summary: Option<string>,
    description: Option<string>,
    project: Option<RawProject>,
    reporter: Option<RawReporter>,
    customFields: Option<seq<CustomField>>)

  /** The normalized issue. The start date is kept as the millisecond epoch it is
      converted from; the durations are total minutes. */
  datatype Issue = Issue(
    id: string,
    summary: string,
    description: string,
    project: string,
    reporter: string,
    status: Option<FieldValue>,
    startDateMillis: Option<int>,
    estimation: nat,
    timeSpent: nat)

  function CustomFieldsOf(raw: RawIssue): seq<CustomField>
  {
    raw.customFields.GetOr([])
  }

  /** `issue.get('project', {}).get('name', 'N/A')`. */
  function ProjectName(raw: RawIssue): (name: string)
    ensures raw.project.None? ==> name == NotAvailable
    ensures raw.project.Some? && raw.project.value.name.None? ==> name == NotAvailable
    ensures raw.project.Some? && raw.project.value.name.Some? ==> name == raw.project.value.name.value
  {
    match raw.project
    case None => NotAvailable
    case Some(p) => p.name.GetOr(NotAvailable)
  }

  /** `issue.get('reporter', {}).get('fullName', 'N/A')`. */
  function ReporterName(raw: RawIssue): (name: string)
    ensures raw.reporter.None? ==> name == NotAvailable
    ensures raw.reporter.Some? && raw.reporter.value.fullName.None? ==> name == NotAvailable
    ensures raw.reporter.Some? && raw.reporter.value.fullName.Some? ==> name == raw.reporter.value.fullName.value
  {
    match raw.reporter
    case None => NotAvailable
    case Some(r) => r.fullName.GetOr(NotAvailable)
  }

  /** A start date exists only when the looked-up value is an integer. */
  function StartDate(v: Option<FieldValue>): (millis: Option<int>)
    ensures millis.Some? <==> v.Some? && v.value.Int?
    ensures millis.Some? ==> v == Some(Int(millis.value))
  {
    match v
    case Some(Int(ms)) => Some(ms)
    case _ => None
  }

  /** One record of the loop body of `get_tasks`. Parsing the estimation comes
      first, so its exception is the one raised when both would raise. */
  function MapIssue(raw: RawIssue): (r: Result<Issue, ParseError>)
    ensures var fields := CustomFieldsOf(raw);
            var est := ParseTimeValue(Lookup(fields, EstimationField));
            var spent := ParseTimeValue(Lookup(fields, TimeSpentField));
            && (r.Failure? <==> est.Failure? || spent.Failure?)
            && (est.Failure? ==> r == Failure(est.error))
            && (est.Success? && spent.Failure? ==> r == Failure(spent.error))
            && (r.Success? ==>
                  && r.value.estimation == est.value
                  && r.value.timeSpent == spent.value)
    ensures r.Success? ==>
              && (raw.idReadable.None? ==> r.value.id == NotAvailable)
              && (raw.idReadable.Some? ==> r.value.id == raw.idReadable.value)
              && (raw.summary.None? ==> r.value.summary == NotAvailable)
              && (raw.summary.Some? ==> r.value.summary == raw.summary.value)
              && (raw.description.None? ==> r.value.description == NotAvailable)
              && (raw.description.Some? ==> r.value.description == raw.description.value)
              && r.value.project == ProjectName(raw)
              && r.value.reporter == ReporterName(raw)
              && r.value.status == Lookup(CustomFieldsOf(raw), StatusField)
              && r.value.startDateMillis == StartDate(Lookup(CustomFieldsOf(raw), StartDateField))
  {
    var fields := CustomFieldsOf(raw);
    var startDate := StartDate(Lookup(fields, StartDateField));
    match ParseTimeValue(Lookup(fields, EstimationField))
    case Failure(e) => Failure(e)
    case Success(estimation) =>
      match ParseTimeValue(Lookup(fields, TimeSpentField))
      case Failure(e) => Failure(e)
      case Success(timeSpent) =>
        Success(Issue(
          raw.idReadable.GetOr(NotAvailable),
          raw.summary.GetOr(NotAvailable),
          raw.description.GetOr(NotAvailable),
          ProjectName(raw),
          ReporterName(raw),
          Lookup(fields, StatusField),
          startDate,
          estimation,
          timeSpent))
  }

  /** A record with none of the keys maps to all defaults: "N/A" text, no status,
      no start date, zero durations. */
  lemma EmptyRecordDefaults()
    ensures MapIssue(RawIssue(None, None, None, None, None, None))
         == Success(Issue(NotAvailable, NotAvailable, NotAvailable, NotAvailable, NotAvailable, None, None, 0, 0))
  {
  }

  /** A record whose first estimation field carries a truthy presentation gets that
      presentation parsed as its estimation. */
  lemma {:induction false} EstimationFromPresentation(raw: RawIssue, k: nat, p: string, name: Option<string>)
    requires IsFirstMatch(CustomFieldsOf(raw), EstimationField, k)
    requires CustomFieldsOf(raw)[k].value == Obj(Some(p), name) && p != ""
    requires MapIssue(raw).Success?
    ensures MapIssue(raw).value.estimation == ParseTimeString(p)
  {
    assert Lookup(CustomFieldsOf(raw), EstimationField) == Some(Str(p));
  }

  /** An integer-valued estimation field other than 0 makes the record raise. */
  lemma {:induction false} IntegerEstimationRaises(raw: RawIssue, k: nat, n: int)
    requires IsFirstMatch(CustomFieldsOf(raw), EstimationField, k)
    requires CustomFieldsOf(raw)[k].value == Int(n) && n != 0
    ensures MapIssue(raw) == Failure(NotAString(Int(n)))
  {
    assert Lookup(CustomFieldsOf(raw), EstimationField) == Some(Int(n));
  }

  /** The start date is present exactly when the first start-date field holds an integer. */
  lemma {:induction false} StartDateOnlyForIntegers(raw: RawIssue, k: nat)
    requires IsFirstMatch(CustomFieldsOf(raw), StartDateField, k)
    requires MapIssue(raw).Success?
    ensures MapIssue(raw).value.startDateMillis.Some? <==> CustomFieldsOf(raw)[k].value.Int?
    ensures CustomFieldsOf(raw)[k].value.Int? ==> MapIssue(raw).value.startDateMillis == Some(CustomFieldsOf(raw)[k].value.i)
  {
    assert Lookup(CustomFieldsOf(raw), StartDateField) == Reduce(CustomFieldsOf(raw)[k].value);
  }
}
