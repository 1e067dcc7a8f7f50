/**
 * The form logic of src/screens/AddEditCommitmentScreen.tsx: templates, the
 * target-date text field, `validate` and `handleNext`. The React state is the
 * value `FormState`; each handler yields the next state.
 */
module CommitmentForm {
  import opened Wrappers
  import opened Types
  import opened Strings
  import opened Dates
  import opened Text
  import opened Calendar
  import opened FormSchema

  datatype FormTemplate = FormTemplate(id: string, name: string, kind: CommitmentType)

  const Templates: seq<FormTemplate> := [
    FormTemplate("passport", PASSPORT, Expiration),
    FormTemplate("insurance", INSURANCE, Expiration),
    FormTemplate("warranty", WARRANTY, Expiration),
    FormTemplate("custom", CUSTOM, Deadline)
  ]

  datatype FormState = FormState(
    selectedTemplate: Option<string>,
    kind: CommitmentType,
    title: string,
    description: string,
    targetDate: Option<Instant>,
    dateInput: string,
    errors: map<string, string>)

  /** `templates.find((t) => t.id === templateId)`. */
  function FindTemplate(templateId: string): (found: Option<FormTemplate>)
    ensures found.Some? ==> found.value in Templates && found.value.id == templateId
    ensures found.None? <==> forall t :: t in Templates ==> t.id != templateId
  {
    if templateId == "passport" then Some(Templates[0])
    else if templateId == "insurance" then Some(Templates[1])
    else if templateId == "warranty" then Some(Templates[2])
    else if templateId == "custom" then Some(Templates[3])
    else None
  }

  /** `handleTemplateSelect`: a known template sets the type and, unless it is `custom`, the title. */
  function SelectTemplate(st: FormState, templateId: string): (next: FormState)
    ensures FindTemplate(templateId).None? ==> next == st
    ensures FindTemplate(templateId).Some? ==>
      && next.selectedTemplate == Some(templateId)
      && next.kind == FindTemplate(templateId).value.kind
      && next.title == (if templateId == "custom" then st.title else FindTemplate(templateId).value.name)
      && next.description == st.description && next.targetDate == st.targetDate
      && next.dateInput == st.dateInput && next.errors == st.errors
  {
    match FindTemplate(templateId)
    case None => st
    case Some(t) =>
      var chosen := st.(selectedTemplate := Some(templateId), kind := t.kind);
      if t.id != "custom" then chosen.(title := t.name) else chosen
  }

  /** The three document templates are expirations titled by their name; `custom` is a deadline that keeps the title. */
  lemma TemplateEffects(st: FormState)
    ensures SelectTemplate(st, "passport").kind == Expiration && SelectTemplate(st, "passport").title == PASSPORT
    ensures SelectTemplate(st, "insurance").kind == Expiration && SelectTemplate(st, "insurance").title == INSURANCE
    ensures SelectTemplate(st, "warranty").kind == Expiration && SelectTemplate(st, "warranty").title == WARRANTY
    ensures SelectTemplate(st, "custom").kind == Deadline && SelectTemplate(st, "custom").title == st.title
  {
  }

  /** Choosing the same template twice is choosing it once. */
  lemma SelectTemplateIdempotent(st: FormState, templateId: string)
    ensures SelectTemplate(SelectTemplate(st, templateId), templateId) == SelectTemplate(st, templateId)
  {
  }

  /**
   * `handleDateInputChange`. `jsDate` is `new Date(text)`, with `None` for an
   * invalid date; how it reads a date-only text is up to the engine.
   */
  function DateInputChange(st: FormState, text: string, jsDate: string -> Option<Instant>): (next: FormState)
    ensures next.dateInput == text
    ensures next.selectedTemplate == st.selectedTemplate && next.kind == st.kind
    ensures next.title == st.title && next.description == st.description
    ensures next.targetDate == (if IsDateText(text) && jsDate(text).Some? then jsDate(text)
                                else if text == "" then None else st.targetDate)
    ensures next.errors == (if IsDateText(text) && jsDate(text).Some? then st.errors["targetAt" := ""] else st.errors)
  {
    var typed := st.(dateInput := text);
    if IsDateText(text) then
      match jsDate(text)
      case Some(parsed) => typed.(targetDate := Some(parsed), errors := st.errors["targetAt" := ""])
      case None => typed
    else if text == "" then typed.(targetDate := None)
    else typed
  }

  /** Clearing the field clears the target whatever it held. */
  lemma ClearingClearsTarget(st: FormState, jsDate: string -> Option<Instant>)
    ensures DateInputChange(st, "", jsDate).targetDate.None?
  {
  }

  /** The target-date rule of `validate`: required for dated types, and not on a day before today. */
  function TargetError(st: FormState, now: Instant): (error: Option<string>)
    ensures error == Some(TARGET_DATE_REQUIRED) <==> st.kind != Open && st.targetDate.None?
    ensures error == Some(TARGET_DATE_FUTURE) <==>
      st.kind != Open && st.targetDate.Some? && DayOf(st.targetDate.value) < DayOf(now)
    ensures error.None? <==> st.kind == Open || (st.targetDate.Some? && DayOf(st.targetDate.value) >= DayOf(now))
  {
    if st.kind != Open && st.targetDate.None? then Some(TARGET_DATE_REQUIRED)
    else if st.kind != Open && DayOf(st.targetDate.value) < DayOf(now) then Some(TARGET_DATE_FUTURE)
    else None
  }

  /** A target on today's calendar day passes the rule, whatever its time. */
  lemma TodayIsAllowed(st: FormState, now: Instant)
    requires st.kind != Open && st.targetDate.Some? && IsSameDay(st.targetDate.value, now)
    ensures TargetError(st, now).None?
  {
  }

  function TargetErrors(st: FormState, now: Instant): map<string, string> {
    match TargetError(st, now)
    case Some(message) => map["targetAt" := message]
    case None => map[]
  }

  /** `description.trim() || null`. */
  function DescriptionValue(description: string): (value: Option<string>)
    ensures value.None? <==> Trim(description) == ""
    ensures value.Some? ==> value.value == Trim(description)
  {
    var trimmed := Trim(description);
    if trimmed == "" then None else Some(trimmed)
  }

  function SourceOf(st: FormState): CommitmentSource {
    if st.selectedTemplate.Some? then Template else Manual
  }

  /** The record `validate` hands to the schema. */
  function ValidatedData(st: FormState): FormData {
    FormData(st.kind, st.title, DescriptionValue(st.description), st.targetDate, SourceOf(st))
  }

  /** The record `handleNext` passes on: as validated, except that an open type has no target. */
  function NextData(st: FormState): (data: FormData)
    ensures data.kind == Open ==> data.targetAt.None?
    ensures data.kind != Open ==> data.targetAt == st.targetDate
    ensures data.source == Template <==> st.selectedTemplate.Some?
    ensures data.(targetAt := st.targetDate) == ValidatedData(st)
  {
    ValidatedData(st).(targetAt := if st.kind == Open then None else st.targetDate)
  }

  predicate IsValid(st: FormState, now: Instant) {
    SchemaIssues(ValidatedData(st)) == [] && TargetError(st, now).None?
  }

  /** The errors map after each issue is written under its field, a later issue replacing an earlier one. */
  function Overlay(m: map<string, string>, issues: seq<Issue>): map<string, string>
    decreases |issues|
  {
    if issues == [] then m
    else
      var last := issues[|issues| - 1];
      Overlay(m, issues[..|issues| - 1])[last.path := last.message]
  }

  /** The position of the last issue about a field. */
  function LastIssueFor(issues: seq<Issue>, field: string): (k: Option<nat>)
    ensures k.Some? ==> (k.value < |issues| && issues[k.value].path == field &&
      forall j :: k.value < j < |issues| ==> issues[j].path != field)
    ensures k.None? ==> forall j :: 0 <= j < |issues| ==> issues[j].path != field
    decreases |issues|
  {
    if issues == [] then None
    else if issues[|issues| - 1].path == field then Some(|issues| - 1)
    else LastIssueFor(issues[..|issues| - 1], field)
  }

  /** A field ends up with the message of its last issue, or keeps what it had. */
  lemma {:induction false} OverlayLastWins(m: map<string, string>, issues: seq<Issue>, field: string)
    ensures field in Overlay(m, issues) <==> field in m || LastIssueFor(issues, field).Some?
    ensures LastIssueFor(issues, field).Some? ==>
      Overlay(m, issues)[field] == issues[LastIssueFor(issues, field).value].message
    ensures LastIssueFor(issues, field).None? && field in m ==> Overlay(m, issues)[field] == m[field]
    decreases |issues|
  {
    if issues != [] {
      OverlayLastWins(m, issues[..|issues| - 1], field);
    }
  }

  /** `error.errors.forEach((err) => { newErrors[err.path[0]] = err.message; })`. */
  method ApplyIssues(m: map<string, string>, issues: seq<Issue>) returns (errors: map<string, string>)
    ensures errors == Overlay(m, issues)
  {
    errors := m;
    var i := 0;
    while i < |issues|
      invariant 0 <= i <= |issues|
      invariant errors == Overlay(m, issues[..i])
    {
      assert issues[..i + 1][..i] == issues[..i];
      errors := errors[issues[i].path := issues[i].message];
      i := i + 1;
    }
    assert issues[..i] == issues;
  }

  /**
   * `validate`: the target rule's error, overwritten field by field by the
   * schema's issues; valid only when the schema passes and no error was recorded.
   */
  method Validate(st: FormState, now: Instant) returns (valid: bool, errors: map<string, string>)
    ensures valid <==> IsValid(st, now)
    ensures valid ==> errors == map[]
    ensures errors == Overlay(TargetErrors(st, now), SchemaIssues(ValidatedData(st)))
    ensures "targetAt" in errors <==> TargetError(st, now).Some?
    ensures "targetAt" in errors ==> errors["targetAt"] == TargetError(st, now).value
  {
    var issues := SchemaIssues(ValidatedData(st));
    var recorded := TargetErrors(st, now);
    OverlayLastWins(recorded, issues, "targetAt");
    if issues == [] {
      errors := recorded;
      valid := |recorded| == 0;
      assert valid <==> TargetError(st, now).None? by {
        if TargetError(st, now).Some? { assert "targetAt" in recorded; }
      }
    } else {
      errors := ApplyIssues(recorded, issues);
      valid := false;
    }
  }

  /** `handleNext`: nothing is passed on unless the form validates. */
  method HandleNext(st: FormState, now: Instant) returns (next: Option<FormData>, errors: map<string, string>)
    ensures next.Some? <==> IsValid(st, now)
    ensures next.Some? ==> next.value == NextData(st)
    ensures next.Some? ==>
      && 1 <= |next.value.title| <= MaxTitle
      && (next.value.description.None? || |next.value.description.value| <= MaxDescription)
      && (next.value.kind == Open <==> next.value.targetAt.None?)
      && (next.value.targetAt.Some? ==> DayOf(next.value.targetAt.value) >= DayOf(now))
    ensures errors == Overlay(TargetErrors(st, now), SchemaIssues(ValidatedData(st)))
  {
    var valid;
    valid, errors := Validate(st, now);
    if !valid {
      return None, errors;
    }
    next := Some(NextData(st));
  }
}
