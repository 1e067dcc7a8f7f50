/**
 * `commitmentFormSchema` of src/utils/validation.ts. The enum and nullable
 * string fields are enforced by the types of `FormData`; the length limits on
 * the title and description produce issues, each naming the field it is about.
 */
module FormSchema {
  import opened Wrappers
  import opened Types

  /** What the form hands on; `targetAt` stands for the ISO string of an instant. */
  datatype FormData = FormData(
    kind: CommitmentType,
    title: string,
    description: Option<string>,
    targetAt: Option<Instant>,
    source: CommitmentSource)

  datatype Issue = Issue(path: string, message: string)

  const MaxTitle: nat := 100
  const MaxDescription: nat := 500

  const TITLE_REQUIRED := "Title is required"
  const TITLE_TOO_LONG := "Title must be less than 100 characters"
  /** The library's default message for a string over its maximum. */
  const DESCRIPTION_TOO_LONG := "String must contain at most 500 character(s)"

  /** The issues of a parse, in field order: title (minimum, then maximum), then description. */
  function SchemaIssues(data: FormData): (issues: seq<Issue>)
    ensures issues == [] <==> (1 <= |data.title| <= MaxTitle &&
      (data.description.None? || |data.description.value| <= MaxDescription))
    ensures Issue("title", TITLE_REQUIRED) in issues <==> |data.title| < 1
    ensures Issue("title", TITLE_TOO_LONG) in issues <==> |data.title| > MaxTitle
    ensures Issue("description", DESCRIPTION_TOO_LONG) in issues <==>
      data.description.Some? && |data.description.value| > MaxDescription
    ensures forall i :: 0 <= i < |issues| ==>
      issues[i] in {Issue("title", TITLE_REQUIRED), Issue("title", TITLE_TOO_LONG), Issue("description", DESCRIPTION_TOO_LONG)}
  {
    (if |data.title| < 1 then [Issue("title", TITLE_REQUIRED)] else [])
    + (if |data.title| > MaxTitle then [Issue("title", TITLE_TOO_LONG)] else [])
    + (if data.description.Some? && |data.description.value| > MaxDescription then [Issue("description", DESCRIPTION_TOO_LONG)] else [])
  }

  /** A title of exactly the limit parses, whatever its message says. */
  lemma TitleAtLimitParses(data: FormData)
    requires |data.title| == MaxTitle && data.description.None?
    ensures SchemaIssues(data) == []
  {
  }

  /** At most one issue per field: the two title limits never fail together. */
  lemma OneIssuePerField(data: FormData)
    ensures |SchemaIssues(data)| <= 2
    ensures forall i, j :: 0 <= i < j < |SchemaIssues(data)| ==> SchemaIssues(data)[i].path != SchemaIssues(data)[j].path
  {
  }
}
