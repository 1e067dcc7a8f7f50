/** Option and Result: a value that may be null, and an operation that may throw. */
module Wrappers {
  datatype Option<+T> = None | Some(value: T) {
    function GetOr(default: T): T {
      match this
      case Some(v) => v
      case None => default
    }
  }

  /** A `Failure` carries the message of the error the source throws or returns. */
  datatype Result<+T> = Success(value: T) | Failure(error: string)
}

/**
 * The records of the domain (src/domain/types.ts) and the enumerations they use
 * (src/constants/Enums.ts). Timestamps, which the source keeps as ISO strings, are
 * integer milliseconds here.
 */
module Types {
  import opened Wrappers

  /** Milliseconds since the epoch. */
  type Instant = int

  /** An opaque record identifier. */
  type Id = string

  datatype CommitmentType = Expiration | Deadline | Open
  datatype CommitmentStatus = Active | Done | Expired
  datatype CommitmentSource = Template | Manual
  datatype ReminderStatus = Pending | Sent | Cancelled | Snoozed
  datatype ReminderSource = Ladder | Snooze

  /** `kind` is the source's `type` field (a reserved word in Dafny). */
  datatype Commitment = Commitment(
    id: Id,
    kind: CommitmentType,
    title: string,
    description: Option<string>,
    targetAt: Option<Instant>,
    status: CommitmentStatus,
    source: CommitmentSource,
    createdAt: Instant,
    updatedAt: Instant,
    nextReviewAt: Option<Instant>)

  /** What a caller hands to `create`: a commitment without id and timestamps. */
  datatype CommitmentDraft = CommitmentDraft(
    kind: CommitmentType,
    title: string,
    description: Option<string>,
    targetAt: Option<Instant>,
    status: CommitmentStatus,
    source: CommitmentSource,
    nextReviewAt: Option<Instant>)

  /** A `Partial<Commitment>`: `None` means the key is absent from the update. */
  datatype CommitmentPatch = CommitmentPatch(
    id: Option<Id>,
    kind: Option<CommitmentType>,
    title: Option<string>,
    description: Option<Option<string>>,
    targetAt: Option<Option<Instant>>,
    status: Option<CommitmentStatus>,
    source: Option<CommitmentSource>,
    createdAt: Option<Instant>,
    updatedAt: Option<Instant>,
    nextReviewAt: Option<Option<Instant>>)

  datatype Reminder = Reminder(
    id: Id,
    commitmentId: Id,
    scheduledAt: Instant,
    status: ReminderStatus,
    createdAt: Instant,
    source: ReminderSource)

  /** What a caller hands to `create`: a reminder without id and creation time. */
  datatype ReminderData = ReminderData(
    commitmentId: Id,
    scheduledAt: Instant,
    status: ReminderStatus,
    source: ReminderSource)

  /** A `Partial<Reminder>`. */
  datatype ReminderPatch = ReminderPatch(
    id: Option<Id>,
    commitmentId: Option<Id>,
    scheduledAt: Option<Instant>,
    status: Option<ReminderStatus>,
    createdAt: Option<Instant>,
    source: Option<ReminderSource>)

  const NoCommitmentChanges := CommitmentPatch(None, None, None, None, None, None, None, None, None, None)
  const NoReminderChanges := ReminderPatch(None, None, None, None, None, None)

  /** The `{...old, ...updates}` spread of a commitment update. */
  function MergeCommitment(c: Commitment, p: CommitmentPatch): Commitment {
    Commitment(
      p.id.GetOr(c.id), p.kind.GetOr(c.kind), p.title.GetOr(c.title),
      p.description.GetOr(c.description), p.targetAt.GetOr(c.targetAt),
      p.status.GetOr(c.status), p.source.GetOr(c.source), p.createdAt.GetOr(c.createdAt),
      p.updatedAt.GetOr(c.updatedAt), p.nextReviewAt.GetOr(c.nextReviewAt))
  }

  /** The `{...old, ...updates}` spread of a reminder update. */
  function MergeReminder(r: Reminder, p: ReminderPatch): Reminder {
    Reminder(
      p.id.GetOr(r.id), p.commitmentId.GetOr(r.commitmentId), p.scheduledAt.GetOr(r.scheduledAt),
      p.status.GetOr(r.status), p.createdAt.GetOr(r.createdAt), p.source.GetOr(r.source))
  }

  /** A field-merge changes exactly the fields the patch names. */
  lemma MergeReminderFields(r: Reminder, p: ReminderPatch)
    ensures p.status.None? ==> MergeReminder(r, p).status == r.status
    ensures p.status.Some? ==> MergeReminder(r, p).status == p.status.value
    ensures p.scheduledAt.Some? ==> MergeReminder(r, p).scheduledAt == p.scheduledAt.value
    ensures MergeReminder(r, NoReminderChanges) == r
  {
  }

  // ---- identifiers -------------------------------------------------------

  function ReminderIds(s: seq<Reminder>): (ids: seq<Id>)
    ensures |ids| == |s| && forall i :: 0 <= i < |s| ==> ids[i] == s[i].id
  {
    seq(|s|, i requires 0 <= i < |s| => s[i].id)
  }

  function CommitmentIds(s: seq<Commitment>): (ids: seq<Id>)
    ensures |ids| == |s| && forall i :: 0 <= i < |s| ==> ids[i] == s[i].id
  {
    seq(|s|, i requires 0 <= i < |s| => s[i].id)
  }

  /** `Array.prototype.filter`. */
  function Filter<T(!new)>(s: seq<T>, f: T -> bool): (r: seq<T>)
    ensures |r| <= |s|
    ensures forall x :: x in r <==> x in s && f(x)
  {
    if s == [] then []
    else
      assert forall x :: x in s <==> x == s[0] || x in s[1..] by { assert s == [s[0]] + s[1..]; }
      (if f(s[0]) then [s[0]] else []) + Filter(s[1..], f)
  }

  lemma {:induction false} FilterAppend<T(!new)>(a: seq<T>, b: seq<T>, f: T -> bool)
    ensures Filter(a + b, f) == Filter(a, f) + Filter(b, f)
  {
    if a != [] {
      assert a + b == [a[0]] + (a[1..] + b);
      assert (a + b)[1..] == a[1..] + b;
      FilterAppend(a[1..], b, f);
      calc {
        Filter(a + b, f);
        (if f(a[0]) then [a[0]] else []) + Filter(a[1..] + b, f);
        (if f(a[0]) then [a[0]] else []) + (Filter(a[1..], f) + Filter(b, f));
        ((if f(a[0]) then [a[0]] else []) + Filter(a[1..], f)) + Filter(b, f);
        Filter(a, f) + Filter(b, f);
      }
    } else {
      assert a + b == b;
    }
  }

  /** `splice(k, 1)`. */
  function RemoveAt<T>(s: seq<T>, k: nat): (r: seq<T>)
    requires k < |s|
    ensures |r| == |s| - 1
  {
    s[..k] + s[k + 1..]
  }

  lemma RemoveAtCons<T>(s: seq<T>, k: nat)
    requires k + 1 < |s|
    ensures RemoveAt(s, k + 1) == [s[0]] + RemoveAt(s[1..], k)
  {
    assert s[..k + 1] == [s[0]] + s[1..][..k];
    assert s[k + 2..] == s[1..][k + 1..];
  }

  predicate UniqueReminderIds(s: seq<Reminder>) {
    forall i, j :: 0 <= i < j < |s| ==> s[i].id != s[j].id
  }

  function MaxLength(ss: seq<string>): (m: nat)
    ensures forall i :: 0 <= i < |ss| ==> |ss[i]| <= m
  {
    if ss == [] then 0
    else
      var rest := MaxLength(ss[1..]);
      if |ss[0]| > rest then |ss[0]| else rest
  }

  /**
   * The id `generateId` hands out. Its implementation is not part of this model;
   * it is modelled as a string longer than every id already taken, so it is fresh.
   */
  function FreshId(taken: seq<Id>): (id: Id)
    ensures id !in taken && id != ""
  {
    var id := seq(MaxLength(taken) + 1, _ => 'x');
    assert forall i :: 0 <= i < |taken| ==> |taken[i]| < |id|;
    id
  }
}

/** The fixed user-facing strings of src/constants/Strings.ts that the core produces. */
module Strings {
  const NO_DATE := "No date"

  const TARGET_DATE_REQUIRED := "Target date is required"
  const TARGET_DATE_FUTURE := "Target date must be in the future"
  const REMINDER_AFTER_TARGET := "Reminder date cannot be after the task target date"
  const SNOOZE_SAME_DAY := "Only one snooze per day allowed."
  const REMINDER_SAME_DAY := "Only one reminder per day allowed."
  const MAX_REMINDERS := "Maximum 4 reminders allowed."
  const INVALID_DATE_TIME := "Invalid date or time"
  const DATE_TIME_MUST_BE_FUTURE := "Date and time must be in the future"
  const DATE_FORMAT := "yyyy-MM-dd"
  const TIME_FORMAT := "HH:mm"
  const SNOOZE_LIMIT_REACHED := "You can have at most 3 snoozes. Remove or edit one to add another."

  function DateMustBeFormat(format: string): string { "Date must be " + format }
  function TimeMustBeFormat(format: string): string { "Time must be " + format }

  const COMPLETED := "Completed"
  const EXPIRED := "Expired"
  const OVERDUE_REMINDER := "Overdue reminder"
  const PAST_TARGET_DATE := "Past target date"
  const OPEN_ENDED := "Open-ended"

  function NatToString(n: nat): string
    decreases n
  {
    var digit := ['0', '1', '2', '3', '4', '5', '6', '7', '8', '9'][n % 10];
    if n < 10 then [digit] else NatToString(n / 10) + [digit]
  }

  /** JavaScript's rendering of an integral number in a template literal. */
  function IntToString(n: int): string {
    if n < 0 then "-" + NatToString(-n) else NatToString(n)
  }

  function DaysUntilReminder(days: int): string { IntToString(days) + " days until reminder" }
  function DaysUntilTarget(days: int): string { IntToString(days) + " days until target" }

  const PASSPORT := "Passport"
  const INSURANCE := "Insurance"
  const WARRANTY := "Warranty"
  const CUSTOM := "Custom"
}
