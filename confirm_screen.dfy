/**
 * The reminder schedule of src/screens/ConfirmCommitmentScreen.tsx: the list
 * of dates the user reviews (seeded from the ladder, at most four, one per
 * day) and the confirmation that stores the commitment with exactly those dates.
 */
module ConfirmScreen {
  import opened Wrappers
  import opened Types
  import opened Strings
  import opened Dates
  import opened Sorting
  import opened Ladder
  import opened RemindersRepository
  import opened CommitmentsRepository
  import opened CommitmentsSlice

  const MaxReminders: nat := 4

  /** The route's `commitment` parameter. */
  datatype ConfirmParams = ConfirmParams(kind: CommitmentType, title: string, targetAt: Option<Instant>, source: CommitmentSource)

  /** `fakeCommitment`: what the ladder is computed for before anything is stored. */
  function FakeCommitment(p: ConfirmParams, now: Instant): (c: Commitment)
    ensures c.kind == p.kind && c.title == p.title && c.targetAt == p.targetAt && c.source == p.source
    ensures c.id == "" && c.status == Active && c.createdAt == now && c.nextReviewAt.None?
    ensures Anchor(c) == if p.kind == Open then Some(now + 14 * DAY) else p.targetAt
  {
    Commitment("", p.kind, p.title, None, p.targetAt, Active, p.source, now, now, None)
  }

  /**
   * The initial `editableReminderDates`: the ladder for the draft, anchored at its
   * target or at `now` when it has none, cut to four dates. The ladder never
   * holds more than four, so the cut keeps all of it.
   */
  function InitialSchedule(p: ConfirmParams, now: Instant): (dates: seq<Instant>)
    ensures dates == GenerateReminderLadder(FakeCommitment(p, now), p.targetAt.GetOr(now), now)
    ensures |dates| <= MaxReminders
    ensures StrictlyAscending(dates) && DistinctDays(dates)
  {
    var ladder := GenerateReminderLadder(FakeCommitment(p, now), p.targetAt.GetOr(now), now);
    CutKeepsLadder(ladder);
    ladder[..if |ladder| < MaxReminders then |ladder| else MaxReminders]
  }

  lemma CutKeepsLadder(ladder: seq<Instant>)
    requires DaysApart(ladder) && |ladder| <= MaxReminders
    ensures ladder[..if |ladder| < MaxReminders then |ladder| else MaxReminders] == ladder
    ensures DistinctDays(ladder)
  {
    SpacedDistinctDays(ladder);
  }

  /** An open-ended draft gets its reminders 14, 44 and 74 days from now. */
  lemma OpenSchedule(p: ConfirmParams, now: Instant)
    requires p.kind == Open
    ensures InitialSchedule(p, now) == [now + 14 * DAY, now + 44 * DAY, now + 74 * DAY]
  {
    OpenLadderFromNow(FakeCommitment(p, now), p.targetAt.GetOr(now), now);
  }

  /** A dated draft without a target is anchored at `now`, so every rung is already past. */
  lemma UntargetedSchedule(p: ConfirmParams, now: Instant)
    requires p.kind != Open && p.targetAt.None?
    ensures InitialSchedule(p, now) == []
  {
    AtOrAfterNoneKept(Candidates(FakeCommitment(p, now), now), now);
  }

  /** `sortedEditableDates`. */
  function SortedDates(dates: seq<Instant>): (sorted: seq<Instant>)
    ensures SortedBy(sorted, InstantKey) && multiset(sorted) == multiset(dates) && |sorted| == |dates|
  {
    SortBy(dates, InstantKey)
  }

  /** `hasReminderOnSameDay`: a date of the sorted list other than the excluded position shares the day. */
  predicate HasReminderOnSameDay(sorted: seq<Instant>, dateTime: Instant, exclude: Option<nat>) {
    exists i :: 0 <= i < |sorted| && Some(i) != exclude && IsSameDay(sorted[i], dateTime)
  }

  /**
   * Excluding a position can only turn a clash off, and only when that
   * position is the one date on the day; a position past the end excludes nothing.
   */
  lemma ExcludingNarrows(sorted: seq<Instant>, dateTime: Instant, index: nat)
    ensures HasReminderOnSameDay(sorted, dateTime, Some(index)) ==> HasReminderOnSameDay(sorted, dateTime, None)
    ensures index >= |sorted| ==>
      HasReminderOnSameDay(sorted, dateTime, Some(index)) == HasReminderOnSameDay(sorted, dateTime, None)
    ensures HasReminderOnSameDay(sorted, dateTime, None) && !HasReminderOnSameDay(sorted, dateTime, Some(index)) ==>
      index < |sorted| && IsSameDay(sorted[index], dateTime) &&
      forall i :: 0 <= i < |sorted| && i != index ==> !IsSameDay(sorted[i], dateTime)
  {
  }

  /** Without an exclusion the check asks whether any date at all shares the day. */
  lemma SameDayIsMembership(dates: seq<Instant>, dateTime: Instant)
    ensures HasReminderOnSameDay(SortedDates(dates), dateTime, None) <==> exists d :: d in dates && IsSameDay(d, dateTime)
  {
    var sorted := SortedDates(dates);
    if exists d :: d in dates && IsSameDay(d, dateTime) {
      var d :| d in dates && IsSameDay(d, dateTime);
      assert d in multiset(sorted);
      var i :| 0 <= i < |sorted| && sorted[i] == d;
    }
    if HasReminderOnSameDay(sorted, dateTime, None) {
      var i :| 0 <= i < |sorted| && IsSameDay(sorted[i], dateTime);
      assert sorted[i] in multiset(dates);
    }
  }

  /** `handleAddReminderSave`: the limit is checked before the day; a saved date is inserted in order. */
  function AddReminderSave(dates: seq<Instant>, dateTime: Instant): (r: Result<seq<Instant>>)
    ensures r.Failure? ==> r.error == MAX_REMINDERS || r.error == REMINDER_SAME_DAY
    ensures |dates| >= MaxReminders ==> r == Failure(MAX_REMINDERS)
    ensures |dates| < MaxReminders ==>
      (r == Failure(REMINDER_SAME_DAY) <==> exists d :: d in dates && IsSameDay(d, dateTime))
    ensures r.Success? ==>
      && |r.value| == |dates| + 1 <= MaxReminders
      && SortedBy(r.value, InstantKey)
      && multiset(r.value) == multiset(dates) + multiset{dateTime}
  {
    SameDayIsMembership(dates, dateTime);
    if |dates| >= MaxReminders then Failure(MAX_REMINDERS)
    else if HasReminderOnSameDay(SortedDates(dates), dateTime, None) then Failure(REMINDER_SAME_DAY)
    else Success(SortedDates(dates + [dateTime]))
  }

  /** Adding keeps the one-per-day rule. */
  lemma AddKeepsOnePerDay(dates: seq<Instant>, dateTime: Instant)
    requires DistinctDays(dates)
    requires AddReminderSave(dates, dateTime).Success?
    ensures DistinctDays(AddReminderSave(dates, dateTime).value)
  {
    var grown := dates + [dateTime];
    forall i, j | 0 <= i < j < |grown| ensures !IsSameDay(grown[i], grown[j]) {
      if j == |dates| {
        assert grown[i] in dates;
      }
    }
    DistinctDaysPermutation(grown, SortedDates(grown));
  }

  /**
   * `handleEditReminderSave`: without a selected row nothing happens; a date that
   * shares its day with another row is refused; otherwise the selected row of the
   * sorted list is replaced.
   */
  function EditReminderSave(dates: seq<Instant>, index: Option<nat>, dateTime: Instant): (r: Result<seq<Instant>>)
    requires index.Some? ==> index.value < |dates|
    ensures index.None? ==> r == Success(dates)
    ensures r.Failure? ==> r.error == REMINDER_SAME_DAY
    ensures index.Some? ==>
      (r.Failure? <==> exists j :: 0 <= j < |dates| && j != index.value && IsSameDay(SortedDates(dates)[j], dateTime))
    ensures index.Some? && r.Success? ==> |r.value| == |dates| && r.value[index.value] == dateTime
    ensures index.Some? && r.Success? ==>
      forall j :: 0 <= j < |dates| && j != index.value ==> r.value[j] == SortedDates(dates)[j]
  {
    if index.None? then Success(dates)
    else if HasReminderOnSameDay(SortedDates(dates), dateTime, index) then Failure(REMINDER_SAME_DAY)
    else Success(SortedDates(dates)[index.value := dateTime])
  }

  /** Editing keeps the size of the schedule, swaps one date for the new one, and keeps one per day. */
  lemma EditKeepsOnePerDay(dates: seq<Instant>, index: nat, dateTime: Instant)
    requires index < |dates| && DistinctDays(dates)
    requires EditReminderSave(dates, Some(index), dateTime).Success?
    ensures var r := EditReminderSave(dates, Some(index), dateTime).value;
      && DistinctDays(r)
      && multiset(r) == multiset(dates) - multiset{SortedDates(dates)[index]} + multiset{dateTime}
  {
    var sorted := SortedDates(dates);
    var r := sorted[index := dateTime];
    DistinctDaysPermutation(dates, sorted);
    forall i, j | 0 <= i < j < |r| ensures !IsSameDay(r[i], r[j]) {
      if i == index {
        assert !IsSameDay(sorted[j], dateTime);
      } else if j == index {
        assert !IsSameDay(sorted[i], dateTime);
      }
    }
    MultisetRemoveAt(sorted, index);
    MultisetRemoveAt(r, index);
    assert RemoveAt(sorted, index) == RemoveAt(r, index);
  }

  /** `handleDeleteReminderAt` (and the action sheet's delete): the row of the sorted list goes. */
  function DeleteReminderAt(dates: seq<Instant>, index: nat): (r: seq<Instant>)
    ensures index < |dates| ==> |r| == |dates| - 1 && multiset(r) + multiset{SortedDates(dates)[index]} == multiset(dates)
    ensures index >= |dates| ==> r == SortedDates(dates)
    ensures SortedBy(r, InstantKey)
  {
    var sorted := SortedDates(dates);
    if index < |sorted| then
      MultisetRemoveAt(sorted, index);
      RemoveAt(sorted, index)
    else sorted
  }

  lemma DeleteKeepsOnePerDay(dates: seq<Instant>, index: nat)
    requires DistinctDays(dates)
    ensures DistinctDays(DeleteReminderAt(dates, index))
  {
    var sorted := SortedDates(dates);
    DistinctDaysPermutation(dates, sorted);
    if index < |sorted| {
      DistinctDaysRemoveAt(sorted, index);
    }
  }

  /** What the user can do to the schedule before confirming. */
  datatype ScheduleAction = AddDate(dateTime: Instant) | EditDate(selected: Option<nat>, dateTime: Instant) | DeleteDate(row: nat)

  /** The schedule after one action; a refused save leaves it as it was. */
  function Step(dates: seq<Instant>, a: ScheduleAction): seq<Instant> {
    match a
    case AddDate(t) =>
      var r := AddReminderSave(dates, t);
      if r.Success? then r.value else dates
    case EditDate(index, t) =>
      if index.Some? && index.value >= |dates| then dates
      else
        var r := EditReminderSave(dates, index, t);
        if r.Success? then r.value else dates
    case DeleteDate(index) => DeleteReminderAt(dates, index)
  }

  function Replay(dates: seq<Instant>, actions: seq<ScheduleAction>): seq<Instant>
    decreases |actions|
  {
    if actions == [] then dates else Replay(Step(dates, actions[0]), actions[1..])
  }

  /** One action keeps the schedule within four dates, one per day. */
  lemma StepRules(dates: seq<Instant>, a: ScheduleAction)
    requires |dates| <= MaxReminders && DistinctDays(dates)
    ensures |Step(dates, a)| <= MaxReminders && DistinctDays(Step(dates, a))
  {
    match a
    case AddDate(t) =>
      if AddReminderSave(dates, t).Success? { AddKeepsOnePerDay(dates, t); }
    case EditDate(index, t) =>
      if index.Some? && index.value < |dates| && EditReminderSave(dates, index, t).Success? {
        EditKeepsOnePerDay(dates, index.value, t);
      }
    case DeleteDate(index) =>
      DeleteKeepsOnePerDay(dates, index);
  }

  /** Whatever the user does, the schedule holds at most four dates, no two on the same day. */
  lemma {:induction false} ScheduleRules(dates: seq<Instant>, actions: seq<ScheduleAction>)
    requires |dates| <= MaxReminders && DistinctDays(dates)
    ensures |Replay(dates, actions)| <= MaxReminders && DistinctDays(Replay(dates, actions))
    decreases |actions|
  {
    if actions != [] {
      StepRules(dates, actions[0]);
      ScheduleRules(Step(dates, actions[0]), actions[1..]);
    }
  }

  lemma ScreenScheduleRules(p: ConfirmParams, now: Instant, actions: seq<ScheduleAction>)
    ensures |Replay(InitialSchedule(p, now), actions)| <= MaxReminders
    ensures DistinctDays(Replay(InitialSchedule(p, now), actions))
  {
    ScheduleRules(InitialSchedule(p, now), actions);
  }

  // ---- handleConfirm ------------------------------------------------------

  function LadderRecords(commitmentId: Id, dates: seq<Instant>): (data: seq<ReminderData>)
    ensures |data| == |dates|
    ensures forall i :: 0 <= i < |dates| ==> data[i] == LadderRecord(commitmentId, dates[i])
  {
    seq(|dates|, i requires 0 <= i < |dates| => LadderRecord(commitmentId, dates[i]))
  }

  predicate IsEdit(commitmentId: Option<Id>) {
    commitmentId.Some? && commitmentId.value != ""
  }

  /** The fields an edit writes back. */
  function EditPatch(p: ConfirmParams): CommitmentPatch {
    NoCommitmentChanges.(kind := Some(p.kind), title := Some(p.title), targetAt := Some(p.targetAt), source := Some(p.source))
  }

  function NewDraft(p: ConfirmParams): CommitmentDraft {
    CommitmentDraft(p.kind, p.title, None, p.targetAt, Active, p.source, None)
  }

  lemma {:induction false} WithoutCommitmentAppend(s: seq<Reminder>, r: Reminder, commitmentId: Id)
    ensures WithoutCommitment(s + [r], commitmentId) ==
      WithoutCommitment(s, commitmentId) + (if r.commitmentId != commitmentId then [r] else [])
  {
    if s == [] {
      assert [r][1..] == [];
    } else {
      assert (s + [r])[1..] == s[1..] + [r];
      WithoutCommitmentAppend(s[1..], r, commitmentId);
    }
  }

  /** Records pushed for a commitment vanish again when that commitment's reminders are deleted. */
  lemma {:induction false} WithoutCommitmentPushed(s: seq<Reminder>, data: seq<ReminderData>, commitmentId: Id, now: Instant)
    requires forall i :: 0 <= i < |data| ==> data[i].commitmentId == commitmentId
    ensures WithoutCommitment(Pushed(s, data, now), commitmentId) == WithoutCommitment(s, commitmentId)
    decreases |data|
  {
    if data != [] {
      var r := StampReminder(data[0], FreshId(ReminderIds(s)), now);
      WithoutCommitmentPushed(s + [r], data[1..], commitmentId, now);
      WithoutCommitmentAppend(s, r, commitmentId);
    }
  }

  /**
   * `handleConfirm`. Editing writes the reviewed fields back and replaces the
   * commitment's reminders by the reviewed dates, whether or not the update
   * succeeded. Creating stores an active commitment, whose own ladder reminders
   * are then replaced by the reviewed dates.
   */
  method HandleConfirm(state: CommitmentsState, commitments: CommitmentsStore, reminders: RemindersStore,
    p: ConfirmParams, commitmentId: Option<Id>, dates: seq<Instant>, now: Instant)
    requires reminders.Valid()
    modifies state, commitments, reminders
    ensures reminders.Valid()
    ensures IsEdit(commitmentId) ==>
      var id := commitmentId.value;
      && reminders.reminders == Pushed(WithoutCommitment(old(reminders.reminders), id), LadderRecords(id, SortedDates(dates)), now)
      && (IndexOfCommitment(old(commitments.Current()), id).None? ==>
        commitments.commitments == old(commitments.Current()) && state.commitments == old(state.commitments))
      && (IndexOfCommitment(old(commitments.Current()), id).Some? ==>
        var k := IndexOfCommitment(old(commitments.Current()), id).value;
        var updated := Touched(old(commitments.Current())[k], EditPatch(p), now);
        commitments.commitments == old(commitments.Current())[k := updated]
        && state.commitments == Upsert(old(state.commitments), updated))
    ensures !IsEdit(commitmentId) ==>
      var c := StampCommitment(NewDraft(p), FreshId(CommitmentIds(old(commitments.Current()))), now);
      && commitments.commitments == old(commitments.Current()) + [c]
      && state.commitments == old(state.commitments) + [c]
      && reminders.reminders == Pushed(WithoutCommitment(old(reminders.reminders), c.id), LadderRecords(c.id, SortedDates(dates)), now)
  {
    var sorted := SortedDates(dates);
    if IsEdit(commitmentId) {
      var id := commitmentId.value;
      var updated := DispatchUpdateCommitment(state, commitments, reminders, id, EditPatch(p), now);
      reminders.DeleteByCommitmentId(id);
      CreateReminders(reminders, LadderRecords(id, sorted), now);
    } else {
      ghost var before := reminders.reminders;
      var c := DispatchCreateCommitment(state, commitments, reminders, NewDraft(p), now);
      if c.id != "" {
        WithoutCommitmentPushed(before, InitialReminders(c, now), c.id, now);
        reminders.DeleteByCommitmentId(c.id);
        CreateReminders(reminders, LadderRecords(c.id, sorted), now);
      }
    }
  }
}
