/**
 * The reminder handling of src/screens/CommitmentDetailScreen.tsx. `shown` is
 * the screen's `reminders` state: the commitment's reminders as last loaded
 * from the store.
 */
module DetailScreen {
  import opened Wrappers
  import opened Types
  import opened Strings
  import opened Dates
  import opened Sorting
  import opened Ladder
  import opened Urgency
  import opened RemindersRepository
  import opened CommitmentsSlice

  const MaxSnoozes: nat := 3
  const MaxReminders: nat := 4

  predicate IsSnooze(r: Reminder) { r.source == Snooze }
  predicate IsPending(r: Reminder) { r.status == Pending }

  /** `snoozeCount`: snoozes of any status. */
  function SnoozeCount(shown: seq<Reminder>): (n: nat)
    ensures n <= |shown|
    ensures n == 0 <==> forall r :: r in shown ==> !IsSnooze(r)
  {
    FilterEmpty(shown, IsSnooze);
    |Filter(shown, IsSnooze)|
  }

  /** `pendingRemindersCount`. */
  function PendingCount(shown: seq<Reminder>): (n: nat)
    ensures n <= |shown|
    ensures n == 0 <==> forall r :: r in shown ==> !IsPending(r)
  {
    FilterEmpty(shown, IsPending);
    |Filter(shown, IsPending)|
  }

  lemma FilterEmpty(shown: seq<Reminder>, f: Reminder -> bool)
    ensures Filter(shown, f) == [] <==> forall r :: r in shown ==> !f(r)
  {
    if Filter(shown, f) != [] {
      assert Filter(shown, f)[0] in Filter(shown, f);
    }
  }

  /** A reloaded list that gained one reminder counts it as a snooze and as pending exactly when it is one. */
  lemma CountsAppend(shown: seq<Reminder>, r: Reminder)
    ensures SnoozeCount(shown + [r]) == SnoozeCount(shown) + if IsSnooze(r) then 1 else 0
    ensures PendingCount(shown + [r]) == PendingCount(shown) + if IsPending(r) then 1 else 0
  {
    FilterAppend(shown, [r], IsSnooze);
    FilterAppend(shown, [r], IsPending);
    assert [r][1..] == [];
  }

  /** `hasSnoozeOnSameDay`: another pending snooze (not the excluded id) falls on that day. */
  predicate HasSnoozeOnSameDay(shown: seq<Reminder>, dateTime: Instant, exclude: Option<Id>)
    ensures HasSnoozeOnSameDay(shown, dateTime, exclude) ==> SnoozeCount(shown) > 0 && PendingCount(shown) > 0
  {
    exists r :: r in shown && IsSnooze(r) && IsPending(r) && Some(r.id) != exclude && IsSameDay(r.scheduledAt, dateTime)
  }

  /** Excluding an id is looking only at the other reminders. */
  lemma SnoozeSameDayExcluding(shown: seq<Reminder>, dateTime: Instant, id: Id)
    ensures HasSnoozeOnSameDay(shown, dateTime, Some(id)) <==>
      HasSnoozeOnSameDay(Filter(shown, (r: Reminder) => r.id != id), dateTime, None)
  {
  }

  /** What the screen shows under the reminders of an active commitment. */
  datatype AddControl = AddButton | LimitHint(text: string)

  /** The add-button condition: both limits unreached; otherwise the hint of the limit that is. */
  function AddControlFor(shown: seq<Reminder>): (ctl: AddControl)
    ensures ctl == AddButton <==> SnoozeCount(shown) < MaxSnoozes && PendingCount(shown) < MaxReminders
    ensures ctl.LimitHint? ==>
      ctl.text == if PendingCount(shown) >= MaxReminders then MAX_REMINDERS else SNOOZE_LIMIT_REACHED
  {
    if SnoozeCount(shown) < MaxSnoozes && PendingCount(shown) < MaxReminders then AddButton
    else LimitHint(if PendingCount(shown) >= MaxReminders then MAX_REMINDERS else SNOOZE_LIMIT_REACHED)
  }

  datatype AddTap = Ignored | LimitAlert(text: string) | OpenAddModal

  /** `handleAddSnooze`. */
  function HandleAddSnooze(commitment: Option<Commitment>, shown: seq<Reminder>): (tap: AddTap)
    ensures tap == OpenAddModal <==>
      commitment.Some? && SnoozeCount(shown) < MaxSnoozes && PendingCount(shown) < MaxReminders
    ensures tap.LimitAlert? ==> tap.text == MAX_REMINDERS
  {
    if commitment.None? || SnoozeCount(shown) >= MaxSnoozes then Ignored
    else if PendingCount(shown) >= MaxReminders then LimitAlert(MAX_REMINDERS)
    else OpenAddModal
  }

  /** Pressing the add button always opens the modal: the button is only offered when both limits allow it. */
  lemma AddButtonOpensModal(c: Commitment, shown: seq<Reminder>)
    requires AddControlFor(shown) == AddButton
    ensures HandleAddSnooze(Some(c), shown) == OpenAddModal
  {
  }

  /** The checks of `handleAddSnoozeSave` once a commitment is shown: `None` lets the save go ahead. */
  function SnoozeSaveCheck(shown: seq<Reminder>, dateTime: Instant): (error: Option<string>)
    ensures error == Some(MAX_REMINDERS) <==> PendingCount(shown) >= MaxReminders
    ensures error == Some(SNOOZE_SAME_DAY) <==>
      PendingCount(shown) < MaxReminders && HasSnoozeOnSameDay(shown, dateTime, None)
    ensures error.None? || error == Some(MAX_REMINDERS) || error == Some(SNOOZE_SAME_DAY)
  {
    if PendingCount(shown) >= MaxReminders then Some(MAX_REMINDERS)
    else if HasSnoozeOnSameDay(shown, dateTime, None) then Some(SNOOZE_SAME_DAY)
    else None
  }

  function SnoozeRecord(commitmentId: Id, dateTime: Instant): ReminderData {
    ReminderData(commitmentId, dateTime, Pending, Snooze)
  }

  /** No two pending snoozes share a day. */
  predicate OneSnoozePerDay(shown: seq<Reminder>) {
    forall i, j :: 0 <= i < j < |shown| && IsSnooze(shown[i]) && IsPending(shown[i]) && IsSnooze(shown[j]) && IsPending(shown[j]) ==>
      !IsSameDay(shown[i].scheduledAt, shown[j].scheduledAt)
  }

  /**
   * A snooze that passes the checks keeps the pending reminders within four and
   * the pending snoozes at one per day.
   */
  lemma SnoozeSaveKeepsLimits(shown: seq<Reminder>, r: Reminder)
    requires IsSnooze(r) && IsPending(r)
    requires SnoozeSaveCheck(shown, r.scheduledAt).None?
    ensures PendingCount(shown + [r]) <= MaxReminders
    ensures OneSnoozePerDay(shown) ==> OneSnoozePerDay(shown + [r])
  {
    FilterAppend(shown, [r], IsPending);
    var grown := shown + [r];
    if OneSnoozePerDay(shown) {
      forall i, j | 0 <= i < j < |grown| && IsSnooze(grown[i]) && IsPending(grown[i]) && IsSnooze(grown[j]) && IsPending(grown[j])
        ensures !IsSameDay(grown[i].scheduledAt, grown[j].scheduledAt)
      {
        if j == |shown| {
          assert grown[i] in shown;
        }
      }
    }
  }

  /** `loadReminders` after a store change. */
  method Reload(reminders: RemindersStore, commitmentId: Id) returns (loaded: seq<Reminder>)
    ensures loaded == OfCommitment(reminders.reminders, commitmentId)
  {
    loaded := reminders.GetByCommitmentId(commitmentId);
  }

  /** `handleAddSnoozeSave`: refuses with the message of the first failing check, else stores a pending snooze. */
  method HandleAddSnoozeSave(reminders: RemindersStore, commitment: Option<Commitment>, shown: seq<Reminder>,
    dateTime: Instant, now: Instant) returns (error: Option<string>, loaded: seq<Reminder>)
    requires reminders.Valid()
    modifies reminders
    ensures reminders.Valid()
    ensures commitment.None? ==> error.None? && reminders.reminders == old(reminders.reminders) && loaded == shown
    ensures commitment.Some? ==> error == SnoozeSaveCheck(shown, dateTime)
    ensures commitment.Some? && error.Some? ==> reminders.reminders == old(reminders.reminders) && loaded == shown
    ensures commitment.Some? && error.None? ==>
      var r := StampReminder(SnoozeRecord(commitment.value.id, dateTime), FreshId(ReminderIds(old(reminders.reminders))), now);
      && reminders.reminders == old(reminders.reminders) + [r]
      && loaded == OfCommitment(reminders.reminders, commitment.value.id)
  {
    if commitment.None? {
      return None, shown;
    }
    error := SnoozeSaveCheck(shown, dateTime);
    if error.Some? {
      return error, shown;
    }
    var created := reminders.Create(SnoozeRecord(commitment.value.id, dateTime), now);
    loaded := Reload(reminders, commitment.value.id);
  }

  /** Storing a reminder of the shown commitment extends a list in sync with the store by exactly that reminder. */
  lemma {:induction false} OfCommitmentAppend(s: seq<Reminder>, r: Reminder, commitmentId: Id)
    ensures OfCommitment(s + [r], commitmentId) ==
      OfCommitment(s, commitmentId) + (if r.commitmentId == commitmentId then [r] else [])
  {
    if s == [] {
      assert [r][1..] == [];
    } else {
      assert (s + [r])[1..] == s[1..] + [r];
      OfCommitmentAppend(s[1..], r, commitmentId);
    }
  }

  /** `sortedPendingReminders`: the pending ones, earliest first, ties in store order. */
  function SortedPendingReminders(shown: seq<Reminder>): (sorted: seq<Reminder>)
    ensures SortedBy(sorted, ScheduledKey)
    ensures multiset(sorted) == multiset(Filter(shown, IsPending))
  {
    SortBy(Filter(shown, IsPending), ScheduledKey)
  }

  /** `otherPendingReminders`: pending, and not the selected reminder. */
  function OtherPendingReminders(shown: seq<Reminder>, selected: Option<Reminder>): (others: seq<Reminder>)
    ensures forall r :: r in others <==> r in shown && IsPending(r) && (selected.None? || r.id != selected.value.id)
  {
    Filter(shown, r => IsPending(r) && (selected.None? || r.id != selected.value.id))
  }

  /** `hasRemindersLaterThan`: false exactly when `dateTime` is at or after every one of `others`. */
  predicate HasRemindersLaterThan(others: seq<Reminder>, dateTime: Instant)
    ensures !HasRemindersLaterThan(others, dateTime) <==> forall r :: r in others ==> r.scheduledAt <= dateTime
  {
    exists r :: r in others && r.scheduledAt > dateTime
  }


  /** `Failed` is the throw of `update` for an id no longer in the store: the handler stops there. */
  datatype EditOutcome = Closed | Refused(message: string) | RegenerateOffered | Saved | Failed(message: string)

  /**
   * The decision of `handleReminderDateEditSave`: nothing without a selection; a
   * snooze may not share its day with another pending snooze; a date earlier
   * than another pending reminder offers to regenerate the ladder instead of saving.
   */
  function EditDecision(selected: Option<Reminder>, commitment: Option<Commitment>, shown: seq<Reminder>, dateTime: Instant)
    : (outcome: EditOutcome)
    ensures outcome == Closed <==> selected.None? || commitment.None?
    ensures outcome.Refused? ==> outcome.message == SNOOZE_SAME_DAY
    ensures outcome.Refused? <==> (selected.Some? && commitment.Some? && IsSnooze(selected.value) &&
      exists r :: r in shown && IsSnooze(r) && IsPending(r) && r.id != selected.value.id && IsSameDay(r.scheduledAt, dateTime))
    ensures outcome == Saved ==>
      && (forall r :: r in shown && IsPending(r) && r.id != selected.value.id ==> r.scheduledAt <= dateTime)
      && (IsSnooze(selected.value) ==>
        forall r :: r in shown && IsSnooze(r) && IsPending(r) && r.id != selected.value.id ==> !IsSameDay(r.scheduledAt, dateTime))
    ensures outcome == RegenerateOffered ==>
      exists r :: r in shown && IsPending(r) && r.id != selected.value.id && r.scheduledAt > dateTime
  {
    if selected.None? || commitment.None? then Closed
    else if IsSnooze(selected.value) && HasSnoozeOnSameDay(shown, dateTime, Some(selected.value.id)) then Refused(SNOOZE_SAME_DAY)
    else if HasRemindersLaterThan(OtherPendingReminders(shown, selected), dateTime) then RegenerateOffered
    else Saved
  }

  /**
   * The outcome of the edit handler over the store `s` it updates: the decision,
   * except that a save whose reminder is no longer in `s` fails with the store's message.
   */
  function EditSaveOutcome(s: seq<Reminder>, selected: Option<Reminder>, commitment: Option<Commitment>,
    shown: seq<Reminder>, dateTime: Instant): (outcome: EditOutcome)
    ensures outcome.Failed? <==> EditDecision(selected, commitment, shown, dateTime) == Saved && IndexOfId(s, selected.value.id).None?
    ensures outcome.Failed? ==> outcome.message == "Reminder with id " + selected.value.id + " not found"
    ensures !outcome.Failed? ==> outcome == EditDecision(selected, commitment, shown, dateTime)
  {
    var decision := EditDecision(selected, commitment, shown, dateTime);
    if decision == Saved && IndexOfId(s, selected.value.id).None? then Failed("Reminder with id " + selected.value.id + " not found")
    else decision
  }

  /** The store after `update(id, { scheduledAt })`. */
  function Rescheduled(s: seq<Reminder>, id: Id, dateTime: Instant): (rs: seq<Reminder>)
    ensures IndexOfId(s, id).None? ==> rs == s
    ensures IndexOfId(s, id).Some? ==>
      var k := IndexOfId(s, id).value; rs == s[k := s[k].(scheduledAt := dateTime)]
  {
    match IndexOfId(s, id)
    case None => s
    case Some(k) => s[k := MergeReminder(s[k], NoReminderChanges.(scheduledAt := Some(dateTime)))]
  }

  /**
   * `handleReminderDateEditSave`: only a `Saved` outcome touches the store. When
   * `update` throws, neither the selection nor the list is refreshed.
   */
  method HandleReminderDateEditSave(reminders: RemindersStore, selected: Option<Reminder>, commitment: Option<Commitment>,
    shown: seq<Reminder>, dateTime: Instant) returns (outcome: EditOutcome, loaded: seq<Reminder>, selectedAfter: Option<Reminder>)
    requires reminders.Valid()
    modifies reminders
    ensures reminders.Valid()
    ensures outcome == EditSaveOutcome(old(reminders.reminders), selected, commitment, shown, dateTime)
    ensures outcome != Saved ==> reminders.reminders == old(reminders.reminders) && loaded == shown && selectedAfter == selected
    ensures outcome == Saved ==>
      && reminders.reminders == Rescheduled(old(reminders.reminders), selected.value.id, dateTime)
      && selectedAfter == Some(selected.value.(scheduledAt := dateTime))
      && loaded == OfCommitment(reminders.reminders, commitment.value.id)
  {
    outcome := EditDecision(selected, commitment, shown, dateTime);
    if outcome != Saved {
      return outcome, shown, selected;
    }
    var updated := reminders.Update(selected.value.id, NoReminderChanges.(scheduledAt := Some(dateTime)));
    if updated.Failure? {
      return Failed(updated.error), shown, selected;
    }
    selectedAfter := Some(selected.value.(scheduledAt := dateTime));
    loaded := Reload(reminders, commitment.value.id);
  }

  /** The sheet's delete, the schedule modal's delete and the date modal's delete. */
  method DeleteReminder(reminders: RemindersStore, commitmentId: Id, id: Id) returns (loaded: seq<Reminder>)
    requires reminders.Valid()
    modifies reminders
    ensures reminders.Valid()
    ensures reminders.reminders == WithoutIds(old(reminders.reminders), {id})
    ensures loaded == OfCommitment(reminders.reminders, commitmentId)
  {
    reminders.Delete(id);
    loaded := Reload(reminders, commitmentId);
  }

  // ---- handleRegenerateRemindersForCommitment -----------------------------

  /** The store without the commitment's pending reminders. */
  function WithoutPendingOf(s: seq<Reminder>, commitmentId: Id): (rs: seq<Reminder>)
    ensures forall r :: r in rs <==> r in s && !PendingFor(r, commitmentId)
  {
    if s == [] then []
    else
      var rest := WithoutPendingOf(s[1..], commitmentId);
      assert forall r :: r in s <==> r == s[0] || r in s[1..] by { assert s == [s[0]] + s[1..]; }
      if !PendingFor(s[0], commitmentId) then [s[0]] + rest else rest
  }

  /** The ids of the pending reminders of `rs`. */
  ghost function PendingIdsIn(rs: seq<Reminder>): set<Id> {
    set r | r in rs && IsPending(r) :: r.id
  }

  lemma PendingIdsStep(rs: seq<Reminder>, i: nat)
    requires i < |rs|
    ensures PendingIdsIn(rs[..i + 1]) == PendingIdsIn(rs[..i]) + (if IsPending(rs[i]) then {rs[i].id} else {})
  {
    assert rs[..i + 1] == rs[..i] + [rs[i]];
  }

  lemma {:induction false} WithoutIdsIsWithoutPending(s: seq<Reminder>, ids: set<Id>, commitmentId: Id)
    requires forall r :: r in s ==> (r.id in ids <==> PendingFor(r, commitmentId))
    ensures WithoutIds(s, ids) == WithoutPendingOf(s, commitmentId)
  {
    if s != [] {
      assert s[0] in s;
      assert forall r :: r in s[1..] ==> r in s;
      WithoutIdsIsWithoutPending(s[1..], ids, commitmentId);
    }
  }

  /** With distinct ids, deleting the ids of the commitment's pending reminders deletes exactly those reminders. */
  lemma PendingIdsSelectPending(s: seq<Reminder>, commitmentId: Id)
    requires UniqueReminderIds(s)
    ensures WithoutIds(s, PendingIdsIn(OfCommitment(s, commitmentId))) == WithoutPendingOf(s, commitmentId)
  {
    var ids := PendingIdsIn(OfCommitment(s, commitmentId));
    forall r | r in s ensures r.id in ids <==> PendingFor(r, commitmentId) {
      if r.id in ids {
        var y :| y in OfCommitment(s, commitmentId) && IsPending(y) && y.id == r.id;
        var a :| 0 <= a < |s| && s[a] == r;
        var b :| 0 <= b < |s| && s[b] == y;
        assert a == b;
      }
      if PendingFor(r, commitmentId) {
        assert r in OfCommitment(s, commitmentId);
      }
    }
    WithoutIdsIsWithoutPending(s, ids, commitmentId);
  }

  /**
   * Deletes each pending reminder of the commitment (from the list fetched
   * before the loop), then stores a fresh ladder for it.
   */
  method RegenerateReminders(reminders: RemindersStore, commitment: Option<Commitment>, shown: seq<Reminder>, now: Instant)
    returns (loaded: seq<Reminder>)
    requires reminders.Valid()
    modifies reminders
    ensures reminders.Valid()
    ensures commitment.None? ==> reminders.reminders == old(reminders.reminders) && loaded == shown
    ensures commitment.Some? ==>
      var c := commitment.value;
      && reminders.reminders == Pushed(WithoutPendingOf(old(reminders.reminders), c.id), GenerateRemindersFromCommitment(c, now), now)
      && loaded == OfCommitment(reminders.reminders, c.id)
  {
    if commitment.None? {
      return shown;
    }
    var c := commitment.value;
    ghost var before := reminders.reminders;
    var all := reminders.GetByCommitmentId(c.id);
    ghost var deleted: set<Id> := {};
    WithoutAbsentIds(before, deleted);
    var i := 0;
    while i < |all|
      invariant 0 <= i <= |all|
      invariant reminders.Valid()
      invariant deleted == PendingIdsIn(all[..i])
      invariant reminders.reminders == WithoutIds(before, deleted)
    {
      PendingIdsStep(all, i);
      if IsPending(all[i]) {
        WithoutIdsTwice(before, deleted, {all[i].id});
        reminders.Delete(all[i].id);
        deleted := deleted + {all[i].id};
      }
      i := i + 1;
    }
    assert all[..i] == all;
    PendingIdsSelectPending(before, c.id);
    CreateReminders(reminders, GenerateRemindersFromCommitment(c, now), now);
    loaded := Reload(reminders, c.id);
  }

  /** After regenerating, the commitment's pending reminders are exactly the new ladder, in order. */
  lemma RegeneratedPendingIsLadder(s: seq<Reminder>, c: Commitment, now: Instant)
    ensures var data := GenerateRemindersFromCommitment(c, now);
      var pending := Filter(Pushed(WithoutPendingOf(s, c.id), data, now), r => PendingFor(r, c.id));
      |pending| == |data| && forall k :: 0 <= k < |data| ==> Carries(pending[k], data[k], now)
  {
    var base := WithoutPendingOf(s, c.id);
    var data := GenerateRemindersFromCommitment(c, now);
    var tail := PushedTail(base, data, now);
    forall j | 0 <= j < |tail| ensures PendingFor(tail[j], c.id) {
      assert data[j] == LadderRecord(c.id, data[j].scheduledAt);
    }
    PendingSplit(base, tail, c.id);
  }

  /** The records a run of creates appends, one per input, each carrying its input's fields. */
  lemma PushedTail(base: seq<Reminder>, data: seq<ReminderData>, now: Instant) returns (tail: seq<Reminder>)
    ensures Pushed(base, data, now) == base + tail
    ensures |tail| == |data| && forall j :: 0 <= j < |data| ==> Carries(tail[j], data[j], now)
  {
    var after := Pushed(base, data, now);
    PushedShape(base, data, now);
    tail := after[|base|..];
    CarriedSuffix(after, base, data, now);
  }

  lemma CarriedSuffix(after: seq<Reminder>, base: seq<Reminder>, data: seq<ReminderData>, now: Instant)
    requires |after| == |base| + |data| && after[..|base|] == base
    requires forall k :: 0 <= k < |data| ==> Carries(after[|base| + k], data[k], now)
    ensures after == base + after[|base|..]
    ensures forall j :: 0 <= j < |data| ==> Carries(after[|base|..][j], data[j], now)
  {
    assert after == after[..|base|] + after[|base|..];
    forall j | 0 <= j < |data| ensures Carries(after[|base|..][j], data[j], now) {
      assert after[|base|..][j] == after[|base| + j];
    }
  }

  lemma PendingSplit(base: seq<Reminder>, tail: seq<Reminder>, commitmentId: Id)
    requires forall r :: r in base ==> !PendingFor(r, commitmentId)
    requires forall j :: 0 <= j < |tail| ==> PendingFor(tail[j], commitmentId)
    ensures Filter(base + tail, r => PendingFor(r, commitmentId)) == tail
  {
    var f := r => PendingFor(r, commitmentId);
    FilterAppend(base, tail, f);
    NoneKept(base, f);
    AllKept(tail, f);
  }

  lemma {:induction false} NoneKept<T(!new)>(s: seq<T>, f: T -> bool)
    requires forall x :: x in s ==> !f(x)
    ensures Filter(s, f) == []
  {
    if s != [] {
      assert s[0] in s;
      assert forall x :: x in s[1..] ==> x in s;
      NoneKept(s[1..], f);
    }
  }

  lemma {:induction false} AllKept<T(!new)>(s: seq<T>, f: T -> bool)
    requires forall j :: 0 <= j < |s| ==> f(s[j])
    ensures Filter(s, f) == s
  {
    if s != [] {
      AllKept(s[1..], f);
      assert [s[0]] + s[1..] == s;
    }
  }
}
