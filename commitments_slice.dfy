/**
 * src/store/slices/commitmentsSlice.ts: the thunks that drive the two stores
 * and the reducers that keep the app-wide commitments list.
 */
module CommitmentsSlice {
  import opened Wrappers
  import opened Types
  import opened Ladder
  import opened RemindersRepository
  import opened CommitmentsRepository

  // ---- reminders bookkeeping shared by the thunks and the screens -----------

  const CancelPatch := NoReminderChanges.(status := Some(Cancelled))
  const DonePatch := NoCommitmentChanges.(status := Some(Done))

  /** The reminder after `update(id, { status: CANCELLED })`. */
  function Cancel(r: Reminder): (c: Reminder)
    ensures c == MergeReminder(r, CancelPatch)
  {
    r.(status := Cancelled)
  }

  /** True for the reminders the cancel loop touches. */
  predicate PendingFor(r: Reminder, commitmentId: Id) {
    r.commitmentId == commitmentId && r.status == Pending
  }

  /** Every pending reminder of the commitment cancelled, everything else as it was. */
  function CancelPending(s: seq<Reminder>, commitmentId: Id): (rs: seq<Reminder>)
    ensures |rs| == |s|
    ensures forall k :: 0 <= k < |s| ==> rs[k] == if PendingFor(s[k], commitmentId) then Cancel(s[k]) else s[k]
  {
    seq(|s|, k requires 0 <= k < |s| => if PendingFor(s[k], commitmentId) then Cancel(s[k]) else s[k])
  }

  /**
   * After cancelling, the commitment has no pending reminder left, every record
   * keeps its id, and the reminders of other commitments are untouched.
   */
  lemma CancelPendingEffect(s: seq<Reminder>, commitmentId: Id)
    ensures forall r :: r in CancelPending(s, commitmentId) ==> !PendingFor(r, commitmentId)
    ensures ReminderIds(CancelPending(s, commitmentId)) == ReminderIds(s)
    ensures forall k :: 0 <= k < |s| && s[k].commitmentId != commitmentId ==> CancelPending(s, commitmentId)[k] == s[k]
    ensures UniqueReminderIds(s) ==> UniqueReminderIds(CancelPending(s, commitmentId))
    ensures CancelPending(CancelPending(s, commitmentId), commitmentId) == CancelPending(s, commitmentId)
  {
    var rs := CancelPending(s, commitmentId);
    assert forall k :: 0 <= k < |s| ==> rs[k].id == s[k].id;
    assert ReminderIds(rs) == ReminderIds(s);
  }

  /** `cur` is `before` with the pending reminders among `done` cancelled. */
  ghost predicate CancelledAmong(cur: seq<Reminder>, before: seq<Reminder>, done: seq<Reminder>) {
    && |cur| == |before|
    && forall k :: 0 <= k < |before| ==>
      cur[k] == if before[k] in done && before[k].status == Pending then Cancel(before[k]) else before[k]
  }

  lemma CancelledAmongIds(cur: seq<Reminder>, before: seq<Reminder>, done: seq<Reminder>)
    requires CancelledAmong(cur, before, done) && UniqueReminderIds(before)
    ensures forall k :: 0 <= k < |cur| ==> cur[k].id == before[k].id
    ensures UniqueReminderIds(cur)
  {
  }

  /** One iteration that cancels the pending reminder `before[k0]`. */
  lemma CancelStep(cur: seq<Reminder>, before: seq<Reminder>, done: seq<Reminder>, k0: nat)
    requires CancelledAmong(cur, before, done) && UniqueReminderIds(before)
    requires k0 < |before| && before[k0].status == Pending
    ensures CancelledAmong(cur[k0 := MergeReminder(cur[k0], CancelPatch)], before, done + [before[k0]])
  {
    var next := cur[k0 := MergeReminder(cur[k0], CancelPatch)];
    forall k | 0 <= k < |before|
      ensures next[k] == if before[k] in done + [before[k0]] && before[k].status == Pending then Cancel(before[k]) else before[k]
    {
      if k != k0 {
        assert before[k].id != before[k0].id;
      }
    }
  }

  /** The pending reminder `r` of the snapshot still stands at its place, and cancelling it there is one step. */
  lemma CancelLocate(cur: seq<Reminder>, before: seq<Reminder>, done: seq<Reminder>, r: Reminder) returns (k0: nat)
    requires CancelledAmong(cur, before, done) && UniqueReminderIds(before)
    requires r in before && r.status == Pending
    ensures k0 < |cur| && IndexOfId(cur, r.id) == Some(k0)
    ensures CancelledAmong(cur[k0 := MergeReminder(cur[k0], CancelPatch)], before, done + [r])
  {
    k0 :| 0 <= k0 < |before| && before[k0] == r;
    CancelledAmongIds(cur, before, done);
    IndexOfUniqueId(cur, k0);
    CancelStep(cur, before, done, k0);
  }

  /** One iteration over a reminder that is not pending. */
  lemma SkipStep(cur: seq<Reminder>, before: seq<Reminder>, done: seq<Reminder>, r: Reminder)
    requires CancelledAmong(cur, before, done) && r.status != Pending
    ensures CancelledAmong(cur, before, done + [r])
  {
  }

  lemma CancelledAll(cur: seq<Reminder>, before: seq<Reminder>, commitmentId: Id)
    requires CancelledAmong(cur, before, OfCommitment(before, commitmentId))
    ensures cur == CancelPending(before, commitmentId)
  {
  }

  /**
   * The loop `for (const reminder of reminders) if (pending) update(reminder.id, { status: CANCELLED })`
   * over the commitment's reminders as fetched before the loop.
   */
  method CancelPendingReminders(reminders: RemindersStore, commitmentId: Id)
    requires reminders.Valid()
    modifies reminders
    ensures reminders.Valid()
    ensures reminders.reminders == CancelPending(old(reminders.reminders), commitmentId)
  {
    ghost var before := reminders.reminders;
    var snapshot := reminders.GetByCommitmentId(commitmentId);
    var i := 0;
    while i < |snapshot|
      invariant 0 <= i <= |snapshot|
      invariant reminders.Valid() && UniqueReminderIds(before)
      invariant CancelledAmong(reminders.reminders, before, snapshot[..i])
    {
      var r := snapshot[i];
      assert snapshot[..i + 1] == snapshot[..i] + [r];
      if r.status == Pending {
        assert r in snapshot;
        ghost var k0 := CancelLocate(reminders.reminders, before, snapshot[..i], r);
        var updated := reminders.Update(r.id, CancelPatch);
      } else {
        SkipStep(reminders.reminders, before, snapshot[..i], r);
      }
      i := i + 1;
    }
    assert snapshot[..i] == snapshot;
    CancelledAll(reminders.reminders, before, commitmentId);
  }

  /** `for (const data of reminderData) await remindersRepository.create(data)`. */
  method CreateReminders(reminders: RemindersStore, data: seq<ReminderData>, now: Instant)
    requires reminders.Valid()
    modifies reminders
    ensures reminders.Valid()
    ensures reminders.reminders == Pushed(old(reminders.reminders), data, now)
  {
    ghost var before := reminders.reminders;
    var i := 0;
    while i < |data|
      invariant 0 <= i <= |data|
      invariant reminders.Valid()
      invariant Pushed(reminders.reminders, data[i..], now) == Pushed(before, data, now)
    {
      assert data[i..][1..] == data[i + 1..];
      var created := reminders.Create(data[i], now);
      i := i + 1;
    }
  }

  // ---- thunks -------------------------------------------------------------

  method FetchCommitments(commitments: CommitmentsStore) returns (all: seq<Commitment>)
    modifies commitments
    ensures commitments.isInitialized && commitments.saved == old(commitments.saved)
    ensures all == commitments.commitments == old(commitments.Current())
  {
    all := commitments.GetAll();
  }

  method FetchCommitmentById(commitments: CommitmentsStore, id: Id) returns (found: Option<Commitment>)
    modifies commitments
    ensures commitments.isInitialized && commitments.saved == old(commitments.saved)
    ensures commitments.commitments == old(commitments.Current())
    ensures found == FindCommitment(commitments.commitments, id)
  {
    found := commitments.GetById(id);
  }

  /** The reminders `createCommitment` adds for the commitment it has just stored. */
  function InitialReminders(c: Commitment, now: Instant): seq<ReminderData> {
    if c.status == Active then GenerateRemindersFromCommitment(c, now) else []
  }

  /** Stores the draft, then gives an active one its ladder reminders. */
  method CreateCommitment(commitments: CommitmentsStore, reminders: RemindersStore, draft: CommitmentDraft, now: Instant)
    returns (c: Commitment)
    requires reminders.Valid()
    modifies commitments, reminders
    ensures commitments.isInitialized && commitments.saved == Some(commitments.commitments)
    ensures c == StampCommitment(draft, FreshId(CommitmentIds(old(commitments.Current()))), now)
    ensures commitments.commitments == old(commitments.Current()) + [c]
    ensures reminders.Valid()
    ensures reminders.reminders == Pushed(old(reminders.reminders), InitialReminders(c, now), now)
  {
    c := commitments.Create(draft, now);
    if c.status == Active {
      var data := GenerateRemindersFromCommitment(c, now);
      CreateReminders(reminders, data, now);
    }
  }

  /**
   * Updates the commitment; when the update sets the status to done, also
   * cancels its pending reminders. A failed update leaves the reminders alone.
   */
  method UpdateCommitment(commitments: CommitmentsStore, reminders: RemindersStore, id: Id, updates: CommitmentPatch, now: Instant)
    returns (result: Result<Commitment>)
    requires reminders.Valid()
    modifies commitments, reminders
    ensures commitments.isInitialized && reminders.Valid()
    ensures IndexOfCommitment(old(commitments.Current()), id).None? ==>
      && result == Failure("Commitment with id " + id + " not found")
      && commitments.commitments == old(commitments.Current()) && commitments.saved == old(commitments.saved)
      && reminders.reminders == old(reminders.reminders)
    ensures IndexOfCommitment(old(commitments.Current()), id).Some? ==>
      var k := IndexOfCommitment(old(commitments.Current()), id).value;
      && result == Success(Touched(old(commitments.Current())[k], updates, now))
      && commitments.commitments == old(commitments.Current())[k := result.value]
      && commitments.saved == Some(commitments.commitments)
      && reminders.reminders == if updates.status == Some(Done)
        then CancelPending(old(reminders.reminders), id) else old(reminders.reminders)
  {
    result := commitments.Update(id, updates, now);
    if result.Failure? {
      return;
    }
    if updates.status == Some(Done) {
      CancelPendingReminders(reminders, id);
    }
  }

  /** Drops the commitment's reminders, then the commitment itself. */
  method DeleteCommitment(commitments: CommitmentsStore, reminders: RemindersStore, id: Id) returns (deleted: Id)
    requires reminders.Valid()
    modifies commitments, reminders
    ensures deleted == id
    ensures reminders.Valid()
    ensures reminders.reminders == WithoutCommitment(old(reminders.reminders), id)
    ensures commitments.isInitialized
    ensures IndexOfCommitment(old(commitments.Current()), id).None? ==>
      commitments.commitments == old(commitments.Current()) && commitments.saved == old(commitments.saved)
    ensures IndexOfCommitment(old(commitments.Current()), id).Some? ==>
      && commitments.commitments == RemoveAt(old(commitments.Current()), IndexOfCommitment(old(commitments.Current()), id).value)
      && commitments.saved == Some(commitments.commitments)
  {
    reminders.DeleteByCommitmentId(id);
    commitments.Delete(id);
    deleted := id;
  }

  /** Fails for an unknown id; otherwise sets the status to done and cancels the pending reminders. */
  method MarkCommitmentDone(commitments: CommitmentsStore, reminders: RemindersStore, id: Id, now: Instant)
    returns (result: Result<Commitment>)
    requires reminders.Valid()
    modifies commitments, reminders
    ensures commitments.isInitialized && reminders.Valid()
    ensures FindCommitment(old(commitments.Current()), id).None? ==>
      && result == Failure("Commitment not found")
      && commitments.commitments == old(commitments.Current()) && commitments.saved == old(commitments.saved)
      && reminders.reminders == old(reminders.reminders)
    ensures FindCommitment(old(commitments.Current()), id).Some? ==>
      var k := IndexOfCommitment(old(commitments.Current()), id).value;
      && result == Success(Touched(old(commitments.Current())[k], DonePatch, now))
      && result.value.status == Done
      && commitments.commitments == old(commitments.Current())[k := result.value]
      && commitments.saved == Some(commitments.commitments)
      && reminders.reminders == CancelPending(old(reminders.reminders), id)
  {
    FindAtIndex(commitments.Current(), id);
    var found := commitments.GetById(id);
    if found.None? {
      return Failure("Commitment not found");
    }
    result := commitments.Update(id, DonePatch, now);
    CancelPendingReminders(reminders, id);
  }

  // ---- reducers -----------------------------------------------------------

  /** `action.error.message || fallback`: an absent or empty message gives the fallback. */
  function ErrorText(message: Option<string>, fallback: string): (text: string)
    ensures message.Some? && message.value != "" ==> text == message.value
    ensures message.None? || message.value == "" ==> text == fallback
  {
    if message.Some? && message.value != "" then message.value else fallback
  }

  /** Replace the first commitment with the same id, or append when there is none. */
  function Upsert(s: seq<Commitment>, c: Commitment): (r: seq<Commitment>)
    ensures IndexOfCommitment(s, c.id).Some? ==> r == s[IndexOfCommitment(s, c.id).value := c]
    ensures IndexOfCommitment(s, c.id).None? ==> r == s + [c]
  {
    match IndexOfCommitment(s, c.id)
    case Some(k) => s[k := c]
    case None => s + [c]
  }

  /** Replace the first commitment with the same id; change nothing when there is none. */
  function ReplaceExisting(s: seq<Commitment>, c: Commitment): (r: seq<Commitment>)
    ensures IndexOfCommitment(s, c.id).Some? ==> r == s[IndexOfCommitment(s, c.id).value := c]
    ensures IndexOfCommitment(s, c.id).None? ==> r == s
  {
    match IndexOfCommitment(s, c.id)
    case Some(k) => s[k := c]
    case None => s
  }

  /**
   * After an upsert the new commitment is in the list, the list grew by at most
   * one, nothing new but it appeared, and every commitment with another id stayed.
   */
  lemma UpsertContents(s: seq<Commitment>, c: Commitment)
    ensures c in Upsert(s, c)
    ensures |s| <= |Upsert(s, c)| <= |s| + 1
    ensures forall x :: x in Upsert(s, c) ==> x == c || x in s
    ensures forall x :: x in s && x.id != c.id ==> x in Upsert(s, c)
  {
    var r := Upsert(s, c);
    match IndexOfCommitment(s, c.id)
    case Some(k) =>
      assert r[k] == c;
      forall x | x in s && x.id != c.id ensures x in r {
        var m :| 0 <= m < |s| && s[m] == x;
        assert r[m] == x;
      }
      forall x | x in r ensures x == c || x in s {
        var m :| 0 <= m < |r| && r[m] == x;
        if m != k { assert s[m] == x; }
      }
    case None =>
      assert r[|s|] == c;
  }

  /** Upserting the same commitment twice is upserting it once. */
  lemma UpsertIdempotent(s: seq<Commitment>, c: Commitment)
    ensures Upsert(Upsert(s, c), c) == Upsert(s, c)
  {
    var r := Upsert(s, c);
    match IndexOfCommitment(s, c.id)
    case Some(k) =>
      assert IndexOfCommitment(r, c.id) == Some(k) by {
        assert forall j :: 0 <= j < k ==> r[j] == s[j];
        IndexOfFirst(r, c.id, k);
      }
    case None =>
      assert IndexOfCommitment(r, c.id) == Some(|s|) by {
        assert forall j :: 0 <= j < |s| ==> r[j] == s[j];
        IndexOfFirst(r, c.id, |s|);
      }
  }

  lemma IndexOfFirst(s: seq<Commitment>, id: Id, k: nat)
    requires k < |s| && s[k].id == id && forall j :: 0 <= j < k ==> s[j].id != id
    ensures IndexOfCommitment(s, id) == Some(k)
  {
  }

  /** The mark-done reducer only differs from the update reducer for a commitment missing from the list. */
  lemma ReplaceIsUpsertWhenPresent(s: seq<Commitment>, c: Commitment)
    ensures IndexOfCommitment(s, c.id).Some? <==> ReplaceExisting(s, c) == Upsert(s, c)
  {
    if IndexOfCommitment(s, c.id).None? {
      assert |Upsert(s, c)| == |s| + 1;
    }
  }

  /** The app-wide `CommitmentsState`. */
  class CommitmentsState {
    var commitments: seq<Commitment>
    var isLoading: bool
    var error: Option<string>

    /** `initialState`. */
    constructor ()
      ensures commitments == [] && !isLoading && error == None
    {
      commitments := [];
      isLoading := false;
      error := None;
    }

    /** The `pending` case of fetch-all, create and update. */
    method Pending()
      modifies this
      ensures isLoading && error == None && commitments == old(commitments)
    {
      isLoading := true;
      error := None;
    }

    /** The `rejected` case of fetch-all, create and update. */
    method Rejected(message: Option<string>, fallback: string)
      modifies this
      ensures !isLoading && error == Some(ErrorText(message, fallback)) && commitments == old(commitments)
    {
      isLoading := false;
      error := Some(ErrorText(message, fallback));
    }

    method FetchAllFulfilled(payload: seq<Commitment>)
      modifies this
      ensures !isLoading && commitments == payload && error == old(error)
    {
      isLoading := false;
      commitments := payload;
    }

    method FetchByIdFulfilled(payload: Option<Commitment>)
      modifies this
      ensures commitments == if payload.Some? then Upsert(old(commitments), payload.value) else old(commitments)
      ensures isLoading == old(isLoading) && error == old(error)
    {
      if payload.Some? {
        commitments := Upsert(commitments, payload.value);
      }
    }

    method CreateFulfilled(payload: Commitment)
      modifies this
      ensures !isLoading && commitments == old(commitments) + [payload] && error == old(error)
    {
      isLoading := false;
      commitments := commitments + [payload];
    }

    method UpdateFulfilled(payload: Commitment)
      modifies this
      ensures !isLoading && commitments == Upsert(old(commitments), payload) && error == old(error)
    {
      isLoading := false;
      commitments := Upsert(commitments, payload);
    }

    method MarkDoneFulfilled(payload: Commitment)
      modifies this
      ensures commitments == ReplaceExisting(old(commitments), payload)
      ensures isLoading == old(isLoading) && error == old(error)
    {
      commitments := ReplaceExisting(commitments, payload);
    }

    method DeleteFulfilled(id: Id)
      modifies this
      ensures commitments == WithoutId(old(commitments), id)
      ensures isLoading == old(isLoading) && error == old(error)
    {
      commitments := WithoutId(commitments, id);
    }
  }

  // ---- dispatch: a thunk with the reducers of its life cycle ----------------

  const FETCH_FAILED := "Failed to fetch commitments"
  const CREATE_FAILED := "Failed to create commitment"
  const UPDATE_FAILED := "Failed to update commitment"

  method DispatchFetchCommitments(state: CommitmentsState, commitments: CommitmentsStore)
    modifies state, commitments
    ensures commitments.isInitialized && commitments.commitments == old(commitments.Current())
    ensures commitments.saved == old(commitments.saved)
    ensures !state.isLoading && state.error == None && state.commitments == commitments.commitments
  {
    state.Pending();
    var all := FetchCommitments(commitments);
    state.FetchAllFulfilled(all);
  }

  method DispatchFetchCommitmentById(state: CommitmentsState, commitments: CommitmentsStore, id: Id)
    modifies state, commitments
    ensures commitments.isInitialized && commitments.commitments == old(commitments.Current())
    ensures commitments.saved == old(commitments.saved)
    ensures var found := FindCommitment(commitments.commitments, id);
      state.commitments == if found.Some? then Upsert(old(state.commitments), found.value) else old(state.commitments)
    ensures state.isLoading == old(state.isLoading) && state.error == old(state.error)
  {
    var found := FetchCommitmentById(commitments, id);
    state.FetchByIdFulfilled(found);
  }

  method DispatchCreateCommitment(state: CommitmentsState, commitments: CommitmentsStore, reminders: RemindersStore,
    draft: CommitmentDraft, now: Instant) returns (c: Commitment)
    requires reminders.Valid()
    modifies state, commitments, reminders
    ensures c == StampCommitment(draft, FreshId(CommitmentIds(old(commitments.Current()))), now)
    ensures commitments.commitments == old(commitments.Current()) + [c]
    ensures commitments.saved == Some(commitments.commitments)
    ensures reminders.Valid()
    ensures reminders.reminders == Pushed(old(reminders.reminders), InitialReminders(c, now), now)
    ensures !state.isLoading && state.error == None && state.commitments == old(state.commitments) + [c]
  {
    state.Pending();
    c := CreateCommitment(commitments, reminders, draft, now);
    state.CreateFulfilled(c);
  }

  method DispatchUpdateCommitment(state: CommitmentsState, commitments: CommitmentsStore, reminders: RemindersStore,
    id: Id, updates: CommitmentPatch, now: Instant) returns (result: Result<Commitment>)
    requires reminders.Valid()
    modifies state, commitments, reminders
    ensures reminders.Valid()
    ensures IndexOfCommitment(old(commitments.Current()), id).None? ==>
      && result == Failure("Commitment with id " + id + " not found")
      && commitments.commitments == old(commitments.Current()) && commitments.saved == old(commitments.saved)
      && reminders.reminders == old(reminders.reminders)
      && !state.isLoading && state.error == Some(result.error) && state.commitments == old(state.commitments)
    ensures IndexOfCommitment(old(commitments.Current()), id).Some? ==>
      var k := IndexOfCommitment(old(commitments.Current()), id).value;
      && result == Success(Touched(old(commitments.Current())[k], updates, now))
      && commitments.commitments == old(commitments.Current())[k := result.value]
      && commitments.saved == Some(commitments.commitments)
      && reminders.reminders == (if updates.status == Some(Done)
        then CancelPending(old(reminders.reminders), id) else old(reminders.reminders))
      && !state.isLoading && state.error == None && state.commitments == Upsert(old(state.commitments), result.value)
  {
    state.Pending();
    result := UpdateCommitment(commitments, reminders, id, updates, now);
    if result.Success? {
      state.UpdateFulfilled(result.value);
    } else {
      state.Rejected(Some(result.error), UPDATE_FAILED);
    }
  }

  method DispatchDeleteCommitment(state: CommitmentsState, commitments: CommitmentsStore, reminders: RemindersStore, id: Id)
    requires reminders.Valid()
    modifies state, commitments, reminders
    ensures reminders.Valid()
    ensures reminders.reminders == WithoutCommitment(old(reminders.reminders), id)
    ensures IndexOfCommitment(old(commitments.Current()), id).None? ==> commitments.commitments == old(commitments.Current())
    ensures IndexOfCommitment(old(commitments.Current()), id).Some? ==>
      commitments.commitments == RemoveAt(old(commitments.Current()), IndexOfCommitment(old(commitments.Current()), id).value)
    ensures state.commitments == WithoutId(old(state.commitments), id)
    ensures state.isLoading == old(state.isLoading) && state.error == old(state.error)
  {
    var deleted := DeleteCommitment(commitments, reminders, id);
    state.DeleteFulfilled(deleted);
  }

  method DispatchMarkCommitmentDone(state: CommitmentsState, commitments: CommitmentsStore, reminders: RemindersStore,
    id: Id, now: Instant) returns (result: Result<Commitment>)
    requires reminders.Valid()
    modifies state, commitments, reminders
    ensures reminders.Valid()
    ensures FindCommitment(old(commitments.Current()), id).None? ==>
      && result == Failure("Commitment not found")
      && commitments.commitments == old(commitments.Current())
      && reminders.reminders == old(reminders.reminders)
      && state.commitments == old(state.commitments)
    ensures FindCommitment(old(commitments.Current()), id).Some? ==>
      && result.Success? && result.value.status == Done
      && reminders.reminders == CancelPending(old(reminders.reminders), id)
      && state.commitments == ReplaceExisting(old(state.commitments), result.value)
    ensures state.isLoading == old(state.isLoading) && state.error == old(state.error)
  {
    result := MarkCommitmentDone(commitments, reminders, id, now);
    if result.Success? {
      state.MarkDoneFulfilled(result.value);
    }
  }
}
