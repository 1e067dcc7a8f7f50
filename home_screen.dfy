/** The list logic of src/screens/HomeScreen.tsx: sections, next reminder, accent colour, divider position. */
module HomeScreen {
  import opened Wrappers
  import opened Types
  import opened Dates
  import opened Urgency

  /** `commitments.filter((c) => c.status === status)`. */
  function WithStatus(cs: seq<Commitment>, status: CommitmentStatus): (section: seq<Commitment>)
    ensures forall c :: c in section <==> c in cs && c.status == status
  {
    Filter(cs, (c: Commitment) => c.status == status)
  }

  /** The three sections split the list: every commitment lands in exactly one, as often as it occurs. */
  lemma SectionsPartition(cs: seq<Commitment>)
    ensures multiset(WithStatus(cs, Active)) + multiset(WithStatus(cs, Done)) + multiset(WithStatus(cs, Expired)) == multiset(cs)
    ensures |WithStatus(cs, Active)| + |WithStatus(cs, Done)| + |WithStatus(cs, Expired)| == |cs|
  {
    var m := multiset(WithStatus(cs, Active)) + multiset(WithStatus(cs, Done)) + multiset(WithStatus(cs, Expired));
    forall x ensures m[x] == multiset(cs)[x] {
      WithStatusCount(cs, Active, x);
      WithStatusCount(cs, Done, x);
      WithStatusCount(cs, Expired, x);
    }
    assert m == multiset(cs);
  }

  /** A section holds a commitment of its status as often as the list does, and no other. */
  lemma {:induction false} WithStatusCount(cs: seq<Commitment>, status: CommitmentStatus, x: Commitment)
    ensures multiset(WithStatus(cs, status))[x] == if x.status == status then multiset(cs)[x] else 0
  {
    if cs != [] {
      WithStatusCount(cs[1..], status, x);
      assert cs == [cs[0]] + cs[1..];
    }
  }

  /** `sortedActive`: the active section, ordered by target date. */
  function SortedActive(cs: seq<Commitment>): (sorted: seq<Commitment>)
    ensures multiset(sorted) == multiset(WithStatus(cs, Active))
    ensures forall i :: 0 <= i < |sorted| ==> sorted[i].status == Active
    ensures forall i, j :: 0 <= i < j < |sorted| && sorted[j].targetAt.Some? ==>
      sorted[i].targetAt.Some? && sorted[i].targetAt.value <= sorted[j].targetAt.value
  {
    var sorted := SortByTargetDate(WithStatus(cs, Active));
    assert forall i :: 0 <= i < |sorted| ==> sorted[i] in multiset(WithStatus(cs, Active));
    sorted
  }

  /** `getNextReminderDate`: the earliest pending `scheduledAt` of the commitment, if any. */
  function NextReminderDate(rs: seq<Reminder>, commitmentId: Id): (next: Option<Instant>)
    ensures next.None? <==> forall r :: r in rs ==> r.commitmentId != commitmentId || r.status != Pending
    ensures next.Some? ==>
      && (exists r :: r in rs && r.commitmentId == commitmentId && r.status == Pending && r.scheduledAt == next.value)
      && forall r :: r in rs && r.commitmentId == commitmentId && r.status == Pending ==> next.value <= r.scheduledAt
  {
    match NextPendingReminder(rs, commitmentId)
    case None => None
    case Some(r) => Some(r.scheduledAt)
  }

  /** `getDaysUntilForUrgency`: days to the target if there is one, else to the next reminder. */
  function DaysUntilForUrgency(c: Commitment, rs: seq<Reminder>, now: Instant): (days: Option<int>)
    ensures days.None? <==> c.targetAt.None? && NextReminderDate(rs, c.id).None?
    ensures c.targetAt.Some? ==> days == Some(DifferenceInDays(c.targetAt.value, now))
    ensures c.targetAt.None? && NextReminderDate(rs, c.id).Some? ==>
      days == Some(DifferenceInDays(NextReminderDate(rs, c.id).value, now))
  {
    if c.targetAt.Some? then DaysUntil(c.targetAt, now)
    else
      var next := NextReminderDate(rs, c.id);
      if next.Some? then DaysUntil(next, now) else None
  }

  /**
   * `getUrgencyColor`, with the colour named by its band. An open commitment
   * with nothing to count towards is ok rather than urgent.
   */
  function UrgencyColor(c: Commitment, rs: seq<Reminder>, now: Instant): (color: UrgencyBand)
    ensures var days := DaysUntilForUrgency(c, rs, now);
      && (color == Ok <==> (days.None? && c.kind == Open) || (days.Some? && days.value >= 30))
      && (color == Soon <==> days.Some? && 4 <= days.value <= 29)
      && (color == Urgent <==> (days.None? && c.kind != Open) || (days.Some? && days.value <= 3))
  {
    var days := DaysUntilForUrgency(c, rs, now);
    if c.kind == Open && (days.None? || days.value >= 30) then Ok
    else GetUrgencyBand(days)
  }

  /** A dated commitment whose target has passed is always shown as urgent. */
  lemma PastTargetIsUrgent(c: Commitment, rs: seq<Reminder>, now: Instant)
    requires c.targetAt.Some? && c.targetAt.value < now
    ensures UrgencyColor(c, rs, now) == Urgent
  {
    assert DaysUntilForUrgency(c, rs, now) == DaysUntil(c.targetAt, now);
  }

  /** `lastNonOpenEndedActiveIndex`: the last position holding a dated type, or -1. */
  method LastNonOpenEndedIndex(sorted: seq<Commitment>) returns (idx: int)
    ensures -1 <= idx < |sorted|
    ensures idx == -1 <==> forall i :: 0 <= i < |sorted| ==> sorted[i].kind == Open
    ensures idx >= 0 ==> sorted[idx].kind != Open
    ensures forall j :: idx < j < |sorted| ==> sorted[j].kind == Open
  {
    idx := -1;
    var i := 0;
    while i < |sorted|
      invariant 0 <= i <= |sorted|
      invariant -1 <= idx < i
      invariant idx >= 0 ==> sorted[idx].kind != Open
      invariant forall j :: idx < j < i ==> sorted[j].kind == Open
    {
      if sorted[i].kind != Open {
        idx := i;
      }
      i := i + 1;
    }
  }
}
