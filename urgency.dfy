/** Urgency scoring and the two commitment orderings of src/domain/urgency.ts. */
module Urgency {
  import opened Wrappers
  import opened Types
  import opened Strings
  import opened Dates
  import opened Sorting

  /** `filter((r) => r.commitmentId === commitmentId && r.status === PENDING)`, in store order. */
  function PendingOf(rs: seq<Reminder>, commitmentId: Id): (ps: seq<Reminder>)
    ensures |ps| <= |rs|
    ensures forall r :: r in ps <==> r in rs && r.commitmentId == commitmentId && r.status == Pending
  {
    if rs == [] then []
    else
      var rest := PendingOf(rs[1..], commitmentId);
      assert forall r :: r in rs <==> r == rs[0] || r in rs[1..] by { assert rs == [rs[0]] + rs[1..]; }
      if rs[0].commitmentId == commitmentId && rs[0].status == Pending then [rs[0]] + rest else rest
  }

  lemma {:induction false} PendingOfIdempotent(rs: seq<Reminder>, commitmentId: Id)
    ensures PendingOf(PendingOf(rs, commitmentId), commitmentId) == PendingOf(rs, commitmentId)
  {
    if rs != [] {
      PendingOfIdempotent(rs[1..], commitmentId);
      var rest := PendingOf(rs[1..], commitmentId);
      if rs[0].commitmentId == commitmentId && rs[0].status == Pending {
        assert ([rs[0]] + rest)[1..] == rest;
      }
    }
  }

  function ScheduledKey(r: Reminder): Key { Finite(r.scheduledAt as real) }

  /**
   * The `[0]` of the pending reminders of a commitment sorted by `scheduledAt`:
   * the earliest one, or none when the commitment has no pending reminder.
   */
  function NextPendingReminder(rs: seq<Reminder>, commitmentId: Id): (next: Option<Reminder>)
    ensures next.None? <==> forall r :: r in rs ==> r.commitmentId != commitmentId || r.status != Pending
    ensures next.Some? ==>
      && next.value in rs && next.value.commitmentId == commitmentId && next.value.status == Pending
      && forall r :: r in rs && r.commitmentId == commitmentId && r.status == Pending ==>
           next.value.scheduledAt <= r.scheduledAt
  {
    var ps := PendingOf(rs, commitmentId);
    if ps == [] then None
    else
      EarliestFirst(ps);
      Some(SortBy(ps, ScheduledKey)[0])
  }

  lemma EarliestFirst(ps: seq<Reminder>)
    requires ps != []
    ensures SortBy(ps, ScheduledKey)[0] in ps
    ensures forall r :: r in ps ==> SortBy(ps, ScheduledKey)[0].scheduledAt <= r.scheduledAt
  {
    var sorted := SortBy(ps, ScheduledKey);
    assert sorted[0] in multiset(ps);
    forall r | r in ps ensures sorted[0].scheduledAt <= r.scheduledAt {
      assert r in multiset(sorted);
      var m :| 0 <= m < |sorted| && sorted[m] == r;
      assert m > 0 ==> KeyLe(ScheduledKey(sorted[0]), ScheduledKey(sorted[m]));
    }
  }

  /**
   * Among pending reminders scheduled at the same earliest instant, the one chosen
   * is the first in store order (the sort is stable).
   */
  lemma NextPendingIsFirstEarliest(rs: seq<Reminder>, commitmentId: Id) returns (i: nat)
    requires NextPendingReminder(rs, commitmentId).Some?
    ensures i < |PendingOf(rs, commitmentId)|
    ensures PendingOf(rs, commitmentId)[i] == NextPendingReminder(rs, commitmentId).value
    ensures forall j :: 0 <= j < i ==>
      PendingOf(rs, commitmentId)[j].scheduledAt > PendingOf(rs, commitmentId)[i].scheduledAt
  {
    var ps := PendingOf(rs, commitmentId);
    NextPendingIsSortedHead(rs, commitmentId);
    i := HeadIsFirstMinimum(ps, ScheduledKey);
    forall j | 0 <= j < i ensures ps[j].scheduledAt > ps[i].scheduledAt {
      assert KeyLe(ScheduledKey(ps[i]), ScheduledKey(ps[j]));
    }
  }

  lemma NextPendingIsSortedHead(rs: seq<Reminder>, commitmentId: Id)
    requires NextPendingReminder(rs, commitmentId).Some?
    ensures PendingOf(rs, commitmentId) != []
    ensures NextPendingReminder(rs, commitmentId).value == SortBy(PendingOf(rs, commitmentId), ScheduledKey)[0]
  {
  }

  /** Non-pending reminders and those of other commitments do not affect the choice. */
  lemma NextPendingIgnoresOthers(rs: seq<Reminder>, commitmentId: Id)
    ensures NextPendingReminder(PendingOf(rs, commitmentId), commitmentId) == NextPendingReminder(rs, commitmentId)
  {
    PendingOfIdempotent(rs, commitmentId);
  }

  datatype UrgencyScore = UrgencyScore(commitment: Commitment, score: real, reason: string)

  function MaxInt(a: int, b: int): int { if a >= b then a else b }
  function MaxReal(a: real, b: real): real { if a >= b then a else b }

  /**
   * `calculateUrgencyScore`: the first rule that applies decides.
   * done 0; target in the past 1000; by the earliest pending reminder 900 when it
   * is a whole day or more overdue, else max(0, 100 - days); without one, by the
   * target max(0, 50 - days / 10); else 10.
   */
  function CalculateUrgencyScore(c: Commitment, rs: seq<Reminder>, now: Instant): (u: UrgencyScore)
    ensures u.commitment == c
    ensures 0.0 <= u.score <= 1000.0
    ensures u.score != 800.0
  {
    if c.status == Done then UrgencyScore(c, 0.0, COMPLETED)
    else if c.targetAt.Some? && IsPast(c.targetAt.value, now) then UrgencyScore(c, 1000.0, EXPIRED)
    else
      var next := NextPendingReminder(rs, c.id);
      if next.Some? then
        var days := DifferenceInDays(next.value.scheduledAt, now);
        if days < 0 then UrgencyScore(c, 900.0, OVERDUE_REMINDER)
        else UrgencyScore(c, MaxInt(0, 100 - days) as real, DaysUntilReminder(days))
      else if c.targetAt.Some? then
        var days := DifferenceInDays(c.targetAt.value, now);
        if days < 0 then UrgencyScore(c, 800.0, PAST_TARGET_DATE)
        else UrgencyScore(c, MaxReal(0.0, 50.0 - days as real / 10.0), DaysUntilTarget(days))
      else UrgencyScore(c, 10.0, OPEN_ENDED)
  }

  function Score(c: Commitment, rs: seq<Reminder>, now: Instant): real {
    CalculateUrgencyScore(c, rs, now).score
  }

  lemma DoneScoresZero(c: Commitment, rs: seq<Reminder>, now: Instant)
    requires c.status == Done
    ensures CalculateUrgencyScore(c, rs, now) == UrgencyScore(c, 0.0, COMPLETED)
  {
  }

  /** A past target wins over every reminder, whatever the stored status (unless done). */
  lemma PastTargetScoresHighest(c: Commitment, rs: seq<Reminder>, now: Instant)
    requires c.status != Done && c.targetAt.Some? && c.targetAt.value < now
    ensures CalculateUrgencyScore(c, rs, now) == UrgencyScore(c, 1000.0, EXPIRED)
    ensures forall d: Commitment :: Score(d, rs, now) <= Score(c, rs, now)
  {
  }

  /** The score reads only the commitment's own pending reminders. */
  lemma ScoreIgnoresOtherReminders(c: Commitment, rs: seq<Reminder>, now: Instant)
    ensures CalculateUrgencyScore(c, PendingOf(rs, c.id), now) == CalculateUrgencyScore(c, rs, now)
  {
    NextPendingIgnoresOthers(rs, c.id);
    ScoreThroughNext(c, PendingOf(rs, c.id), rs, now);
  }

  /** Of the reminders, the score reads only the one `NextPendingReminder` picks. */
  lemma ScoreThroughNext(c: Commitment, rs: seq<Reminder>, rs': seq<Reminder>, now: Instant)
    requires NextPendingReminder(rs, c.id) == NextPendingReminder(rs', c.id)
    ensures CalculateUrgencyScore(c, rs, now) == CalculateUrgencyScore(c, rs', now)
  {
  }

  /** With a pending reminder: 900 when it is at least a whole day overdue, else 100 - days, within [0, 100]. */
  lemma ReminderScore(c: Commitment, rs: seq<Reminder>, now: Instant)
    requires c.status != Done && (c.targetAt.None? || now <= c.targetAt.value)
    requires NextPendingReminder(rs, c.id).Some?
    ensures var t := NextPendingReminder(rs, c.id).value.scheduledAt;
      && (t <= now - DAY ==> CalculateUrgencyScore(c, rs, now) == UrgencyScore(c, 900.0, OVERDUE_REMINDER))
      && (now - DAY < t ==>
            && Score(c, rs, now) == MaxInt(0, 100 - DifferenceInDays(t, now)) as real
            && 0.0 <= Score(c, rs, now) <= 100.0)
  {
  }

  /** A reminder overdue by less than a day truncates to zero days and scores 100, not 900. */
  lemma SlightlyOverdueReminder(c: Commitment, rs: seq<Reminder>, now: Instant)
    requires c.status != Done && (c.targetAt.None? || now <= c.targetAt.value)
    requires NextPendingReminder(rs, c.id).Some?
    requires now - DAY < NextPendingReminder(rs, c.id).value.scheduledAt < now
    ensures CalculateUrgencyScore(c, rs, now) == UrgencyScore(c, 100.0, "0 days until reminder")
  {
    var t := NextPendingReminder(rs, c.id).value.scheduledAt;
    DifferenceWithinADay(t, now);
    ReminderBranch(c, rs, now);
    ZeroDaysText();
  }

  lemma ReminderBranch(c: Commitment, rs: seq<Reminder>, now: Instant)
    requires c.status != Done && (c.targetAt.None? || now <= c.targetAt.value)
    requires NextPendingReminder(rs, c.id).Some?
    requires DifferenceInDays(NextPendingReminder(rs, c.id).value.scheduledAt, now) >= 0
    ensures var days := DifferenceInDays(NextPendingReminder(rs, c.id).value.scheduledAt, now);
      CalculateUrgencyScore(c, rs, now) == UrgencyScore(c, MaxInt(0, 100 - days) as real, DaysUntilReminder(days))
  {
  }

  lemma ZeroDaysText()
    ensures DaysUntilReminder(0) == "0 days until reminder"
  {
  }

  /** Without a pending reminder, a (future) target scores 50 - days / 10, at most 50. */
  lemma TargetScore(c: Commitment, rs: seq<Reminder>, now: Instant)
    requires c.status != Done && c.targetAt.Some? && now <= c.targetAt.value
    requires NextPendingReminder(rs, c.id).None?
    ensures var days := DifferenceInDays(c.targetAt.value, now);
      CalculateUrgencyScore(c, rs, now) ==
        UrgencyScore(c, MaxReal(0.0, 50.0 - days as real / 10.0), DaysUntilTarget(days))
    ensures 0.0 <= Score(c, rs, now) <= 50.0
  {
  }

  lemma OpenEndedScore(c: Commitment, rs: seq<Reminder>, now: Instant)
    requires c.status != Done && c.targetAt.None? && NextPendingReminder(rs, c.id).None?
    ensures CalculateUrgencyScore(c, rs, now) == UrgencyScore(c, 10.0, OPEN_ENDED)
  {
  }

  // ---- orderings ----------------------------------------------------------

  /** Ascending by this key is descending by score. */
  function UrgencyKey(rs: seq<Reminder>, now: Instant): Commitment -> Key {
    c => Finite(-Score(c, rs, now))
  }

  /** `sortByUrgency`: most urgent first; equal scores keep their input order. */
  function SortByUrgency(cs: seq<Commitment>, rs: seq<Reminder>, now: Instant): (sorted: seq<Commitment>)
    ensures multiset(sorted) == multiset(cs)
    ensures forall i, j :: 0 <= i < j < |sorted| ==> Score(sorted[i], rs, now) >= Score(sorted[j], rs, now)
  {
    var r := SortBy(cs, UrgencyKey(rs, now));
    assert forall i, j :: 0 <= i < j < |r| ==> KeyLe(UrgencyKey(rs, now)(r[i]), UrgencyKey(rs, now)(r[j]));
    r
  }

  /** The commitments of `cs` with score `v`, in order. */
  function WithScore(cs: seq<Commitment>, rs: seq<Reminder>, now: Instant, v: real): seq<Commitment> {
    if cs == [] then []
    else (if Score(cs[0], rs, now) == v then [cs[0]] else []) + WithScore(cs[1..], rs, now, v)
  }

  lemma {:induction false} WithScoreIsWithKey(cs: seq<Commitment>, rs: seq<Reminder>, now: Instant, v: real)
    ensures WithKey(cs, UrgencyKey(rs, now), Finite(-v)) == WithScore(cs, rs, now, v)
  {
    if cs != [] {
      WithScoreIsWithKey(cs[1..], rs, now, v);
    }
  }

  /** `sortByUrgency` is stable: the commitments sharing a score keep their relative order. */
  lemma SortByUrgencyStable(cs: seq<Commitment>, rs: seq<Reminder>, now: Instant, v: real)
    ensures WithScore(SortByUrgency(cs, rs, now), rs, now, v) == WithScore(cs, rs, now, v)
  {
    SortByStable(cs, UrgencyKey(rs, now), Finite(-v));
    WithScoreIsWithKey(cs, rs, now, v);
    WithScoreIsWithKey(SortByUrgency(cs, rs, now), rs, now, v);
  }

  /** A missing target compares as `Infinity`. */
  function TargetKey(c: Commitment): Key {
    if c.targetAt.Some? then Finite(c.targetAt.value as real) else Infinity
  }

  /**
   * `sortByTargetDate`: a sorted copy, dated commitments first in ascending target
   * order, every undated one after them.
   */
  function SortByTargetDate(cs: seq<Commitment>): (sorted: seq<Commitment>)
    ensures multiset(sorted) == multiset(cs)
    ensures forall i, j :: 0 <= i < j < |sorted| && sorted[i].targetAt.None? ==> sorted[j].targetAt.None?
    ensures forall i, j :: 0 <= i < j < |sorted| && sorted[j].targetAt.Some? ==>
      sorted[i].targetAt.Some? && sorted[i].targetAt.value <= sorted[j].targetAt.value
  {
    var r := SortBy(cs, TargetKey);
    assert forall i, j :: 0 <= i < j < |r| ==> KeyLe(TargetKey(r[i]), TargetKey(r[j]));
    r
  }

  /** Commitments with the same target (or none) keep their relative order. */
  lemma SortByTargetDateStable(cs: seq<Commitment>, k: Key)
    ensures WithKey(SortByTargetDate(cs), TargetKey, k) == WithKey(cs, TargetKey, k)
  {
    SortByStable(cs, TargetKey, k);
  }
}
