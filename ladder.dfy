/** The reminder ladder of src/domain/ladder.ts. */
module Ladder {
  import opened Wrappers
  import opened Types
  import opened Dates
  import opened Sorting

  function InstantKey(t: Instant): Key { Finite(t as real) }

  /** Dates in ascending order, no two equal. */
  predicate StrictlyAscending(s: seq<Instant>) {
    forall i, j :: 0 <= i < j < |s| ==> s[i] < s[j]
  }

  /** Dates in order, each at least a day after the one before. */
  predicate DaysApart(s: seq<Instant>) {
    forall i, j :: 0 <= i < j < |s| ==> s[i] + DAY <= s[j]
  }

  /** The dates the `switch` pushes, in push order. */
  function Candidates(c: Commitment, targetDate: Instant): (dates: seq<Instant>)
    ensures StrictlyAscending(dates) && DaysApart(dates)
  {
    match c.kind
    case Expiration =>
      [SubDays(targetDate, 90), SubDays(targetDate, 30), SubDays(targetDate, 7), SubDays(targetDate, 1)]
    case Deadline =>
      [SubDays(targetDate, 14), SubDays(targetDate, 7), SubDays(targetDate, 1)]
    case Open =>
      [AddDays(c.createdAt, 14), AddDays(c.createdAt, 44), AddDays(c.createdAt, 74)]
  }

  /** `dates.filter((date) => date >= now)`. */
  function AtOrAfter(dates: seq<Instant>, now: Instant): (kept: seq<Instant>)
    ensures |kept| <= |dates|
    ensures forall t :: t in kept <==> t in dates && t >= now
    ensures StrictlyAscending(dates) ==> StrictlyAscending(kept)
    ensures DaysApart(dates) ==> DaysApart(kept)
  {
    if dates == [] then []
    else
      OrderedTail(dates);
      var rest := AtOrAfter(dates[1..], now);
      if dates[0] >= now then
        OrderedCons(dates, rest);
        [dates[0]] + rest
      else rest
  }

  lemma OrderedTail(dates: seq<Instant>)
    requires dates != []
    ensures StrictlyAscending(dates) ==> StrictlyAscending(dates[1..])
    ensures DaysApart(dates) ==> DaysApart(dates[1..])
  {
  }

  /** The head of an ordered list stays in order before any part of its tail. */
  lemma OrderedCons(dates: seq<Instant>, rest: seq<Instant>)
    requires dates != [] && forall t :: t in rest ==> t in dates[1..]
    requires StrictlyAscending(dates) ==> StrictlyAscending(rest)
    requires DaysApart(dates) ==> DaysApart(rest)
    ensures StrictlyAscending(dates) ==> StrictlyAscending([dates[0]] + rest)
    ensures DaysApart(dates) ==> DaysApart([dates[0]] + rest)
  {
    if StrictlyAscending(dates) {
      forall j | 0 <= j < |rest| ensures dates[0] < rest[j] {
        assert rest[j] in rest;
      }
    }
    if DaysApart(dates) {
      forall j | 0 <= j < |rest| ensures dates[0] + DAY <= rest[j] {
        assert rest[j] in rest;
      }
    }
  }

  lemma {:induction false} AtOrAfterAllKept(dates: seq<Instant>, now: Instant)
    requires forall i :: 0 <= i < |dates| ==> now <= dates[i]
    ensures AtOrAfter(dates, now) == dates
  {
    if dates != [] {
      AtOrAfterAllKept(dates[1..], now);
    }
  }

  lemma {:induction false} AtOrAfterNoneKept(dates: seq<Instant>, now: Instant)
    requires forall i :: 0 <= i < |dates| ==> dates[i] < now
    ensures AtOrAfter(dates, now) == []
  {
    if dates != [] {
      AtOrAfterNoneKept(dates[1..], now);
    }
  }

  lemma AscendingIsSorted(s: seq<Instant>)
    requires StrictlyAscending(s)
    ensures SortedBy(s, InstantKey)
  {
  }

  /**
   * `generateReminderLadder`: the type's candidates that are not before `now`,
   * sorted ascending. The candidates are pushed in ascending order already, so the
   * sort keeps the filtered list as it is.
   */
  function GenerateReminderLadder(c: Commitment, targetDate: Instant, now: Instant): (dates: seq<Instant>)
    ensures dates == AtOrAfter(Candidates(c, targetDate), now)
    ensures StrictlyAscending(dates) && DaysApart(dates)
    ensures forall t :: t in dates <==> t in Candidates(c, targetDate) && now <= t
    ensures |dates| <= (if c.kind == Expiration then 4 else 3)
  {
    var kept := AtOrAfter(Candidates(c, targetDate), now);
    AscendingIsSorted(kept);
    SortBySorted(kept, InstantKey);
    SortBy(kept, InstantKey)
  }

  lemma ExpirationLadder(c: Commitment, target: Instant, now: Instant)
    requires c.kind == Expiration
    ensures GenerateReminderLadder(c, target, now) ==
      AtOrAfter([target - 90 * DAY, target - 30 * DAY, target - 7 * DAY, target - DAY], now)
  {
  }

  lemma DeadlineLadder(c: Commitment, target: Instant, now: Instant)
    requires c.kind == Deadline
    ensures GenerateReminderLadder(c, target, now) ==
      AtOrAfter([target - 14 * DAY, target - 7 * DAY, target - DAY], now)
  {
  }

  lemma OpenCandidates(c: Commitment, target: Instant)
    requires c.kind == Open
    ensures Candidates(c, target) == [c.createdAt + 14 * DAY, c.createdAt + 44 * DAY, c.createdAt + 74 * DAY]
  {
  }

  /** The open-ended ladder counts from `createdAt`; the target argument plays no part. */
  lemma OpenLadder(c: Commitment, target: Instant, other: Instant, now: Instant)
    requires c.kind == Open
    ensures GenerateReminderLadder(c, target, now) ==
      AtOrAfter([c.createdAt + 14 * DAY, c.createdAt + 44 * DAY, c.createdAt + 74 * DAY], now)
    ensures GenerateReminderLadder(c, target, now) == GenerateReminderLadder(c, other, now)
  {
    OpenCandidates(c, target);
    OpenCandidates(c, other);
  }

  /** An open-ended commitment created at `now` keeps all three of its dates. */
  lemma OpenLadderFromNow(c: Commitment, target: Instant, now: Instant)
    requires c.kind == Open && c.createdAt == now
    ensures GenerateReminderLadder(c, target, now) == [now + 14 * DAY, now + 44 * DAY, now + 74 * DAY]
  {
    OpenLadder(c, target, target, now);
    AtOrAfterAllKept([now + 14 * DAY, now + 44 * DAY, now + 74 * DAY], now);
  }

  /** A candidate equal to `now` is kept; one before `now` is dropped. */
  lemma LadderBoundary(c: Commitment, target: Instant, now: Instant)
    requires c.kind == Deadline && target == now + DAY
    ensures GenerateReminderLadder(c, target, now) == [now]
  {
    var dates := Candidates(c, target);
    assert dates[1..][1..] == [now];
    calc {
      AtOrAfter(dates, now);
      AtOrAfter(dates[1..], now);
      AtOrAfter(dates[1..][1..], now);
      { AtOrAfterAllKept([now], now); }
      [now];
    }
  }

  /** `getNextReviewDate`. */
  function GetNextReviewDate(c: Commitment): (next: Option<Instant>)
    ensures c.kind != Open ==> next.None?
    ensures c.kind == Open && c.nextReviewAt.Some? ==> next == c.nextReviewAt
    ensures c.kind == Open && c.nextReviewAt.None? ==> next == Some(c.createdAt + 14 * DAY)
  {
    if c.kind != Open then None
    else if c.nextReviewAt.Some? then c.nextReviewAt
    else Some(AddDays(c.createdAt, 14))
  }

  /**
   * The date the ladder is anchored to, if one can be resolved: an open loop
   * always has one (its review date, two weeks after creation by default); any
   * other commitment has its target, when it has one.
   */
  function Anchor(c: Commitment): (a: Option<Instant>)
    ensures a.None? <==> c.kind != Open && c.targetAt.None?
    ensures c.kind != Open ==> a == c.targetAt
    ensures c.kind == Open ==> a == Some(c.nextReviewAt.GetOr(c.createdAt + 14 * DAY))
  {
    if c.kind == Open then GetNextReviewDate(c) else c.targetAt
  }

  function LadderRecord(commitmentId: Id, date: Instant): ReminderData {
    ReminderData(commitmentId, date, Pending, Ladder)
  }

  function ScheduledDates(data: seq<ReminderData>): (dates: seq<Instant>)
    ensures |dates| == |data| && forall i :: 0 <= i < |data| ==> dates[i] == data[i].scheduledAt
  {
    seq(|data|, i requires 0 <= i < |data| => data[i].scheduledAt)
  }

  /**
   * `generateRemindersFromCommitment`: nothing for a finished commitment or one
   * without an anchor; otherwise one pending ladder reminder per ladder date.
   */
  function GenerateRemindersFromCommitment(c: Commitment, now: Instant): (data: seq<ReminderData>)
    ensures c.status == Done || c.status == Expired ==> data == []
    ensures c.kind != Open && c.targetAt.None? ==> data == []
    ensures forall i :: 0 <= i < |data| ==> data[i] == LadderRecord(c.id, data[i].scheduledAt)
    ensures c.status == Active && Anchor(c).Some? ==>
      ScheduledDates(data) == GenerateReminderLadder(c, Anchor(c).value, now)
  {
    if c.status == Done || c.status == Expired then []
    else
      var target := Anchor(c);
      if target.None? then []
      else
        var dates := GenerateReminderLadder(c, target.value, now);
        seq(|dates|, i requires 0 <= i < |dates| => LadderRecord(c.id, dates[i]))
  }

  /** An open-ended commitment always has an anchor, so only its status can empty the list. */
  lemma OpenAlwaysAnchored(c: Commitment, now: Instant)
    requires c.kind == Open && c.status == Active
    ensures ScheduledDates(GenerateRemindersFromCommitment(c, now)) ==
      AtOrAfter([c.createdAt + 14 * DAY, c.createdAt + 44 * DAY, c.createdAt + 74 * DAY], now)
  {
    var anchor := Anchor(c).value;
    OpenLadder(c, anchor, anchor, now);
  }

  /** The seeded passport renewal (expiration, target in 45 days) gets reminders in 15, 38 and 44 days. */
  lemma SeedPassportLadder(c: Commitment, now: Instant)
    requires c.kind == Expiration && c.status == Active && c.targetAt == Some(now + 45 * DAY)
    ensures ScheduledDates(GenerateRemindersFromCommitment(c, now)) == [now + 15 * DAY, now + 38 * DAY, now + 44 * DAY]
  {
    var dates := Candidates(c, now + 45 * DAY);
    AtOrAfterAllKept(dates[1..], now);
  }
}
