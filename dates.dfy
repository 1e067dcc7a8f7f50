/**
 * The date arithmetic the core borrows from date-fns, and the helpers of
 * src/utils/date.ts. Instants are integer milliseconds; a calendar day is the
 * floor of an instant divided by the length of a day.
 */
module Dates {
  import opened Wrappers
  import opened Types
  import opened Strings

  const DAY: int := 86400000

  function AddDays(t: Instant, n: int): Instant { t + n * DAY }
  function SubDays(t: Instant, n: int): Instant { t - n * DAY }

  /** date-fns `differenceInDays(later, earlier)`: whole days between them, truncated toward zero. */
  function DifferenceInDays(later: Instant, earlier: Instant): (d: int)
    ensures 0 <= later - earlier ==> 0 <= d && d * DAY <= later - earlier < (d + 1) * DAY
    ensures later - earlier < 0 ==> d <= 0 && (d - 1) * DAY < later - earlier <= d * DAY
  {
    var diff := later - earlier;
    if diff >= 0 then diff / DAY else -((-diff) / DAY)
  }

  /** The calendar day an instant falls on. */
  function DayOf(t: Instant): (d: int)
    ensures d * DAY <= t < (d + 1) * DAY
  {
    t / DAY
  }

  /** date-fns `isSameDay`. */
  predicate IsSameDay(a: Instant, b: Instant) {
    DayOf(a) == DayOf(b)
  }

  /** date-fns `isPast`. */
  predicate IsPast(t: Instant, now: Instant) {
    t < now
  }

  /** Differences within one day of zero truncate to zero days, on either side. */
  lemma DifferenceWithinADay(later: Instant, earlier: Instant)
    requires -DAY < later - earlier < DAY
    ensures DifferenceInDays(later, earlier) == 0
  {
  }

  lemma DifferenceOfWholeDays(t: Instant, n: int)
    ensures DifferenceInDays(AddDays(t, n), t) == n
  {
  }

  /** No two entries of `s` fall on the same calendar day (the "one per day" rule of the screens). */
  predicate DistinctDays(s: seq<Instant>) {
    forall i, j :: 0 <= i < j < |s| ==> !IsSameDay(s[i], s[j])
  }

  /** Dates at least a day apart, in order, fall on distinct days. */
  lemma SpacedDistinctDays(s: seq<Instant>)
    requires forall i, j :: 0 <= i < j < |s| ==> s[i] + DAY <= s[j]
    ensures DistinctDays(s)
  {
    forall i, j | 0 <= i < j < |s| ensures DayOf(s[i]) < DayOf(s[j]) {
      var a, b := DayOf(s[i]), DayOf(s[j]);
      assert a * DAY + DAY <= s[j] < (b + 1) * DAY;
    }
  }

  lemma MultisetRemoveAt<T>(s: seq<T>, k: nat)
    requires k < |s|
    ensures multiset(s) == multiset(RemoveAt(s, k)) + multiset{s[k]}
  {
    assert s == s[..k] + [s[k]] + s[k + 1..];
  }

  lemma DistinctDaysRemoveAt(s: seq<Instant>, k: nat)
    requires DistinctDays(s) && k < |s|
    ensures DistinctDays(RemoveAt(s, k))
  {
    var t := RemoveAt(s, k);
    forall i, j | 0 <= i < j < |t| ensures !IsSameDay(t[i], t[j]) {
      assert t[i] == s[if i < k then i else i + 1] && t[j] == s[if j < k then j else j + 1];
    }
  }

  lemma RemoveMatchingHead<T>(s: seq<T>, t: seq<T>, p: nat)
    requires multiset(s) == multiset(t) && t != [] && p < |s| && s[p] == t[0]
    ensures multiset(RemoveAt(s, p)) == multiset(t[1..])
  {
    MultisetRemoveAt(s, p);
    assert t == [t[0]] + t[1..];
    assert multiset(t) == multiset{t[0]} + multiset(t[1..]);
    assert multiset(RemoveAt(s, p)) == multiset(s) - multiset{t[0]};
    assert multiset(t[1..]) == multiset(t) - multiset{t[0]};
  }

  /** A date of a one-per-day list shares its day with none of the dates left once it is removed. */
  lemma RemovedApart(s: seq<Instant>, p: nat, rest: seq<Instant>)
    requires DistinctDays(s) && p < |s| && multiset(RemoveAt(s, p)) == multiset(rest)
    ensures forall j :: 0 <= j < |rest| ==> !IsSameDay(s[p], rest[j])
  {
    var s' := RemoveAt(s, p);
    forall j | 0 <= j < |rest| ensures !IsSameDay(s[p], rest[j]) {
      assert rest[j] in multiset(s');
      var q :| 0 <= q < |s'| && s'[q] == rest[j];
      var q' := if q < p then q else q + 1;
      assert s[q'] == rest[j] && q' != p;
    }
  }

  /** A list whose head shares no day with the rest, and whose rest is one per day, is one per day. */
  lemma DistinctDaysCons(t: seq<Instant>)
    requires t != [] && DistinctDays(t[1..])
    requires forall j :: 0 <= j < |t[1..]| ==> !IsSameDay(t[0], t[1..][j])
    ensures DistinctDays(t)
  {
    forall i, j | 0 <= i < j < |t| ensures !IsSameDay(t[i], t[j]) {
      assert t[j] == t[1..][j - 1];
      if i > 0 {
        assert t[i] == t[1..][i - 1];
      }
    }
  }

  /** The one-per-day rule does not depend on the order of the dates. */
  lemma {:induction false} DistinctDaysPermutation(s: seq<Instant>, t: seq<Instant>)
    requires multiset(s) == multiset(t) && DistinctDays(s)
    ensures DistinctDays(t)
    decreases |t|
  {
    if t != [] {
      assert t[0] in multiset(s);
      var p :| 0 <= p < |s| && s[p] == t[0];
      RemoveMatchingHead(s, t, p);
      DistinctDaysRemoveAt(s, p);
      DistinctDaysPermutation(RemoveAt(s, p), t[1..]);
      RemovedApart(s, p, t[1..]);
      DistinctDaysCons(t);
    }
  }

  // ---- src/utils/date.ts --------------------------------------------------

  /** The date-fns patterns of `formatDate` and `formatDateTime`. */
  const DATE_PATTERN := "MMM d, yyyy"
  const DATE_TIME_PATTERN := "MMM d, yyyy h:mm a"

  /**
   * `formatDate` (with `DATE_PATTERN`) and `formatDateTime` (with
   * `DATE_TIME_PATTERN`); `render` stands for date-fns `format`.
   */
  function FormatDate(date: Option<Instant>, pattern: string, render: (Instant, string) -> string): (text: string)
    ensures date.None? ==> text == NO_DATE
    ensures date.Some? ==> text == render(date.value, pattern)
  {
    if date.None? then NO_DATE else render(date.value, pattern)
  }

  /** `formatRelative`; `distance` stands for date-fns `formatDistanceToNow`. */
  function FormatRelative(date: Option<Instant>, now: Instant, distance: (Instant, Instant) -> string): (text: string)
    ensures date.None? ==> text == NO_DATE
    ensures date.Some? ==> text == distance(date.value, now)
  {
    if date.None? then NO_DATE else distance(date.value, now)
  }

  function IsDatePast(date: Option<Instant>, now: Instant): (past: bool)
    ensures past <==> date.Some? && date.value < now
  {
    date.Some? && IsPast(date.value, now)
  }

  /** `daysUntil`: none for a missing date, else the whole days from `now`. */
  function DaysUntil(date: Option<Instant>, now: Instant): (days: Option<int>)
    ensures date.None? <==> days.None?
    ensures date.Some? && date.value >= now ==>
      0 <= days.value && days.value * DAY <= date.value - now < (days.value + 1) * DAY
    ensures date.Some? && date.value < now ==> days.value <= 0
  {
    if date.None? then None else Some(DifferenceInDays(date.value, now))
  }

  datatype UrgencyBand = Urgent | Soon | Ok

  /** `getUrgencyBand`: at most 3 days is urgent, 4 to 29 is soon, 30 or more is ok. */
  function GetUrgencyBand(days: Option<int>): (band: UrgencyBand)
    ensures band == Urgent <==> days.None? || days.value <= 3
    ensures band == Soon <==> days.Some? && 4 <= days.value <= 29
    ensures band == Ok <==> days.Some? && 30 <= days.value
  {
    if days.None? || days.value < 0 then Urgent
    else if days.value <= 3 then Urgent
    else if days.value <= 29 then Soon
    else Ok
  }

  function BandRank(b: UrgencyBand): nat {
    match b
    case Urgent => 0
    case Soon => 1
    case Ok => 2
  }

  /** As a non-negative day count grows, the band never moves back toward urgent. */
  lemma UrgencyBandMonotone(a: int, b: int)
    requires 0 <= a <= b
    ensures BandRank(GetUrgencyBand(Some(a))) <= BandRank(GetUrgencyBand(Some(b)))
  {
  }
}
