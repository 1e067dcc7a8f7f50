/** The in-memory reminder store of src/data/mock/MockRemindersRepository.ts. */
module RemindersRepository {
  import opened Wrappers
  import opened Types
  import opened Ladder

  /** The record `create` stores for `data`. */
  function StampReminder(data: ReminderData, id: Id, now: Instant): Reminder {
    Reminder(id, data.commitmentId, data.scheduledAt, data.status, now, data.source)
  }

  /** `r` holds the fields of `data`, created at `now`. */
  predicate Carries(r: Reminder, data: ReminderData, now: Instant) {
    && r.commitmentId == data.commitmentId && r.scheduledAt == data.scheduledAt
    && r.status == data.status && r.source == data.source && r.createdAt == now
  }

  /** The store after one `create` per element of `data`, in order. */
  function Pushed(s: seq<Reminder>, data: seq<ReminderData>, now: Instant): seq<Reminder>
    decreases |data|
  {
    if data == [] then s
    else Pushed(s + [StampReminder(data[0], FreshId(ReminderIds(s)), now)], data[1..], now)
  }

  lemma FreshPushKeepsUnique(s: seq<Reminder>, data: ReminderData, now: Instant)
    requires UniqueReminderIds(s)
    ensures UniqueReminderIds(s + [StampReminder(data, FreshId(ReminderIds(s)), now)])
  {
    var id := FreshId(ReminderIds(s));
    forall i | 0 <= i < |s| ensures s[i].id != id {
      assert ReminderIds(s)[i] == s[i].id;
    }
  }

  /** Pushing appends exactly one record per element of `data` and touches nothing before it. */
  lemma {:induction false} PushedShape(s: seq<Reminder>, data: seq<ReminderData>, now: Instant)
    ensures |Pushed(s, data, now)| == |s| + |data|
    ensures Pushed(s, data, now)[..|s|] == s
    ensures forall k :: 0 <= k < |data| ==> Carries(Pushed(s, data, now)[|s| + k], data[k], now)
    ensures UniqueReminderIds(s) ==> UniqueReminderIds(Pushed(s, data, now))
    decreases |data|
  {
    if data != [] {
      var s' := s + [StampReminder(data[0], FreshId(ReminderIds(s)), now)];
      PushedShape(s', data[1..], now);
      if UniqueReminderIds(s) {
        FreshPushKeepsUnique(s, data[0], now);
      }
      var r := Pushed(s, data, now);
      assert r[..|s|] == r[..|s'|][..|s|];
      forall k | 0 <= k < |data| ensures Carries(r[|s| + k], data[k], now) {
        if k > 0 {
          assert r[|s'| + (k - 1)] == r[|s| + k];
        } else {
          assert r[..|s'|][|s|] == r[|s|];
        }
      }
    }
  }

  /** `filter((r) => r.commitmentId === commitmentId)`. */
  function OfCommitment(s: seq<Reminder>, commitmentId: Id): (rs: seq<Reminder>)
    ensures |rs| <= |s|
    ensures forall r :: r in rs <==> r in s && r.commitmentId == commitmentId
  {
    if s == [] then []
    else
      var rest := OfCommitment(s[1..], commitmentId);
      assert forall r :: r in s <==> r == s[0] || r in s[1..] by { assert s == [s[0]] + s[1..]; }
      if s[0].commitmentId == commitmentId then [s[0]] + rest else rest
  }

  /** `filter((r) => r.commitmentId !== commitmentId)`. */
  function WithoutCommitment(s: seq<Reminder>, commitmentId: Id): (rs: seq<Reminder>)
    ensures |rs| <= |s|
    ensures forall r :: r in rs <==> r in s && r.commitmentId != commitmentId
  {
    if s == [] then []
    else
      var rest := WithoutCommitment(s[1..], commitmentId);
      assert forall r :: r in s <==> r == s[0] || r in s[1..] by { assert s == [s[0]] + s[1..]; }
      if s[0].commitmentId != commitmentId then [s[0]] + rest else rest
  }

  /** `findIndex((r) => r.id === id)`, with `None` for -1. */
  function IndexOfId(s: seq<Reminder>, id: Id): (k: Option<nat>)
    ensures k.Some? ==> k.value < |s| && s[k.value].id == id && forall j :: 0 <= j < k.value ==> s[j].id != id
    ensures k.None? ==> forall j :: 0 <= j < |s| ==> s[j].id != id
  {
    if s == [] then None
    else if s[0].id == id then Some(0)
    else match IndexOfId(s[1..], id)
      case None => None
      case Some(k) => Some(k + 1)
  }

  lemma IndexOfUniqueId(s: seq<Reminder>, k: nat)
    requires UniqueReminderIds(s) && k < |s|
    ensures IndexOfId(s, s[k].id) == Some(k)
  {
  }

  /** The records whose id is not in `ids`, in order. */
  function WithoutIds(s: seq<Reminder>, ids: set<Id>): (rs: seq<Reminder>)
    ensures |rs| <= |s|
    ensures forall r :: r in rs <==> r in s && r.id !in ids
  {
    if s == [] then []
    else
      var rest := WithoutIds(s[1..], ids);
      assert forall r :: r in s <==> r == s[0] || r in s[1..] by { assert s == [s[0]] + s[1..]; }
      if s[0].id !in ids then [s[0]] + rest else rest
  }

  lemma {:induction false} WithoutAbsentIds(s: seq<Reminder>, ids: set<Id>)
    requires forall j :: 0 <= j < |s| ==> s[j].id !in ids
    ensures WithoutIds(s, ids) == s
  {
    if s != [] {
      WithoutAbsentIds(s[1..], ids);
      assert [s[0]] + s[1..] == s;
    }
  }

  lemma {:induction false} WithoutIdsTwice(s: seq<Reminder>, a: set<Id>, b: set<Id>)
    ensures WithoutIds(WithoutIds(s, a), b) == WithoutIds(s, a + b)
  {
    if s != [] {
      WithoutIdsTwice(s[1..], a, b);
      if s[0].id !in a {
        assert ([s[0]] + WithoutIds(s[1..], a))[1..] == WithoutIds(s[1..], a);
      }
    }
  }

  lemma HeadIdRemoved(s: seq<Reminder>, id: Id)
    requires UniqueReminderIds(s) && s != [] && s[0].id == id
    ensures WithoutIds(s, {id}) == s[1..]
  {
    var t := s[1..];
    forall j | 0 <= j < |t| ensures t[j].id !in {id} {
      assert t[j] == s[j + 1];
      assert s[0].id != s[j + 1].id;
    }
    WithoutAbsentIds(t, {id});
  }

  lemma TailIdRemoved(s: seq<Reminder>, id: Id)
    requires s != [] && s[0].id != id && IndexOfId(s[1..], id).Some?
    requires RemoveAt(s[1..], IndexOfId(s[1..], id).value) == WithoutIds(s[1..], {id})
    ensures IndexOfId(s, id) == Some(IndexOfId(s[1..], id).value + 1)
    ensures RemoveAt(s, IndexOfId(s, id).value) == WithoutIds(s, {id})
  {
    var k := IndexOfId(s[1..], id).value;
    RemoveAtCons(s, k);
  }

  /** On a store with distinct ids, removing the record `findIndex` finds is filtering its id out. */
  lemma {:induction false} RemoveUniqueIsWithoutId(s: seq<Reminder>, id: Id)
    requires UniqueReminderIds(s)
    ensures IndexOfId(s, id).None? ==> WithoutIds(s, {id}) == s
    ensures IndexOfId(s, id).Some? ==> RemoveAt(s, IndexOfId(s, id).value) == WithoutIds(s, {id})
  {
    if IndexOfId(s, id).None? {
      WithoutAbsentIds(s, {id});
    } else if s[0].id == id {
      assert RemoveAt(s, 0) == s[1..];
      HeadIdRemoved(s, id);
    } else {
      UniqueCons(s[0], s[1..]);
      assert [s[0]] + s[1..] == s;
      RemoveUniqueIsWithoutId(s[1..], id);
      TailIdRemoved(s, id);
    }
  }

  lemma UniqueCons(x: Reminder, s: seq<Reminder>)
    ensures UniqueReminderIds([x] + s) <==> UniqueReminderIds(s) && forall r :: r in s ==> r.id != x.id
  {
    var t := [x] + s;
    assert t[1..] == s;
    if UniqueReminderIds(s) && forall r :: r in s ==> r.id != x.id {
      forall i, j | 0 <= i < j < |t| ensures t[i].id != t[j].id {
        if i == 0 { assert t[j] in s; }
      }
    }
    if UniqueReminderIds(t) {
      forall r | r in s ensures r.id != x.id {
        var m :| 0 <= m < |s| && s[m] == r;
        assert t[m + 1] == r && t[0] == x;
        assert t[0].id != t[m + 1].id;
      }
      forall i, j | 0 <= i < j < |s| ensures s[i].id != s[j].id {
        assert t[i + 1] == s[i] && t[j + 1] == s[j];
      }
    }
  }

  /** Keeping a selection of the records of a store with distinct ids keeps them distinct. */
  lemma {:induction false} WithoutCommitmentUnique(s: seq<Reminder>, commitmentId: Id)
    requires UniqueReminderIds(s)
    ensures UniqueReminderIds(WithoutCommitment(s, commitmentId))
  {
    if s != [] {
      UniqueCons(s[0], s[1..]);
      assert [s[0]] + s[1..] == s;
      WithoutCommitmentUnique(s[1..], commitmentId);
      if s[0].commitmentId != commitmentId {
        UniqueCons(s[0], WithoutCommitment(s[1..], commitmentId));
      }
    }
  }

  lemma RemoveAtUnique(s: seq<Reminder>, k: nat)
    requires UniqueReminderIds(s) && k < |s|
    ensures UniqueReminderIds(RemoveAt(s, k))
  {
    var t := RemoveAt(s, k);
    forall i, j | 0 <= i < j < |t| ensures t[i].id != t[j].id {
      var i' := if i < k then i else i + 1;
      var j' := if j < k then j else j + 1;
      assert t[i] == s[i'] && t[j] == s[j'];
    }
  }

  /** The seeding loop run from `acc` over `seed`. */
  function SeedFrom(acc: seq<Reminder>, seed: seq<Commitment>, now: Instant): seq<Reminder>
    decreases |seed|
  {
    if seed == [] then acc
    else
      var acc' := if seed[0].status == Active
        then Pushed(acc, GenerateRemindersFromCommitment(seed[0], now), now) else acc;
      SeedFrom(acc', seed[1..], now)
  }

  /** The seeded store holds only pending ladder reminders of active seed commitments, with distinct ids. */
  function SeedReminders(seed: seq<Commitment>, now: Instant): (rs: seq<Reminder>)
    ensures UniqueReminderIds(rs)
    ensures forall r :: r in rs ==> SeededRecord(r, seed)
  {
    SeedFromShape([], seed, seed, now);
    SeedFrom([], seed, now)
  }

  /** A reminder a seeded store may hold: pending, from the ladder, and of an active seed commitment. */
  predicate SeededRecord(r: Reminder, seed: seq<Commitment>) {
    && r.status == Pending && r.source == Ladder
    && exists c :: c in seed && c.status == Active && c.id == r.commitmentId
  }

  lemma {:induction false} SeedFromShape(acc: seq<Reminder>, seed: seq<Commitment>, all: seq<Commitment>, now: Instant)
    requires UniqueReminderIds(acc)
    requires forall r :: r in acc ==> SeededRecord(r, all)
    requires forall c :: c in seed ==> c in all
    ensures UniqueReminderIds(SeedFrom(acc, seed, now))
    ensures forall r :: r in SeedFrom(acc, seed, now) ==> SeededRecord(r, all)
    decreases |seed|
  {
    if seed != [] {
      var c := seed[0];
      var acc' := acc;
      if c.status == Active {
        var data := GenerateRemindersFromCommitment(c, now);
        acc' := Pushed(acc, data, now);
        PushedShape(acc, data, now);
        forall r | r in acc' ensures SeededRecord(r, all) {
          var m :| 0 <= m < |acc'| && acc'[m] == r;
          if m < |acc| {
            assert acc'[..|acc|][m] == r;
          } else {
            assert Carries(acc'[|acc| + (m - |acc|)], data[m - |acc|], now);
          }
        }
      }
      SeedFromShape(acc', seed[1..], all, now);
    }
  }

  class RemindersStore {
    /** The module-level `reminders` array. */
    var reminders: seq<Reminder>

    ghost predicate Valid()
      reads this
    {
      UniqueReminderIds(reminders)
    }

    /** Module initialisation: a ladder for every active seed commitment. */
    constructor (seed: seq<Commitment>, now: Instant)
      ensures Valid()
      ensures reminders == SeedReminders(seed, now)
    {
      var acc: seq<Reminder> := [];
      var i := 0;
      while i < |seed|
        invariant 0 <= i <= |seed|
        invariant SeedFrom(acc, seed[i..], now) == SeedFrom([], seed, now)
        invariant UniqueReminderIds(acc)
      {
        assert seed[i..][1..] == seed[i + 1..];
        if seed[i].status == Active {
          var data := GenerateRemindersFromCommitment(seed[i], now);
          ghost var before := acc;
          var j := 0;
          while j < |data|
            invariant 0 <= j <= |data|
            invariant Pushed(acc, data[j..], now) == Pushed(before, data, now)
            invariant UniqueReminderIds(acc)
          {
            assert data[j..][1..] == data[j + 1..];
            FreshPushKeepsUnique(acc, data[j], now);
            acc := acc + [StampReminder(data[j], FreshId(ReminderIds(acc)), now)];
            j := j + 1;
          }
        }
        i := i + 1;
      }
      reminders := acc;
    }

    method GetAll() returns (all: seq<Reminder>)
      ensures all == reminders
    {
      all := reminders;
    }

    method GetByCommitmentId(commitmentId: Id) returns (rs: seq<Reminder>)
      ensures rs == OfCommitment(reminders, commitmentId)
    {
      rs := OfCommitment(reminders, commitmentId);
    }

    /** Appends one record with a fresh id and creation time `now`. */
    method Create(data: ReminderData, now: Instant) returns (r: Reminder)
      requires Valid()
      modifies this
      ensures Valid()
      ensures r == StampReminder(data, FreshId(ReminderIds(old(reminders))), now)
      ensures r.id !in ReminderIds(old(reminders))
      ensures reminders == old(reminders) + [r]
    {
      FreshPushKeepsUnique(reminders, data, now);
      r := StampReminder(data, FreshId(ReminderIds(reminders)), now);
      reminders := reminders + [r];
    }

    /** Replaces the first record with this id by its merge with `updates`, or fails leaving the store as it was. */
    method Update(id: Id, updates: ReminderPatch) returns (result: Result<Reminder>)
      modifies this
      ensures IndexOfId(old(reminders), id).None? ==>
        result == Failure("Reminder with id " + id + " not found") && reminders == old(reminders)
      ensures IndexOfId(old(reminders), id).Some? ==>
        var k := IndexOfId(old(reminders), id).value;
        result == Success(MergeReminder(old(reminders)[k], updates)) && reminders == old(reminders)[k := result.value]
      ensures old(Valid()) && updates.id.None? ==> Valid()
    {
      var index := IndexOfId(reminders, id);
      if index.None? {
        return Failure("Reminder with id " + id + " not found");
      }
      var updated := MergeReminder(reminders[index.value], updates);
      reminders := reminders[index.value := updated];
      result := Success(updated);
    }

    /** Removes the first record with this id; an absent id changes nothing. */
    method Delete(id: Id)
      modifies this
      ensures IndexOfId(old(reminders), id).None? ==> reminders == old(reminders)
      ensures IndexOfId(old(reminders), id).Some? ==> reminders == RemoveAt(old(reminders), IndexOfId(old(reminders), id).value)
      ensures old(Valid()) ==> Valid() && reminders == WithoutIds(old(reminders), {id})
    {
      if Valid() {
        RemoveUniqueIsWithoutId(reminders, id);
      }
      var index := IndexOfId(reminders, id);
      if index.Some? {
        if Valid() {
          RemoveAtUnique(reminders, index.value);
        }
        reminders := RemoveAt(reminders, index.value);
      }
    }

    /** Keeps exactly the records of other commitments, in their order. */
    method DeleteByCommitmentId(commitmentId: Id)
      modifies this
      ensures reminders == WithoutCommitment(old(reminders), commitmentId)
      ensures old(Valid()) ==> Valid()
    {
      if Valid() {
        WithoutCommitmentUnique(reminders, commitmentId);
      }
      reminders := WithoutCommitment(reminders, commitmentId);
    }
  }
}
