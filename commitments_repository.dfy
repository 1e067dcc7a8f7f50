/**
 * The commitment store of src/data/mock/MockCommitmentsRepository.ts: a list
 * loaded on first use from device storage (or from the seed when nothing was
 * saved) and written back after every change.
 */
module CommitmentsRepository {
  import opened Wrappers
  import opened Types

  /** `loadCommitments`: the saved list if there is one, else a copy of the seed. */
  function Load(saved: Option<seq<Commitment>>, seed: seq<Commitment>): (loaded: seq<Commitment>)
    ensures saved.Some? ==> loaded == saved.value
    ensures saved.None? ==> loaded == seed
  {
    if saved.Some? then saved.value else seed
  }

  /** The record `create` stores: the draft's fields with a new id and both timestamps at `now`. */
  function StampCommitment(draft: CommitmentDraft, id: Id, now: Instant): Commitment {
    Commitment(id, draft.kind, draft.title, draft.description, draft.targetAt,
      draft.status, draft.source, now, now, draft.nextReviewAt)
  }

  /** `{...c, ...updates, updatedAt: now}`: the update's spread, with the time of the update last. */
  function Touched(c: Commitment, updates: CommitmentPatch, now: Instant): (u: Commitment)
    ensures u.updatedAt == now
    ensures u.id == updates.id.GetOr(c.id) && u.status == updates.status.GetOr(c.status)
    ensures u.createdAt == updates.createdAt.GetOr(c.createdAt)
    ensures updates == NoCommitmentChanges ==> u == c.(updatedAt := now)
  {
    MergeCommitment(c, updates).(updatedAt := now)
  }

  /** `findIndex((c) => c.id === id)`, with `None` for -1. */
  function IndexOfCommitment(s: seq<Commitment>, id: Id): (k: Option<nat>)
    ensures k.Some? ==> k.value < |s| && s[k.value].id == id && forall j :: 0 <= j < k.value ==> s[j].id != id
    ensures k.None? ==> forall j :: 0 <= j < |s| ==> s[j].id != id
  {
    if s == [] then None
    else if s[0].id == id then Some(0)
    else match IndexOfCommitment(s[1..], id)
      case None => None
      case Some(k) => Some(k + 1)
  }

  /** `find((c) => c.id === id) || null`. */
  function FindCommitment(s: seq<Commitment>, id: Id): (found: Option<Commitment>)
    ensures found.Some? ==> found.value in s && found.value.id == id
    ensures found.None? <==> forall c :: c in s ==> c.id != id
  {
    if s == [] then None
    else if s[0].id == id then Some(s[0])
    else
      assert forall c :: c in s <==> c == s[0] || c in s[1..] by { assert s == [s[0]] + s[1..]; }
      FindCommitment(s[1..], id)
  }

  /** `find` returns the element `findIndex` points at. */
  lemma {:induction false} FindAtIndex(s: seq<Commitment>, id: Id)
    ensures FindCommitment(s, id).None? <==> IndexOfCommitment(s, id).None?
    ensures IndexOfCommitment(s, id).Some? ==> FindCommitment(s, id) == Some(s[IndexOfCommitment(s, id).value])
  {
    if s != [] && s[0].id != id {
      FindAtIndex(s[1..], id);
    }
  }

  /** `filter((c) => c.id !== id)`. */
  function WithoutId(s: seq<Commitment>, id: Id): (rs: seq<Commitment>)
    ensures |rs| <= |s|
    ensures forall c :: c in rs <==> c in s && c.id != id
  {
    if s == [] then []
    else
      var rest := WithoutId(s[1..], id);
      assert forall c :: c in s <==> c == s[0] || c in s[1..] by { assert s == [s[0]] + s[1..]; }
      if s[0].id != id then [s[0]] + rest else rest
  }

  class CommitmentsStore {
    /** The module-level `commitments` array. */
    var commitments: seq<Commitment>
    var isInitialized: bool
    /** What device storage holds under the store's key; `None` if nothing was ever saved. */
    var saved: Option<seq<Commitment>>
    const seed: seq<Commitment>

    /** The list every operation sees once `ensureInitialized` has run. */
    function Current(): (current: seq<Commitment>)
      reads this
      ensures isInitialized ==> current == commitments
      ensures !isInitialized ==> current == Load(saved, seed)
    {
      if isInitialized then commitments else Load(saved, seed)
    }

    constructor (seed: seq<Commitment>, saved: Option<seq<Commitment>>)
      ensures this.seed == seed && this.saved == saved
      ensures commitments == [] && !isInitialized
      ensures Current() == Load(saved, seed)
    {
      this.seed := seed;
      this.saved := saved;
      commitments := [];
      isInitialized := false;
    }

    /** Loads once; a second call changes nothing. */
    method EnsureInitialized()
      modifies this
      ensures isInitialized && commitments == old(Current())
      ensures saved == old(saved)
      ensures old(isInitialized) ==> commitments == old(commitments)
    {
      if !isInitialized {
        commitments := Load(saved, seed);
        isInitialized := true;
      }
    }

    method GetAll() returns (all: seq<Commitment>)
      modifies this
      ensures isInitialized && commitments == old(Current()) && saved == old(saved)
      ensures all == commitments
    {
      EnsureInitialized();
      all := commitments;
    }

    method GetById(id: Id) returns (found: Option<Commitment>)
      modifies this
      ensures isInitialized && commitments == old(Current()) && saved == old(saved)
      ensures found == FindCommitment(commitments, id)
    {
      EnsureInitialized();
      found := FindCommitment(commitments, id);
    }

    /** Appends the stamped draft under an id no stored commitment has, and saves. */
    method Create(draft: CommitmentDraft, now: Instant) returns (c: Commitment)
      modifies this
      ensures isInitialized
      ensures c == StampCommitment(draft, FreshId(CommitmentIds(old(Current()))), now)
      ensures c.id !in CommitmentIds(old(Current()))
      ensures commitments == old(Current()) + [c]
      ensures saved == Some(commitments)
    {
      EnsureInitialized();
      c := StampCommitment(draft, FreshId(CommitmentIds(commitments)), now);
      commitments := commitments + [c];
      saved := Some(commitments);
    }

    /**
     * Replaces the first commitment with this id by its update and saves, or
     * fails, changing nothing but the initialisation.
     */
    method Update(id: Id, updates: CommitmentPatch, now: Instant) returns (result: Result<Commitment>)
      modifies this
      ensures isInitialized
      ensures IndexOfCommitment(old(Current()), id).None? ==>
        && result == Failure("Commitment with id " + id + " not found")
        && commitments == old(Current()) && saved == old(saved)
      ensures IndexOfCommitment(old(Current()), id).Some? ==>
        var k := IndexOfCommitment(old(Current()), id).value;
        && result == Success(Touched(old(Current())[k], updates, now))
        && commitments == old(Current())[k := result.value]
        && saved == Some(commitments)
    {
      EnsureInitialized();
      var index := IndexOfCommitment(commitments, id);
      if index.None? {
        return Failure("Commitment with id " + id + " not found");
      }
      var updated := Touched(commitments[index.value], updates, now);
      commitments := commitments[index.value := updated];
      saved := Some(commitments);
      result := Success(updated);
    }

    /** Removes the first commitment with this id and saves; an absent id changes nothing. */
    method Delete(id: Id)
      modifies this
      ensures isInitialized
      ensures IndexOfCommitment(old(Current()), id).None? ==> commitments == old(Current()) && saved == old(saved)
      ensures IndexOfCommitment(old(Current()), id).Some? ==>
        && commitments == RemoveAt(old(Current()), IndexOfCommitment(old(Current()), id).value)
        && saved == Some(commitments)
    {
      EnsureInitialized();
      var index := IndexOfCommitment(commitments, id);
      if index.Some? {
        commitments := RemoveAt(commitments, index.value);
        saved := Some(commitments);
      }
    }
  }

  /** A store opened over what another one saved starts from that list. */
  lemma ReloadSeesSaved(xs: seq<Commitment>, seed: seq<Commitment>)
    ensures Load(Some(xs), seed) == xs
  {
  }

  /** Removing the only commitment with an id is the same as filtering that id out. */
  lemma {:induction false} RemoveUniqueIsFilter(s: seq<Commitment>, id: Id)
    requires IndexOfCommitment(s, id).Some?
    requires forall i, j :: 0 <= i < j < |s| && s[i].id == id ==> s[j].id != id
    ensures RemoveAt(s, IndexOfCommitment(s, id).value) == WithoutId(s, id)
  {
    if s[0].id == id {
      assert RemoveAt(s, 0) == s[1..];
      NoIdIsUnfiltered(s[1..], id);
    } else {
      var k := IndexOfCommitment(s[1..], id).value;
      RemoveUniqueIsFilter(s[1..], id);
      assert RemoveAt(s, k + 1) == [s[0]] + RemoveAt(s[1..], k);
    }
  }

  lemma {:induction false} NoIdIsUnfiltered(s: seq<Commitment>, id: Id)
    requires forall j :: 0 <= j < |s| ==> s[j].id != id
    ensures WithoutId(s, id) == s
  {
    if s != [] {
      NoIdIsUnfiltered(s[1..], id);
      assert [s[0]] + s[1..] == s;
    }
  }
}
