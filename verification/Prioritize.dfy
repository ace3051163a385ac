/**
 Moving an owner's sessions to the front of the durable store, which the next owner release takes its batch from.
 A stored object keeps its keys in the order they were written, as long as no key reads as an integer.
 */
module Prioritizing {
  import opened Options
  import opened Text
  import opened OwnerImage
  import opened OwnerReleases

  datatype Mapping = Mapping(session: SessionId, owner: OwnerId)

  function Ids(entries: seq<Mapping>): (ids: seq<SessionId>)
    ensures |ids| == |entries| && forall i :: 0 <= i < |ids| ==> ids[i] == entries[i].session
  {
    if entries == [] then [] else Ids(entries[..|entries| - 1]) + [entries[|entries| - 1].session]
  }

  /** One mapping for each session. */
  ghost predicate Keyed(entries: seq<Mapping>) {
    forall i, j | 0 <= i < j < |entries| :: entries[i].session != entries[j].session
  }

  function OwnersIn(entries: seq<Mapping>): Owners {
    if entries == [] then map[]
        else OwnersIn(entries[..|entries| - 1])[entries[|entries| - 1].session := entries[|entries| - 1].owner]
  }

  function FirstIndex(ids: seq<SessionId>, s: SessionId): (i: nat)
    requires s in ids
    ensures i < |ids| && ids[i] == s && s !in ids[..i]
  {
    if ids[0] == s then 0 else 1 + FirstIndex(ids[1..], s)
  }

  /** The requested sessions that `o` owns, each once, in the order of their first request. */
  ghost predicate Picked(picked: seq<SessionId>, entries: seq<Mapping>, requested: seq<SessionId>, o: OwnerId) {
    && (forall s :: s in picked <==> s in requested && Mapping(s, o) in entries)
    && forall i, j | 0 <= i < j < |picked| :: FirstIndex(requested, picked[i]) < FirstIndex(requested, picked[j])
  }

  function OwnedMappings(ids: seq<SessionId>, o: OwnerId): (entries: seq<Mapping>)
    ensures |entries| == |ids| && forall i :: 0 <= i < |ids| ==> entries[i] == Mapping(ids[i], o)
  {
    seq(|ids|, i requires 0 <= i < |ids| => Mapping(ids[i], o))
  }

  /** The mappings of other sessions, in their order. */
  function Others(entries: seq<Mapping>, ids: seq<SessionId>): seq<Mapping> {
    if entries == [] then []
    else Others(entries[..|entries| - 1], ids) + if entries[|entries| - 1].session in ids then []
        else [entries[|entries| - 1]]
  }

  // ------------------------------------------------------------ reordering

  lemma {:induction false} FirstIndexOf(ids: seq<SessionId>, i: nat)
    requires i < |ids| && ids[i] !in ids[..i]
    ensures FirstIndex(ids, ids[i]) == i
  {
    if i > 0 {
      assert ids[0] == ids[..i][0];
      assert ids[1..][..i - 1] == ids[..i][1..];
      FirstIndexOf(ids[1..], i - 1);
    }
  }

  lemma OthersAre(entries: seq<Mapping>, ids: seq<SessionId>)
    requires Keyed(entries)
    ensures Keyed(Others(entries, ids)) && forall m :: m in Others(entries, ids) <==> m in entries && m.session !in ids
  {
    if entries != [] {
      var init := entries[..|entries| - 1];
      OthersAre(init, ids);
      assert entries == init + [entries[|entries| - 1]];
      assert forall m <- Others(init, ids) :: m in init;
    }
  }

  /** The mappings that are not picked keep their order. */
  lemma {:induction false} OthersInOrder(entries: seq<Mapping>, ids: seq<SessionId>, i: nat, j: nat)
    requires i < j < |Others(entries, ids)|
    ensures exists a, b | 0 <= a < b < |entries| ::
              entries[a] == Others(entries, ids)[i] && entries[b] == Others(entries, ids)[j]
  {
    var init, last := entries[..|entries| - 1], |entries| - 1;
    if j < |Others(init, ids)| {
      OthersInOrder(init, ids, i, j);
      var a, b :| 0 <= a < b < |init| && init[a] == Others(init, ids)[i] && init[b] == Others(init, ids)[j];
      assert entries[a] == Others(entries, ids)[i] && entries[b] == Others(entries, ids)[j];
    } else {
      OthersFrom(init, ids, i);
      var a :| 0 <= a < |init| && init[a] == Others(init, ids)[i];
      assert entries[a] == Others(entries, ids)[i] && entries[last] == Others(entries, ids)[j];
    }
  }

  lemma OthersFrom(entries: seq<Mapping>, ids: seq<SessionId>, i: nat)
    requires i < |Others(entries, ids)|
    ensures Others(entries, ids)[i] in entries
  {
    if i == |Others(entries, ids)| - 1 && entries[|entries| - 1].session !in ids {
    } else {
      OthersFrom(entries[..|entries| - 1], ids, i);
    }
  }

  /** The new order holds the same mappings, the picked ones first. */
  lemma SameMappings(entries: seq<Mapping>, requested: seq<SessionId>, o: OwnerId, picked: seq<SessionId>)
    requires Keyed(entries) && Picked(picked, entries, requested, o)
    ensures var after := OwnedMappings(picked, o) + Others(entries, picked);
            Keyed(after) && (forall m :: m in after <==> m in entries) && OwnersIn(after) == OwnersIn(entries)
  {
    OthersAre(entries, picked);
    var front, back := OwnedMappings(picked, o), Others(entries, picked);
    PickedDistinct(picked, entries, requested, o);
    forall m ensures m in front + back <==> m in entries {
      MemberOfFront(picked, o, m);
      if m in entries && m.session in picked { OneOwner(entries, m, Mapping(m.session, o)); }
    }
    var after := front + back;
    forall i, j | 0 <= i < j < |after| ensures after[i].session != after[j].session {
      if i < |front| && |front| <= j { assert after[j] in back && picked[i] in picked; }
    }
    SameOwners(front + back, entries);
  }

  lemma PickedDistinct(picked: seq<SessionId>, entries: seq<Mapping>, requested: seq<SessionId>, o: OwnerId)
    requires Picked(picked, entries, requested, o)
    ensures Distinct(picked)
  {
    forall i, j | 0 <= i < j < |picked| ensures picked[i] != picked[j] {
      assert FirstIndex(requested, picked[i]) < FirstIndex(requested, picked[j]);
    }
  }

  lemma MemberOfFront(picked: seq<SessionId>, o: OwnerId, m: Mapping)
    ensures m in OwnedMappings(picked, o) <==> m.session in picked && m.owner == o
  {
    if m.session in picked && m.owner == o {
      var i :| 0 <= i < |picked| && picked[i] == m.session;
      assert OwnedMappings(picked, o)[i] == m;
    }
  }

  lemma OneOwner(entries: seq<Mapping>, m: Mapping, n: Mapping)
    requires Keyed(entries) && m in entries && n in entries && m.session == n.session
    ensures m == n
  {}

  lemma {:induction false} OwnersInExactly(entries: seq<Mapping>, s: SessionId, o: OwnerId)
    requires Keyed(entries)
    ensures s in OwnersIn(entries) && OwnersIn(entries)[s] == o <==> Mapping(s, o) in entries
    ensures s in OwnersIn(entries) <==> exists p :: Mapping(s, p) in entries
  {
    if entries != [] {
      var init, last := entries[..|entries| - 1], entries[|entries| - 1];
      OwnersInExactly(init, s, o);
      assert entries == init + [last];
    }
  }

  lemma SameOwners(a: seq<Mapping>, b: seq<Mapping>)
    requires Keyed(a) && Keyed(b) && forall m :: m in a <==> m in b
    ensures OwnersIn(a) == OwnersIn(b)
  {
    forall s ensures s in OwnersIn(a) <==> s in OwnersIn(b) { OwnersInExactly(a, s, ""); OwnersInExactly(b, s, ""); }
    forall s | s in OwnersIn(a) ensures OwnersIn(a)[s] == OwnersIn(b)[s] {
      OwnersInExactly(a, s, OwnersIn(a)[s]);
      OwnersInExactly(b, s, OwnersIn(a)[s]);
    }
  }

  method Pick(entries: seq<Mapping>, requested: seq<SessionId>, o: OwnerId) returns (picked: seq<SessionId>)
    ensures Picked(picked, entries, requested, o)
  {
    picked := [];
    for i := 0 to |requested|
      invariant forall s :: s in picked <==> s in requested[..i] && Mapping(s, o) in entries
      invariant forall k | 0 <= k < |picked| :: picked[k] in requested && FirstIndex(requested, picked[k]) < i
      invariant forall j, k | 0 <= j < k < |picked| ::
                    FirstIndex(requested, picked[j]) < FirstIndex(requested, picked[k])
    {
      assert requested[..i + 1] == requested[..i] + [requested[i]];
      if requested[i] !in requested[..i] && Mapping(requested[i], o) in entries {
        FirstIndexOf(requested, i);
        picked := picked + [requested[i]];
      }
    }
    assert requested[..|requested|] == requested;
  }

  /** Picks what the owner asked for and writes it ahead of the rest. */
  method Reorder(entries: seq<Mapping>, requested: seq<SessionId>, o: OwnerId)
    returns (reordered: seq<Mapping>, picked: seq<SessionId>)
    requires Keyed(entries)
    ensures Picked(picked, entries, requested, o)
    ensures reordered == OwnedMappings(picked, o) + Others(entries, picked)
    ensures Keyed(reordered) && (forall m :: m in reordered <==> m in entries)
            && OwnersIn(reordered) == OwnersIn(entries)
  {
    picked := Pick(entries, requested, o);
    reordered := [];
    for i := 0 to |picked|
      invariant reordered == OwnedMappings(picked[..i], o)
    {
      reordered := reordered + [Mapping(picked[i], o)];
    }
    assert picked[..|picked|] == picked;
    for i := 0 to |entries|
      invariant reordered == OwnedMappings(picked, o) + Others(entries[..i], picked)
    {
      assert entries[..i + 1][..i] == entries[..i];
      if entries[i].session !in picked { reordered := reordered + [entries[i]]; }
    }
    assert entries[..|entries|] == entries;
    SameMappings(entries, requested, o, picked);
  }

  const MAX_REQUESTED := 1_000
  const MIN_OWNER_ID_LENGTH := 16

  predicate ValidRequest(requested: seq<SessionId>, o: OwnerId) {
    |o| >= MIN_OWNER_ID_LENGTH && |requested| <= MAX_REQUESTED
        && forall i :: 0 <= i < |requested| ==> SafeIdentifier(requested[i])
  }

  /** The durable store, seen as the ordered object it is written as; absent when it is missing or unreadable. */
  class OwnerFile {
    var entries: Option<seq<Mapping>>

    /** Answers the prioritised sessions, or throws. Whatever happens, nobody's ownership changes. */
    method Prioritize(requested: seq<SessionId>, o: OwnerId) returns (picked: Option<seq<SessionId>>)
      requires entries.Some? ==> Keyed(entries.value)
      modifies this
      ensures picked.Some? ==>
                && ValidRequest(requested, o) && old(entries).Some?
                && Picked(picked.value, old(entries).value, requested, o)
      ensures picked.Some? ==>
                  entries == Some(OwnedMappings(picked.value, o) + Others(old(entries).value, picked.value))
      ensures |o| < 16 || |requested| > 1_000 || (exists s <- requested :: !SafeIdentifier(s)) ==>
                picked.None? && entries == old(entries)
      ensures !ValidRequest(requested, o) ==> entries == old(entries)
      ensures entries.Some? <==> old(entries).Some?
      ensures entries.Some? ==> Keyed(entries.value) && OwnersIn(entries.value) == OwnersIn(old(entries).value)
    {
      if !ValidRequest(requested, o) || entries.None? { return None; }
      var reordered, sessions := Reorder(entries.value, requested, o);
      var written: bool, reported: bool := *, *;
      if written || reported { entries := Some(reordered); }
      picked := if reported then Some(sessions) else None;
    }
  }

  // ------------------------------------------- what the next release selects

  function NotIn(ids: seq<SessionId>, excluded: set<SessionId>): seq<SessionId> {
    if ids == [] then [] else (if ids[0] in excluded then [] else [ids[0]]) + NotIn(ids[1..], excluded)
  }

  lemma {:induction false} EligibleConcat(a: seq<SessionId>, b: seq<SessionId>, entries: map<SessionId, Entry>,
                                          o: OwnerId, excluded: set<SessionId>)
    ensures Eligible(a + b, entries, o, excluded)
            == Eligible(a, entries, o, excluded) + Eligible(b, entries, o, excluded)
    decreases |a|
  {
    if a == [] {
      assert a + b == b;
    } else {
      assert (a + b)[1..] == a[1..] + b;
      EligibleConcat(a[1..], b, entries, o, excluded);
    }
  }

  lemma {:induction false} EligibleOwned(ids: seq<SessionId>, entries: map<SessionId, Entry>, o: OwnerId,
                                         excluded: set<SessionId>)
    requires forall s <- ids :: s !in excluded ==> s in entries && entries[s].ownerId == o
    ensures Eligible(ids, entries, o, excluded) == NotIn(ids, excluded)
  {
    if ids != [] { EligibleOwned(ids[1..], entries, o, excluded); }
  }

  /** The image's order after a reload: the store's, then the preserved sessions that the store lacks. */
  function OrderAfterReload(entries: seq<Mapping>, kept: seq<SessionId>): seq<SessionId> { Ids(entries) + kept }

  /** The batch a release selects right after it has applied the reload of these entries. */
  function NextBatch(entries: seq<Mapping>, was: map<SessionId, Entry>, preserved: set<SessionId>, kept: seq<SessionId>,
                     o: OwnerId, excluded: set<SessionId>): seq<SessionId> {
    var image := Preserve(Applied(was, OwnersIn(entries)), was, preserved);
    FirstOf(Eligible(OrderAfterReload(entries, kept), image, o, excluded), OWNER_RELEASE_MAX_SESSIONS)
  }

  lemma SelectedInOrder(reordered: seq<Mapping>, others: seq<Mapping>, picked: seq<SessionId>, o: OwnerId,
                        was: map<SessionId, Entry>, preserved: set<SessionId>, kept: seq<SessionId>,
                            excluded: set<SessionId>)
    requires Keyed(reordered) && reordered == OwnedMappings(picked, o) + others && preserved <= excluded
    ensures exists rest :: NextBatch(reordered, was, preserved, kept, o,
                                     excluded) == FirstOf(NotIn(picked, excluded) + rest, OWNER_RELEASE_MAX_SESSIONS)
  {
    OwnedAfterReload(reordered, picked, o, others, was, preserved, excluded);
    var image := Preserve(Applied(was, OwnersIn(reordered)), was, preserved);
    EligibleOwned(picked, image, o, excluded);
    var rest := Ids(others) + kept;
    assert OrderAfterReload(reordered, kept) == picked + rest;
    EligibleConcat(picked, rest, image, o, excluded);
  }

  /**
   That batch starts with the prioritised sessions the release does not exclude, in their order: the first 16 of them.
   Preserved sessions are always excluded.
   */
  lemma PrioritisedFillTheBatch(entries: seq<Mapping>, requested: seq<SessionId>, o: OwnerId, picked: seq<SessionId>,
                                was: map<SessionId, Entry>, preserved: set<SessionId>, kept: seq<SessionId>,
                                    excluded: set<SessionId>)
    requires Keyed(entries) && Picked(picked, entries, requested, o) && preserved <= excluded
    ensures FirstOf(NotIn(picked, excluded), OWNER_RELEASE_MAX_SESSIONS)
            <= NextBatch(OwnedMappings(picked, o) + Others(entries, picked), was, preserved, kept, o, excluded)
  {
    SameMappings(entries, requested, o, picked);
    var reordered := OwnedMappings(picked, o) + Others(entries, picked);
    SelectedInOrder(reordered, Others(entries, picked), picked, o, was, preserved, kept, excluded);
    var rest :| NextBatch(reordered, was, preserved, kept, o, excluded)
        == FirstOf(NotIn(picked, excluded) + rest, OWNER_RELEASE_MAX_SESSIONS);
    PrefixFills(NotIn(picked, excluded), rest, OWNER_RELEASE_MAX_SESSIONS);
  }

  /** So up to 16 of them are all selected. */
  lemma AllPrioritisedAreSelected(entries: seq<Mapping>, requested: seq<SessionId>, o: OwnerId, picked: seq<SessionId>,
                                  was: map<SessionId, Entry>, preserved: set<SessionId>, kept: seq<SessionId>,
                                      excluded: set<SessionId>, s: SessionId)
    requires Keyed(entries) && Picked(picked, entries, requested, o) && preserved <= excluded
    requires |NotIn(picked, excluded)| <= OWNER_RELEASE_MAX_SESSIONS
    requires s in requested && Mapping(s, o) in entries && s !in excluded
    ensures s in NextBatch(OwnedMappings(picked, o) + Others(entries, picked), was, preserved, kept, o, excluded)
  {
    PrioritisedFillTheBatch(entries, requested, o, picked, was, preserved, kept, excluded);
    InNotIn(picked, excluded, s);
    var batch := NextBatch(OwnedMappings(picked, o) + Others(entries, picked), was, preserved, kept, o, excluded);
    var i :| 0 <= i < |NotIn(picked, excluded)| && NotIn(picked, excluded)[i] == s;
    assert batch[i] == s;
  }

  lemma OwnedAfterReload(reordered: seq<Mapping>, picked: seq<SessionId>, o: OwnerId, others: seq<Mapping>,
                         was: map<SessionId, Entry>, preserved: set<SessionId>, excluded: set<SessionId>)
    requires Keyed(reordered) && reordered == OwnedMappings(picked, o) + others && preserved <= excluded
    ensures var image := Preserve(Applied(was, OwnersIn(reordered)), was, preserved);
            forall s <- picked :: s !in excluded ==> s in image && image[s].ownerId == o
  {
    forall s <- picked ensures s in OwnersIn(reordered) && OwnersIn(reordered)[s] == o {
      MemberOfFront(picked, o, Mapping(s, o));
      OwnersInExactly(reordered, s, o);
    }
  }

  lemma PrefixFills(front: seq<SessionId>, back: seq<SessionId>, n: nat)
    ensures FirstOf(front, n) <= FirstOf(front + back, n)
    ensures |front| <= n ==> forall s <- front :: s in FirstOf(front + back, n)
  {
    var first := FirstOf(front + back, n);
    if |front| <= n { assert first[..|front|] == front; }
  }

  lemma {:induction false} InNotIn(ids: seq<SessionId>, excluded: set<SessionId>, s: SessionId)
    ensures s in NotIn(ids, excluded) <==> s in ids && s !in excluded
  {
    if ids != [] {
      InNotIn(ids[1..], excluded, s);
      assert s in ids <==> s == ids[0] || s in ids[1..];
    }
  }
}
