/**
 The release of one owner's sessions: select a batch, stop it through the live engine, take it out of the durable
 store, and tell the caller which sessions are gone. Between any two steps the rest of the broker runs.
 */
module OwnerReleases {
  import opened Options
  import opened OwnerImage
  import opened OwnerStores
  import opened Fates
  import Creates

  type Protocol = nat

  const OWNER_RELEASE_MAX_SESSIONS := 16
  const OWNER_RELEASE_CONCURRENCY := 8

  datatype Result = Returned(releasedIds: seq<SessionId>, failedIds: seq<SessionId>, deferred: nat) | Threw

  // ------------------------------------------------------------- selection

  ghost predicate Distinct(ids: seq<SessionId>) { forall i, j | 0 <= i < j < |ids| :: ids[i] != ids[j] }

  /** The owner's sessions in store order that no exclusion names. */
  function Eligible(order: seq<SessionId>, entries: map<SessionId, Entry>, o: OwnerId,
                    excluded: set<SessionId>): seq<SessionId> {
    if order == [] then []
    else
      var rest := Eligible(order[1..], entries, o, excluded);
      if order[0] in entries && entries[order[0]].ownerId == o && order[0] !in excluded then [order[0]] + rest else rest
  }

  /** Sessions a create in flight has already claimed are left to that create. */
  function Excluded(exclude: set<SessionId>, grandfathered: map<nat, Option<SessionId>>): set<SessionId> {
    exclude + set t | t in grandfathered && grandfathered[t].Some? :: grandfathered[t].value
  }

  function FirstOf(ids: seq<SessionId>, n: nat): seq<SessionId> { if |ids| <= n then ids else ids[..n] }

  lemma {:induction false} EligibleExactly(order: seq<SessionId>, entries: map<SessionId, Entry>, o: OwnerId,
                                           excluded: set<SessionId>)
    ensures forall s :: s in Eligible(order, entries, o, excluded)
                   <==> s in order && s in entries && entries[s].ownerId == o && s !in excluded
    ensures Distinct(order) ==> Distinct(Eligible(order, entries, o, excluded))
  {
    if order != [] {
      EligibleExactly(order[1..], entries, o, excluded);
      var rest := Eligible(order[1..], entries, o, excluded);
      assert forall s :: s in order <==> s == order[0] || s in order[1..];
      if Distinct(order) {
        assert order[0] !in order[1..];
        assert order[0] !in rest;
      }
    }
  }

  /** A session this owner may lose now: its own, not excluded, and claimed by no create in flight. */
  ghost predicate Free(s: SessionId, entries: map<SessionId, Entry>, o: OwnerId, exclude: set<SessionId>,
                       grandfathered: map<nat, Option<SessionId>>) {
    && s in entries && entries[s].ownerId == o && s !in exclude
    && forall t <- grandfathered :: grandfathered[t] != Some(s)
  }

  ghost predicate Before(order: seq<SessionId>, a: SessionId, b: SessionId) {
    exists i, j | 0 <= i < j < |order| :: order[i] == a && order[j] == b
  }

  ghost function FreeIn(order: seq<SessionId>, entries: map<SessionId, Entry>, o: OwnerId, exclude: set<SessionId>,
                        grandfathered: map<nat, Option<SessionId>>): set<SessionId> {
    set s | s in order && Free(s, entries, o, exclude, grandfathered)
  }

  /** The batch is the first of the free sessions, sixteen at most, in store order. */
  ghost predicate FirstFree(batch: seq<SessionId>, order: seq<SessionId>, free: set<SessionId>) {
    && Distinct(batch) && (forall s <- batch :: s in free)
    && |batch| == (if |free| <= OWNER_RELEASE_MAX_SESSIONS then |free| else OWNER_RELEASE_MAX_SESSIONS)
    && (forall i, j | 0 <= i < j < |batch| :: Before(order, batch[i], batch[j]))
    && (forall a, b | a in batch && b in free && b !in batch :: Before(order, a, b))
  }

  lemma LaterStill(order: seq<SessionId>, a: SessionId, b: SessionId)
    requires order != [] && (if a == order[0] then b in order[1..] else Before(order[1..], a, b))
    ensures Before(order, a, b)
  {
    if a == order[0] {
      var j :| 0 <= j < |order[1..]| && order[1..][j] == b;
      assert order[0] == a && order[j + 1] == b;
    } else {
      var i, j :| 0 <= i < j < |order[1..]| && order[1..][i] == a && order[1..][j] == b;
      assert order[i + 1] == a && order[j + 1] == b;
    }
  }

  lemma {:induction false} EligibleInOrder(order: seq<SessionId>, entries: map<SessionId, Entry>, o: OwnerId,
                                           excluded: set<SessionId>, i: nat, j: nat)
    requires Distinct(order) && i < j < |Eligible(order, entries, o, excluded)|
    ensures var ids := Eligible(order, entries, o, excluded); Before(order, ids[i], ids[j])
  {
    var ids, rest := Eligible(order, entries, o, excluded), Eligible(order[1..], entries, o, excluded);
    var skip := |ids| - |rest|;
    EligibleExactly(order[1..], entries, o, excluded);
    assert ids[j] == rest[j - skip] && rest[j - skip] in rest;
    if skip <= i {
      assert ids[i] == rest[i - skip] && rest[i - skip] in rest;
      assert order[0] !in order[1..];
      EligibleInOrder(order[1..], entries, o, excluded, i - skip, j - skip);
    }
    LaterStill(order, ids[i], ids[j]);
  }

  lemma {:induction false} DistinctSize(ids: seq<SessionId>)
    requires Distinct(ids)
    ensures |SetOf(ids)| == |ids|
  {
    if ids != [] {
      DistinctSize(ids[1..]);
      assert ids[0] !in ids[1..];
      assert SetOf(ids) == SetOf(ids[1..]) + {ids[0]};
    }
  }

  lemma ExcludedExactly(s: SessionId, entries: map<SessionId, Entry>, o: OwnerId, exclude: set<SessionId>,
                        grandfathered: map<nat, Option<SessionId>>)
    ensures Free(s, entries, o, exclude, grandfathered)
            <==> s in entries && entries[s].ownerId == o && s !in Excluded(exclude, grandfathered)
  {}

  lemma BatchComesFirst(order: seq<SessionId>, entries: map<SessionId, Entry>, o: OwnerId, excluded: set<SessionId>,
                        n: nat, a: SessionId, b: SessionId)
    requires var ids := Eligible(order, entries, o, excluded);
             Distinct(order) && a in FirstOf(ids, n) && b in ids && b !in FirstOf(ids, n)
    ensures Before(order, a, b)
  {
    var ids := Eligible(order, entries, o, excluded);
    var batch := FirstOf(ids, n);
    var i :| 0 <= i < |batch| && batch[i] == a;
    assert ids == batch + ids[|batch|..];
    var j :| 0 <= j < |ids[|batch|..]| && ids[|batch|..][j] == b;
    EligibleInOrder(order, entries, o, excluded, i, |batch| + j);
  }

  lemma EligibleIsFree(order: seq<SessionId>, entries: map<SessionId, Entry>, o: OwnerId, exclude: set<SessionId>,
                       grandfathered: map<nat, Option<SessionId>>)
    requires Distinct(order)
    ensures var ids := Eligible(order, entries, o, Excluded(exclude, grandfathered));
            Distinct(ids) && SetOf(ids) == FreeIn(order, entries, o, exclude, grandfathered)
  {
    var ids := Eligible(order, entries, o, Excluded(exclude, grandfathered));
    EligibleExactly(order, entries, o, Excluded(exclude, grandfathered));
    forall s ensures s in SetOf(ids) <==> s in FreeIn(order, entries, o, exclude, grandfathered) {
      ExcludedExactly(s, entries, o, exclude, grandfathered);
    }
  }

  /** What the selection takes, and how many it leaves for later. */
  lemma SelectsFirstFree(order: seq<SessionId>, entries: map<SessionId, Entry>, o: OwnerId, exclude: set<SessionId>,
                         grandfathered: map<nat, Option<SessionId>>)
    requires Distinct(order)
    ensures var eligible := Eligible(order, entries, o, Excluded(exclude, grandfathered));
            var free := FreeIn(order, entries, o, exclude, grandfathered);
            FirstFree(FirstOf(eligible, OWNER_RELEASE_MAX_SESSIONS), order, free) && |eligible| == |free|
  {
    EligibleIsFree(order, entries, o, exclude, grandfathered);
    DistinctSize(Eligible(order, entries, o, Excluded(exclude, grandfathered)));
    FirstAreFirst(order, entries, o, Excluded(exclude, grandfathered));
  }

  lemma FirstAreFirst(order: seq<SessionId>, entries: map<SessionId, Entry>, o: OwnerId, excluded: set<SessionId>)
    requires Distinct(order) && Distinct(Eligible(order, entries, o, excluded))
             && |SetOf(Eligible(order, entries, o, excluded))| == |Eligible(order, entries, o, excluded)|
    ensures var ids := Eligible(order, entries, o, excluded);
            FirstFree(FirstOf(ids, OWNER_RELEASE_MAX_SESSIONS), order, SetOf(ids))
  {
    var ids := Eligible(order, entries, o, excluded);
    var batch := FirstOf(ids, OWNER_RELEASE_MAX_SESSIONS);
    forall i, j | 0 <= i < j < |batch| ensures Before(order, batch[i], batch[j]) {
      EligibleInOrder(order, entries, o, excluded, i, j);
    }
    forall a, b | a in batch && b in SetOf(ids) && b !in batch ensures Before(order, a, b) {
      BatchComesFirst(order, entries, o, excluded, OWNER_RELEASE_MAX_SESSIONS, a, b);
    }
  }

  // --------------------------------------------- what the two lists share out

  /** Released and failed share out the batch: nothing twice, nothing in both, nothing left over. */
  ghost predicate SharesOut(released: seq<SessionId>, failed: seq<SessionId>, batch: seq<SessionId>) {
    multiset(released) + multiset(failed) == multiset(batch)
  }

  lemma DistinctCounts(ids: seq<SessionId>)
    requires Distinct(ids)
    ensures forall s :: multiset(ids)[s] <= 1
  {
    if ids != [] {
      var init := ids[..|ids| - 1];
      DistinctCounts(init);
      assert ids == init + [ids[|ids| - 1]];
      assert ids[|ids| - 1] !in init;
    }
  }

  lemma RepeatedCounts(ids: seq<SessionId>, i: nat, j: nat)
    requires i < j < |ids|
    ensures ids[i] == ids[j] ==> multiset(ids)[ids[j]] >= 2
  {
    assert ids == ids[..j] + [ids[j]] + ids[j + 1..];
    assert ids[i] in multiset(ids[..j]) by { assert ids[..j][i] == ids[i]; }
  }

  lemma CountsDistinct(ids: seq<SessionId>)
    requires forall s :: multiset(ids)[s] <= 1
    ensures Distinct(ids)
  {
    forall i, j | 0 <= i < j < |ids| ensures ids[i] != ids[j] { RepeatedCounts(ids, i, j); }
  }

  lemma SharedOut(released: seq<SessionId>, failed: seq<SessionId>, batch: seq<SessionId>)
    requires Distinct(batch) && SharesOut(released, failed, batch)
    ensures Distinct(released) && Distinct(failed)
    ensures forall s :: s in batch <==> s in released || s in failed
    ensures forall s :: !(s in released && s in failed)
  {
    DistinctCounts(batch);
    forall s ensures multiset(released)[s] + multiset(failed)[s] == multiset(batch)[s] <= 1 {
      assert (multiset(released) + multiset(failed))[s] <= 1;
    }
    CountsDistinct(released);
    CountsDistinct(failed);
    forall s ensures s in batch <==> s in released || s in failed {
      assert s in batch <==> multiset(batch)[s] > 0;
    }
    assert forall s :: (s in released <==> multiset(released)[s] > 0) && (s in failed <==> multiset(failed)[s] > 0);
  }

  // ------------------------------------------------- what the store may lose

  /** Between two maps only batch sessions differ, and only by the caller's own entry coming or going. */
  ghost predicate OnlyOwnEntries(from: Owners, to: Owners, o: OwnerId, batch: seq<SessionId>) {
    forall s :: SameEntry(from, to, s)
      || (s in batch && (s in from ==> from[s] == o) && (s in to ==> to[s] == o))
  }

  ghost predicate NotOwned(owners: Owners, ids: seq<SessionId>, o: OwnerId) {
    forall s <- ids :: !(s in owners && owners[s] == o)
  }

  /** The caller's own entries among `ids` are deleted. */
  function Deleted(owners: Owners, ids: seq<SessionId>, o: OwnerId): Owners {
    map s | s in owners && !(s in ids && owners[s] == o) :: owners[s]
  }

  /** The commit deletes the caller's entries of these sessions and no other entry. */
  ghost predicate DeletesOwned(commit: Commit, ids: seq<SessionId>, o: OwnerId) {
    forall s :: (s in commit.after ==> s in commit.before)
             && (s in commit.before && s !in commit.after ==> s in ids && commit.before[s] == o)
  }

  /** A write at or after position `base` took the session out of the map it found. */
  ghost predicate RemovedIn(writes: seq<(Owners, Owners)>, base: nat, s: SessionId) {
    exists i :: base <= i < |writes| && s in writes[i].0 && s !in writes[i].1
  }

  /** The writes of a commit stay within the caller's entries of the batch, and remove only what the commit deletes. */
  lemma CommitWrites(was: seq<(Owners, Owners)>, writes: seq<(Owners, Owners)>, commit: Commit, ids: seq<SessionId>,
                     o: OwnerId, batch: seq<SessionId>)
    requires was <= writes && OnlyOwnEntries(commit.before, commit.after, o, batch) && DeletesOwned(commit, ids, o)
    requires forall i :: |was| <= i < |writes| ==>
               (writes[i].0 == commit.before || writes[i].0 == commit.after)
                   && (writes[i].1 == commit.before || writes[i].1 == commit.after)
    ensures forall i | |was| <= i < |writes| :: OnlyOwnEntries(writes[i].0, writes[i].1, o, batch)
    ensures forall s :: RemovedIn(writes, |was|, s) ==> s in ids && s in commit.before && commit.before[s] == o
  {
    forall i | |was| <= i < |writes| ensures OnlyOwnEntries(writes[i].0, writes[i].1, o, batch) {
      OwnEitherWay(commit, writes[i].0, writes[i].1, o, batch);
    }
  }

  /** One more write that removes nothing leaves the removed sessions as they were. */
  lemma OneWrite(was: seq<(Owners, Owners)>, writes: seq<(Owners, Owners)>, base: nat)
    requires base <= |was| && |writes| == |was| + 1 && was <= writes
    requires forall s <- writes[|was|].0 :: s in writes[|was|].1
    ensures forall s :: RemovedIn(writes, base, s) ==> RemovedIn(was, base, s)
  {
    forall s | RemovedIn(writes, base, s) ensures RemovedIn(was, base, s) {
      var i :| base <= i < |writes| && s in writes[i].0 && s !in writes[i].1;
      assert i < |was| && writes[i] == was[i];
    }
  }

  /** A compensation of deletions removes nothing. */
  lemma RevertRemovesNothing(held: Owners, commit: Commit, ids: seq<SessionId>, preserve: seq<SessionId>, o: OwnerId)
    requires !Conflicts(held, commit, ids, preserve) && forall s <- commit.after :: s in commit.before
    ensures forall s <- held :: s in Reverted(held, commit.before, SetOf(ids))
  {
    forall s <- held ensures s in Reverted(held, commit.before, SetOf(ids)) {
      if s in ids { assert SameEntry(held, commit.before, s) || SameEntry(held, commit.after, s); }
    }
  }

  lemma RevertedEntries(held: Owners, from: Owners, ids: seq<SessionId>)
    ensures forall s <- ids :: SameEntry(Reverted(held, from, SetOf(ids)), from, s)
  {}

  ghost predicate NoneOf(ids: seq<SessionId>, stale: set<SessionId>) { forall i :: 0 <= i < |ids| ==> ids[i] !in stale }

  function Without(ids: seq<SessionId>, stale: set<SessionId>): (kept: seq<SessionId>)
    ensures forall s :: s in kept <==> s in ids && s !in stale
  {
    if ids == [] then []
    else if ids[0] in stale then Without(ids[1..], stale) else [ids[0]] + Without(ids[1..], stale)
  }

  lemma DeletedIsOwn(owners: Owners, ids: seq<SessionId>, o: OwnerId, batch: seq<SessionId>)
    requires forall s <- ids :: s in batch
    ensures OnlyOwnEntries(owners, Deleted(owners, ids, o), o, batch) && NotOwned(Deleted(owners, ids, o), ids, o)
  {}

  lemma OwnEitherWay(commit: Commit, from: Owners, to: Owners, o: OwnerId, batch: seq<SessionId>)
    requires OnlyOwnEntries(commit.before, commit.after, o, batch)
    requires (from == commit.before || from == commit.after) && (to == commit.before || to == commit.after)
    ensures OnlyOwnEntries(from, to, o, batch)
  {
    forall s ensures SameEntry(from, to, s)
        || (s in batch && (s in from ==> from[s] == o) && (s in to ==> to[s] == o)) {
      assert SameEntry(commit.before, commit.after, s)
          || (s in batch && (s in commit.before ==> commit.before[s] == o)
              && (s in commit.after ==> commit.after[s] == o));
    }
  }

  lemma RevertedIsOwn(held: Owners, commit: Commit, ids: seq<SessionId>, preserve: seq<SessionId>, o: OwnerId,
                      batch: seq<SessionId>)
    requires OnlyOwnEntries(commit.before, commit.after, o, batch) && !Conflicts(held, commit, ids, preserve)
    ensures OnlyOwnEntries(held, Reverted(held, commit.before, SetOf(ids)), o, batch)
  {
    var reverted := Reverted(held, commit.before, SetOf(ids));
    forall s ensures SameEntry(held, reverted, s)
        || (s in batch && (s in held ==> held[s] == o) && (s in reverted ==> reverted[s] == o)) {
      if s in ids {
        assert SameEntry(reverted, commit.before, s);
        assert SameEntry(held, commit.before, s) || SameEntry(held, commit.after, s);
        assert SameEntry(commit.before, commit.after, s)
            || (s in batch && (s in commit.before ==> commit.before[s] == o)
                && (s in commit.after ==> commit.after[s] == o));
      }
    }
  }

  lemma RestoredIsOwn(held: Owners, ids: seq<SessionId>, o: OwnerId, batch: seq<SessionId>)
    requires !OwnedElsewhere(held, ids, o) && forall s <- ids :: s in batch
    ensures OnlyOwnEntries(held, WithOwned(held, SetOf(ids), o), o, batch)
  {}

  lemma PreservedIsGone(owners: Owners, commit: Commit, ids: seq<SessionId>, o: OwnerId)
    requires NotOwned(commit.after, ids, o) && forall s <- ids :: SameEntry(owners, commit.after, s)
    ensures NotOwned(owners, ids, o)
  {}

  lemma WithoutEnds(ids: seq<SessionId>, stale: set<SessionId>)
    ensures ids[..|ids|] + Without(ids[|ids|..], stale) == ids
    ensures ids[..0] + Without(ids[0..], stale) == Without(ids, stale)
  {
    assert ids[0..] == ids && ids[|ids|..] == [];
  }

  lemma CutAt(was: seq<SessionId>, index: nat, rest: seq<SessionId>, ids: seq<SessionId>)
    requires index < |was| && ids == was[..index + 1] + rest
    ensures index < |ids| && ids[index] == was[index] && ids[..index] == was[..index] && ids[index + 1..] == rest
  {}

  lemma {:induction false} WithoutAll(ids: seq<SessionId>, stale: set<SessionId>)
    requires forall s <- ids :: s in stale
    ensures Without(ids, stale) == []
  {
    if ids != [] { WithoutAll(ids[1..], stale); }
  }

  /** Moving one entry from the released to the failed keeps them sharing out the batch. */
  lemma MoveOne(released: seq<SessionId>, index: nat, failed: seq<SessionId>, batch: seq<SessionId>)
    requires Distinct(batch) && SharesOut(released, failed, batch) && index < |released|
    ensures released[index] !in failed
    ensures SharesOut(released[..index] + released[index + 1..], failed + [released[index]], batch)
  {
    assert released == released[..index] + [released[index]] + released[index + 1..];
    SharedOut(released, failed, batch);
  }

  lemma ShareOne(released: seq<SessionId>, failed: seq<SessionId>, done: seq<SessionId>, s: SessionId)
    requires SharesOut(released, failed, done)
    ensures SharesOut(released + [s], failed, done + [s]) && SharesOut(released, failed + [s], done + [s])
  {}

  lemma MoveHead(released: seq<SessionId>, failed: seq<SessionId>, rest: seq<SessionId>, done: seq<SessionId>)
    requires rest != [] && Distinct(rest) && multiset(released) + multiset(failed) + multiset(rest) == multiset(done)
    ensures multiset(released + [rest[0]]) + multiset(failed) + multiset(rest[1..]) == multiset(done)
    ensures multiset(released) + multiset(failed + [rest[0]]) + multiset(rest[1..]) == multiset(done)
    ensures Distinct(rest[1..]) && forall s <- rest[1..] :: s in rest && s != rest[0]
  {
    assert rest == [rest[0]] + rest[1..];
  }

  function GroupAt(batch: seq<SessionId>, offset: nat): seq<SessionId>
    requires offset <= |batch|
  {
    FirstOf(batch[offset..], OWNER_RELEASE_CONCURRENCY)
  }

  lemma GroupAtFollows(batch: seq<SessionId>, offset: nat)
    requires offset < |batch| && Distinct(batch)
    ensures var group := GroupAt(batch, offset);
            && 0 < |group| <= OWNER_RELEASE_CONCURRENCY && offset + |group| <= |batch|
            && batch[..offset + |group|] == batch[..offset] + group && Distinct(batch[..offset] + group)
  {
    var group := GroupAt(batch, offset);
    assert batch[..offset + |group|] == batch[..offset] + group;
  }

  lemma WholeBatch(batch: seq<SessionId>)
    ensures batch[..|batch|] == batch
  {}

  lemma WithoutStep(ids: seq<SessionId>, index: nat, stale: set<SessionId>)
    requires index < |ids|
    ensures Without(ids[index..], stale)
            == (if ids[index] in stale then [] else [ids[index]]) + Without(ids[index + 1..], stale)
    ensures ids[..index + 1] == ids[..index] + [ids[index]]
  {
    assert ids[index..][1..] == ids[index + 1..];
  }

  class OwnerRelease {
    const store: OwnerStore
    const ownerId: OwnerId
    // What this release reads of the broker: the engine, and which of its own leases and stop fences still stand.
    var protocol: Option<Protocol>
    var starting: bool
    var retiring: bool
    var ownerCurrent: bool
    var leases: map<SessionId, Option<Protocol>>
    var fences: set<SessionId>
    // Its own variables: the lists, and the fences and leases it has to drop at the end.
    var stoppedFences: set<SessionId>
    var releaseSessionAdmissions: set<SessionId>
    var released: seq<SessionId>
    var failed: seq<SessionId>
    var authoritativeStops: set<SessionId>
    var releaseProtocol: Option<Protocol>
    ghost var acknowledged: set<SessionId>
    /**
     Nothing has stood in this release's way so far: no refusal, no deadline, no lost currency, no failing store call.
     */
    ghost var calm: bool
    /** What this release has marked as uncertain. */
    ghost var doubtful: set<SessionId>
    /**
     Sessions settled by a stop that stood at that moment, and sessions found current by the last check after the
     commit.
     */
    ghost var settledStanding: set<SessionId>
    ghost var vetted: set<SessionId>

    constructor (store: OwnerStore, ownerId: OwnerId, protocol: Option<Protocol>, starting: bool, retiring: bool)
      ensures this.store == store && this.ownerId == ownerId && this.protocol == protocol
      ensures released == [] && failed == [] && leases == map[] && fences == {} && ownerCurrent && calm && Tracked()
              && doubtful == {}
    {
      this.store, this.ownerId := store, ownerId;
      this.protocol, this.starting, this.retiring, ownerCurrent := protocol, starting, retiring, true;
      leases, fences, stoppedFences, releaseSessionAdmissions := map[], {}, {}, {};
      released, failed, authoritativeStops, releaseProtocol := [], [], {}, None;
      acknowledged, calm, doubtful, settledStanding, vetted := {}, true, {}, {}, {};
    }

    /** Every lease and fence it still holds is recorded for the end. */
    ghost predicate Tracked()
      reads this`leases, this`fences, this`stoppedFences, this`releaseSessionAdmissions
    {
      leases.Keys <= releaseSessionAdmissions && fences <= stoppedFences
    }

    predicate LeaseStored(s: SessionId, p: Option<Protocol>)
      reads this
    {
      s in leases && leases[s] == p
    }

    /** `releaseSessionCurrent`: after the commit the durable owner no longer counts. */
    predicate Current(s: SessionId, committed: bool)
      reads this, store
    {
      || releaseProtocol.None?
      || (&& LeaseStored(s, releaseProtocol)
          && (committed || (s in store.sessionOwners && store.sessionOwners[s].ownerId == ownerId))
          && (s in authoritativeStops || (protocol == releaseProtocol && s in fences)))
    }

    predicate ReleaseCurrent()
      reads this, store
    {
      ownerCurrent && forall s <- released :: Current(s, false)
    }

    /** Currency once lost stays lost: a finished lease, a lost fence and a replaced engine do not come back. */
    method AwaitBroker()
      modifies this`protocol, this`starting, this`retiring, this`ownerCurrent, this`leases, this`fences
      ensures forall s <- leases :: s in old(leases) && leases[s] == old(leases)[s]
      ensures fences <= old(fences)
      ensures ownerCurrent ==> old(ownerCurrent)
      ensures protocol == releaseProtocol ==> old(protocol) == releaseProtocol
      ensures forall s :: Current(s, true) ==> old(Current(s, true))
    {}

    /**
     An await of the release while it stops sessions: the broker and the store go on, without this release's own
     writes.
     */
    method Pause(ghost others: set<SessionId>)
      requires TrackedBut(others)
      modifies this`protocol, this`starting, this`retiring, this`ownerCurrent, this`leases, this`fences, store
      ensures TrackedBut(others) && store.writes == old(store.writes) && store.trail == old(store.trail)
    {
      AwaitBroker();
      store.Await();
    }

    ghost predicate Sharing(batch: seq<SessionId>)
      reads this
    {
      Distinct(batch) && SharesOut(released, failed, batch) && (calm ==> failed == []) && Tracked()
    }

    /** The stale ones of `was` are gone from position `index` on. */
    ghost predicate Partly(was: seq<SessionId>, index: nat, stale: set<SessionId>)
      reads this`released
    {
      index <= |was| && released == was[..index] + Without(was[index..], stale)
    }

    /** Moves stale sessions from `released` to `failed`, from the end, in place. */
    method FailReleasedSessions(stale: set<SessionId>, ghost batch: seq<SessionId>)
      requires Sharing(batch) && (calm ==> NoneOf(released, stale))
      modifies this`released, this`failed
      ensures Sharing(batch) && released == Without(old(released), stale)
    {
      ghost var was := released;
      var index := |released|;
      WithoutEnds(was, stale);
      while index > 0
        invariant 0 <= index && Partly(was, index, stale) && Sharing(batch)
      {
        index := index - 1;
        FailIfStale(index, stale, was, batch);
      }
    }

    method FailIfStale(index: nat, stale: set<SessionId>, ghost was: seq<SessionId>, ghost batch: seq<SessionId>)
      requires Sharing(batch) && index < |was| && Partly(was, index + 1, stale)
      requires calm ==> NoneOf(was, stale)
      modifies this`released, this`failed
      ensures Sharing(batch) && Partly(was, index, stale)
    {
      WithoutStep(was, index, stale);
      CutAt(was, index, Without(was[index + 1..], stale), released);
      if released[index] in stale { FailAt(index, batch); }
    }

    method FailAt(index: nat, ghost batch: seq<SessionId>)
      requires Sharing(batch) && index < |released| && !calm
      modifies this`released, this`failed
      ensures SharesOut(released, failed, batch)
      ensures released == old(released)[..index] + old(released)[index + 1..]
    {
      MoveOne(released, index, failed, batch);
      var s := released[index];
      released := released[..index] + released[index + 1..];
      if s !in failed { failed := failed + [s]; }
    }

    // ------------------------------------------------------------ stopping

    /** A released session holds its lease and its fence. */
    ghost predicate Guarded(ids: seq<SessionId>)
      reads this`leases, this`fences
    {
      forall s <- ids :: s in leases && leases[s] == None && s in fences
    }

    /** What holds of the lists after fencing `done`. */
    ghost predicate Fenced(done: seq<SessionId>)
      reads this`released, this`failed, this`calm, this`leases, this`fences, this`stoppedFences,
            this`releaseSessionAdmissions
    {
      SharesOut(released, failed, done) && (calm ==> failed == []) && Tracked() && Guarded(released)
    }

    /** With no engine there is nothing to stop: the sessions are leased and fenced, unless an engine is on its way. */
    method FenceWithoutEngine(batch: seq<SessionId>)
      requires Distinct(batch) && released == [] && failed == [] && releaseProtocol.None? && Tracked()
      modifies this`released, this`failed, this`leases, this`fences, this`stoppedFences,
               this`releaseSessionAdmissions, this`calm
      ensures Sharing(batch) && Guarded(released)
      ensures starting || retiring ==> failed == batch && released == []
      ensures !starting && !retiring && old(calm) && failed == [] ==> calm
    {
      calm := calm && !starting && !retiring;
      if starting || retiring { failed := batch; } else { FenceAll(batch); }
    }

    method FenceAll(batch: seq<SessionId>)
      requires released == [] && failed == [] && Tracked()
      modifies this`released, this`failed, this`leases, this`fences, this`stoppedFences,
               this`releaseSessionAdmissions, this`calm
      ensures Fenced(batch) && (old(calm) && failed == [] ==> calm)
    {
      for i := 0 to |batch|
        invariant Fenced(batch[..i]) && (old(calm) && failed == [] ==> calm)
      {
        assert batch[..i + 1] == batch[..i] + [batch[i]];
        FenceSession(batch[i], batch[..i]);
      }
      assert batch[..|batch|] == batch;
    }

    /** A session whose release lease is refused fails; any other is released once it is leased and fenced. */
    method FenceSession(s: SessionId, ghost done: seq<SessionId>)
      requires Fenced(done)
      modifies this`released, this`failed, this`leases, this`fences, this`stoppedFences,
               this`releaseSessionAdmissions, this`calm
      ensures Fenced(done + [s])
      ensures failed == [] ==> old(failed) == [] && calm == old(calm)
    {
      ShareOne(released, failed, done, s);
      var admitted: bool := *;
      calm := calm && admitted;
      if !admitted {
        failed := failed + [s];
      } else {
        HoldFence(s);
        released := released + [s];
      }
    }

    method HoldFence(s: SessionId)
      requires Tracked() && Guarded(released)
      modifies this`leases, this`fences, this`stoppedFences, this`releaseSessionAdmissions
      ensures Tracked() && Guarded(released) && Guarded([s])
    {
      leases, fences := leases[s := None], fences + {s};
      stoppedFences, releaseSessionAdmissions := stoppedFences + {s}, releaseSessionAdmissions + {s};
    }

    method StopOrFence(batch: seq<SessionId>)
      requires Distinct(batch) && released == [] && failed == [] && releaseProtocol.None? && Tracked()
      modifies this, store
      ensures Sharing(batch) && store.writes == old(store.writes)
      ensures old(protocol).Some? ==> forall s <- released :: s in acknowledged && s in settledStanding
    {
      if protocol.None? { FenceWithoutEngine(batch); } else { StopThroughEngine(batch); }
    }

    /** What holds of the lists after the stops of `done`. */
    ghost predicate Stopped(done: seq<SessionId>)
      reads this`released, this`failed, this`calm, this`leases, this`fences, this`stoppedFences,
            this`releaseSessionAdmissions, this`acknowledged, this`authoritativeStops, this`settledStanding
    {
      && SharesOut(released, failed, done) && (calm ==> failed == []) && Tracked()
      && forall s <- released :: s in acknowledged && s in authoritativeStops && s in settledStanding
    }

    /** A stop that was answered validly and whose lease, fence, owner and engine are all unchanged. */
    predicate StopStands(s: SessionId)
      reads this, store
    {
      protocol == releaseProtocol && s in fences && Current(s, false)
    }

    /**
     Stops the batch in groups of eight; a session counts as released only once its stop is acknowledged and settled.
     */
    method StopThroughEngine(batch: seq<SessionId>)
      requires Distinct(batch) && released == [] && failed == [] && protocol.Some? && Tracked()
      modifies this, store
      ensures Stopped(batch) && releaseProtocol.Some?
      ensures store.writes == old(store.writes) && store.trail == old(store.trail)
    {
      releaseProtocol := protocol;
      var offset := 0;
      while offset < |batch|
        invariant 0 <= offset <= |batch| && releaseProtocol.Some? && Stopped(batch[..offset])
        invariant store.writes == old(store.writes) && store.trail == old(store.trail)
      {
        var outOfTime: bool := *;
        calm := calm && !outOfTime && protocol == releaseProtocol;
        if outOfTime || protocol != releaseProtocol {
          FailRest(batch, offset);
          return;
        }
        offset := StopNext(batch, offset);
      }
      WholeBatch(batch);
    }

    method StopNext(batch: seq<SessionId>, offset: nat) returns (next: nat)
      requires offset < |batch| && Distinct(batch) && Stopped(batch[..offset])
      modifies this, store
      ensures offset < next <= |batch| && Stopped(batch[..next]) && releaseProtocol == old(releaseProtocol)
      ensures store.writes == old(store.writes) && store.trail == old(store.trail)
    {
      var group := GroupAt(batch, offset);
      GroupAtFollows(batch, offset);
      StopRound(group, batch[..offset]);
      next := offset + |group|;
    }

    method FailRest(batch: seq<SessionId>, offset: nat)
      requires offset <= |batch| && Stopped(batch[..offset]) && !calm
      modifies this`failed
      ensures Stopped(batch)
    {
      assert batch == batch[..offset] + batch[offset..];
      failed := failed + batch[offset..];
    }

    method StopRound(group: seq<SessionId>, ghost done: seq<SessionId>)
      requires Stopped(done) && Distinct(done + group) && |group| <= OWNER_RELEASE_CONCURRENCY
      modifies this, store
      ensures Stopped(done + group) && releaseProtocol == old(releaseProtocol)
      ensures store.writes == old(store.writes) && store.trail == old(store.trail)
    {
      var fulfilled := StopGroup(group);
      SettleGroup(group, fulfilled, done);
      EndRound(done + group);
    }

    /** After the subscriptions of a group's stops are cleaned up, the engine may have been replaced. */
    method EndRound(ghost done: seq<SessionId>)
      requires Stopped(done) && Distinct(done)
      modifies this`protocol, this`starting, this`retiring, this`ownerCurrent, this`leases, this`fences,
               this`released, this`failed, this`calm, store
      ensures Stopped(done)
      ensures store.writes == old(store.writes) && store.trail == old(store.trail)
    {
      Pause({});
      calm := calm && protocol == releaseProtocol;
      if protocol != releaseProtocol { KeepAuthoritative(done); }
    }

    /** Of what it holds, everything but the leases and fences of `pending` stops is recorded for the end. */
    ghost predicate TrackedBut(pending: set<SessionId>)
      reads this`leases, this`fences, this`stoppedFences, this`releaseSessionAdmissions
    {
      leases.Keys <= releaseSessionAdmissions + pending && fences <= stoppedFences + pending
    }

    /** Requests every stop of a group at once; the answers come back in any order, with anything in between. */
    method StopGroup(group: seq<SessionId>) returns (fulfilled: set<SessionId>)
      requires Tracked() && |group| <= OWNER_RELEASE_CONCURRENCY
      modifies this`protocol, this`starting, this`retiring, this`ownerCurrent, this`leases, this`fences,
               this`acknowledged, this`calm,
               this`stoppedFences, this`releaseSessionAdmissions, store
      ensures fulfilled <= acknowledged && old(acknowledged) <= acknowledged && Tracked()
      ensures (calm ==> old(calm)) && (calm ==> forall s <- group :: s in fulfilled)
      ensures store.writes == old(store.writes) && store.trail == old(store.trail)
    {
      fulfilled := {};
      var pending := RequestStops(group);
      while pending != {}
        invariant fulfilled <= acknowledged && old(acknowledged) <= acknowledged && TrackedBut(pending + fulfilled)
        invariant (calm ==> old(calm)) && (calm ==> forall s <- group :: s in pending + fulfilled)
        invariant store.writes == old(store.writes) && store.trail == old(store.trail)
        decreases |pending|
      {
        var s :| s in pending;
        var answered := AwaitStop(s, pending - {s} + fulfilled);
        pending := pending - {s};
        if answered { fulfilled := fulfilled + {s}; }
      }
      stoppedFences, releaseSessionAdmissions := stoppedFences + fulfilled, releaseSessionAdmissions + fulfilled;
    }

    /**
     One stop's answer: it counts exactly if it is valid and the stop still stands; one that does not stand any more
     gives its own lease and fence up at once.
     */
    method AwaitStop(s: SessionId, ghost others: set<SessionId>) returns (fulfilled: bool)
      requires TrackedBut(others + {s})
      modifies this`protocol, this`starting, this`retiring, this`ownerCurrent, this`leases, this`fences,
               this`acknowledged, this`calm, store
      ensures old(acknowledged) <= acknowledged && (fulfilled ==> s in acknowledged)
      ensures calm <==> old(calm) && fulfilled
      ensures if fulfilled then StopStands(s) else s !in leases && s !in fences
      ensures TrackedBut(if fulfilled then others + {s} else others)
      ensures store.writes == old(store.writes) && store.trail == old(store.trail)
    {
      Pause(others + {s});
      var validAnswer: bool := *;
      if validAnswer { acknowledged := acknowledged + {s}; }
      calm := calm && validAnswer && StopStands(s);
      fulfilled := validAnswer && protocol == releaseProtocol && s in fences && Current(s, false);
      if !fulfilled { leases, fences := leases - {s}, fences - {s}; }
    }

    /** At most eight stops are under way at a time. */
    method RequestStops(group: seq<SessionId>) returns (pending: set<SessionId>)
      requires Tracked() && |group| <= OWNER_RELEASE_CONCURRENCY
      modifies this`leases, this`fences, this`calm
      ensures TrackedBut(pending) && |pending| <= OWNER_RELEASE_CONCURRENCY
      ensures (calm ==> old(calm)) && (calm ==> forall s <- group :: s in pending)
    {
      pending := {};
      for i := 0 to |group|
        invariant TrackedBut(pending) && |pending| <= i
        invariant (calm ==> old(calm)) && (calm ==> forall k :: 0 <= k < i ==> group[k] in pending)
      {
        var admitted: bool := *;
        calm := calm && admitted && group[i] in store.sessionOwners
             && store.sessionOwners[group[i]].ownerId == ownerId;
        if admitted && group[i] in store.sessionOwners && store.sessionOwners[group[i]].ownerId == ownerId {
          leases, fences := leases[group[i] := releaseProtocol], fences + {group[i]};
          pending := pending + {group[i]};
        }
      }
    }

    method SettleGroup(group: seq<SessionId>, fulfilled: set<SessionId>, ghost done: seq<SessionId>)
      requires fulfilled <= acknowledged && Stopped(done) && (calm ==> forall s <- group :: s in fulfilled)
      modifies this`released, this`failed, this`authoritativeStops, this`settledStanding, this`calm
      ensures Stopped(done + group) && (calm ==> old(calm))
    {
      assert done + group[..0] == done;
      for i := 0 to |group|
        invariant Stopped(done + group[..i]) && (calm ==> old(calm))
      {
        assert done + group[..i + 1] == done + group[..i] + [group[i]];
        var _ := SettleOne(group[i], fulfilled, done + group[..i]);
      }
      assert group[..|group|] == group;
    }

    /**
     A stop releases its session exactly if it was fulfilled, still stands, and ended the turn captured when it was
     issued: `settled` is what `settleAcknowledgedStop` answers.
     */
    method SettleOne(s: SessionId, fulfilled: set<SessionId>, ghost done: seq<SessionId>) returns (settled: bool)
      requires fulfilled <= acknowledged && Stopped(done) && (calm ==> s in fulfilled)
      modifies this`released, this`failed, this`authoritativeStops, this`settledStanding, this`calm
      ensures Stopped(done + [s])
      ensures calm <==> old(calm) && settled && StopStands(s)
      ensures released != old(released) && releaseProtocol.Some? ==>
                && settled && protocol == releaseProtocol && s in fences && s in leases && leases[s] == protocol
                && s in store.sessionOwners && store.sessionOwners[s].ownerId == ownerId
      ensures if settled && s in fulfilled && StopStands(s) then released == old(released) + [s]
              && failed == old(failed)
              else released == old(released) && failed == old(failed) + [s]
    {
      settled := *;
      calm := calm && settled && StopStands(s);
      if StopStands(s) { settledStanding := settledStanding + {s}; }
      if settled && s in fulfilled && protocol == releaseProtocol && s in fences && Current(s, false) {
        CountReleased(s, done);
      } else {
        CountFailed(s, done);
      }
    }

    method CountReleased(s: SessionId, ghost done: seq<SessionId>)
      requires Stopped(done) && s in acknowledged && s in settledStanding
      modifies this`released, this`authoritativeStops
      ensures Stopped(done + [s]) && released == old(released) + [s]
    {
      ShareOne(released, failed, done, s);
      authoritativeStops := authoritativeStops + {s};
      released := released + [s];
    }

    method CountFailed(s: SessionId, ghost done: seq<SessionId>)
      requires Stopped(done) && !calm
      modifies this`failed
      ensures Stopped(done + [s]) && failed == old(failed) + [s]
    {
      ShareOne(released, failed, done, s);
      failed := failed + [s];
    }

    /** After the engine was replaced, only stops it had settled still count. */
    method KeepAuthoritative(ghost done: seq<SessionId>)
      requires SharesOut(released, failed, done) && Distinct(done) && !calm && Tracked()
      requires forall s <- released :: s in acknowledged && s in settledStanding
      modifies this`released, this`failed
      ensures Stopped(done)
    {
      var rest := released;
      SharedOut(released, failed, done);
      assert multiset(rest) + multiset(failed) == multiset(done);
      released := [];
      assert Keeping(rest, done);
      while rest != []
        invariant Keeping(rest, done)
        decreases |rest|
      {
        KeepOne(rest, done);
        rest := rest[1..];
      }
    }

    /** The sessions still to look at, the kept and the failed ones share out `done`. */
    ghost predicate Keeping(rest: seq<SessionId>, done: seq<SessionId>)
      reads this`released, this`failed, this`acknowledged, this`authoritativeStops, this`settledStanding
    {
      && multiset(released) + multiset(failed) + multiset(rest) == multiset(done) && Distinct(rest)
      && (forall s <- rest :: s in acknowledged && s in settledStanding && s !in failed)
      && forall s <- released :: s in acknowledged && s in authoritativeStops && s in settledStanding
    }

    method KeepOne(rest: seq<SessionId>, ghost done: seq<SessionId>)
      requires rest != [] && Keeping(rest, done)
      modifies this`released, this`failed
      ensures Keeping(rest[1..], done)
    {
      var s := rest[0];
      MoveHead(released, failed, rest, done);
      if s in authoritativeStops {
        released := released + [s];
      } else if s !in failed {
        failed := failed + [s];
      }
    }

    // ---------------------------------------------------------- committing

    /** Every write since `was` touched only the caller's own entries of the batch. */
    ghost predicate OwnWrites(was: seq<(Owners, Owners)>, batch: seq<SessionId>)
      reads this, store
    {
      && was <= store.writes
      && forall i | |was| <= i < |store.writes| :: OnlyOwnEntries(store.writes[i].0, store.writes[i].1, ownerId, batch)
    }

    /** A write since position `base` took the session out of the store. */
    ghost predicate Removed(base: nat, s: SessionId)
      reads store`writes
    {
      RemovedIn(store.writes, base, s)
    }

    ghost function LastLook(): Owners
      requires |store.trail| > 0
      reads store`trail
    {
      store.trail[|store.trail| - 1]
    }

    /** The last look at the store shows the session as the caller's. */
    ghost predicate Shown(s: SessionId)
      reads store`trail
    {
      |store.trail| > 0 && Creates.Holds(LastLook(), s, ownerId)
    }

    /**
     Of what this release removed, it still counts as released or marked as uncertain whatever it has not seen back.
     */
    ghost predicate Conserved(base: nat)
      reads this`released, this`doubtful, store`writes, store`trail
    {
      forall s :: Removed(base, s) ==> s in released || s in doubtful || Shown(s)
    }

    /** The same, however the store looks. */
    ghost predicate Counted(base: nat)
      reads this`released, this`doubtful, store`writes
    {
      forall s :: Removed(base, s) ==> s in released || s in doubtful
    }

    /** Whatever this release removed is back or marked as uncertain. */
    ghost predicate GivenBack(base: nat)
      reads this`doubtful, store`writes, store`trail
    {
      forall s :: Removed(base, s) ==> s in doubtful || Shown(s)
    }

    /** What a commit removed, if anything, was the caller's entry of a session still released. */
    ghost predicate RemovedByCommit(base: nat, commit: Commit)
      reads this`released, store`writes
    {
      forall s :: Removed(base, s) ==> s in released && Creates.Holds(commit.before, s, ownerId)
    }

    /** At the release's last look at the store, no released session was the caller's any more. */
    ghost predicate Gone()
      reads this, store
    {
      released != [] ==> |store.trail| > 0 && NotOwned(LastLook(), released, ownerId)
    }

    /** What the commit established for the sessions whose release is still current. */
    ghost predicate GoneIfCurrent()
      reads this, store
    {
      released != [] ==> |store.trail| > 0 && forall s <- released ::
        Current(s, true) ==> !Creates.Holds(LastLook(), s, ownerId)
    }

    /** The commit deletes the caller's entries of the released sessions and nothing else. */
    ghost predicate OwnCommit(commit: Commit, batch: seq<SessionId>)
      reads this
    {
      && OnlyOwnEntries(commit.before, commit.after, ownerId, batch) && NotOwned(commit.after, released, ownerId)
      && forall s <- commit.after :: s in commit.before
    }

    /** What every part of the commit keeps. */
    twostate predicate Onward(batch: seq<SessionId>)
      reads this, store
    {
      && Sharing(batch) && OwnWrites(old(store.writes), batch)
      && releaseProtocol == old(releaseProtocol) && acknowledged == old(acknowledged)
         && settledStanding == old(settledStanding)
      && forall s <- released :: s in old(released)
    }

    /** Everything still counted as released is current, and so is the release itself. */
    ghost predicate AllCurrent()
      reads this, store
    {
      forall s <- released :: Current(s, false)
    }

    /** The last check after the commit took effect found everything still counted as released current. */
    ghost predicate Vetted()
      reads this`released, this`vetted
    {
      forall s <- released :: s in vetted
    }

    /**
     Its lease is stored for the stopping engine, and its stop was settled or the engine and the fence still stand.
     */
    ghost predicate Attested(s: SessionId)
      reads this`leases, this`releaseProtocol, this`authoritativeStops, this`protocol, this`fences
    {
      && s in leases && leases[s] == releaseProtocol
      && (s in authoritativeStops || (protocol == releaseProtocol && s in fences))
    }

    function Stale(committed: bool): set<SessionId>
      reads this, store
    {
      set s | s in released && !Current(s, committed)
    }

    predicate CommitMutationCurrent()
      reads this, store
    {
      && ownerCurrent
      && (forall s <- released :: LeaseStored(s, releaseProtocol))
      && (forall s <- released :: s in authoritativeStops ==> Current(s, false))
    }

    method FailAll(ghost batch: seq<SessionId>)
      requires Sharing(batch) && !calm
      modifies this`released, this`failed
      ensures Sharing(batch) && released == []
    {
      WithoutAll(released, set s | s in released);
      FailReleasedSessions((set s | s in released), batch);
    }

    /** Under the lock: drop what went stale while waiting, delete the rest, and write. */
    method CommitBatch(before: Owners, ghost batch: seq<SessionId>, ghost base: nat)
        returns (threw: bool, committed: bool, commit: Commit)
      requires Sharing(batch) && Contents(store.disk) == before && |store.writes| == base
      requires |store.trail| > 0 && LastLook() == before
      modifies this, store
      ensures Onward(batch)
      ensures !threw ==> OwnCommit(commit, batch) && (committed ==> GoneIfCurrent())
      ensures RemovedByCommit(base, commit) && (!threw && !committed ==> forall s :: Removed(base, s) ==> Shown(s))
      ensures calm ==> committed && !threw
    {
      commit := UpdateUnderLock(before, batch);
      threw, committed := WriteCommit(commit, batch, base);
    }

    /** The update of a commit: what went stale meanwhile is failed, the rest deleted where it is still the caller's. */
    method UpdateUnderLock(before: Owners, ghost batch: seq<SessionId>) returns (commit: Commit)
      requires Sharing(batch)
      modifies this`released, this`failed, this`calm
      ensures Sharing(batch) && OwnCommit(commit, batch) && commit.before == before
              && forall s <- released :: s in old(released)
      ensures DeletesOwned(commit, released, ownerId) && AllCurrent()
    {
      calm := calm && Stale(false) == {};
      FailReleasedSessions(Stale(false), batch);
      SharedOut(released, failed, batch);
      commit := Commit(before, Deleted(before, released, ownerId));
      DeletedIsOwn(before, released, ownerId, batch);
    }

    method WriteCommit(commit: Commit, ghost batch: seq<SessionId>, ghost base: nat)
        returns (threw: bool, committed: bool)
      requires OwnCommit(commit, batch) && DeletesOwned(commit, released, ownerId) && AllCurrent()
      requires Contents(store.disk) == commit.before && Tracked() && |store.writes| == base
      requires |store.trail| > 0 && LastLook() == commit.before
      modifies this`protocol, this`starting, this`retiring, this`ownerCurrent, this`leases, this`fences, this`calm,
               store
      ensures OwnWrites(old(store.writes), batch) && Tracked()
      ensures !threw && committed ==> GoneIfCurrent()
      ensures RemovedByCommit(base, commit) && (!threw && !committed ==> forall s :: Removed(base, s) ==> Shown(s))
      ensures calm ==> old(calm) && committed && !threw
    {
      var outcome := Mutate(commit, batch, base);
      AwaitBroker();
      match outcome
      case Committed(_) => threw, committed := false, true;
      case NotCommitted(_) => threw, committed := false, false;
      case Threw => threw, committed := true, false;
      case WriteUncertain(_) => threw, committed := RecoverWrite(commit);
    }

    /** The mutation itself, current only while the release and its leases stand. */
    method Mutate(commit: Commit, ghost batch: seq<SessionId>, ghost base: nat) returns (outcome: CommitOutcome)
      requires OwnCommit(commit, batch) && DeletesOwned(commit, released, ownerId) && AllCurrent()
      requires Contents(store.disk) == commit.before && |store.writes| == base
      requires |store.trail| > 0 && LastLook() == commit.before
      modifies this`calm, store
      ensures OwnWrites(old(store.writes), batch) && RemovedByCommit(base, commit)
      ensures store.writes != old(store.writes) || outcome.Committed? || outcome.WriteUncertain? ==>
                && ownerCurrent
                && (forall s <- released :: s in leases && leases[s] == releaseProtocol)
                && forall s <- released | s in authoritativeStops && releaseProtocol.Some? ::
                     s in old(store.sessionOwners) && old(store.sessionOwners)[s].ownerId == ownerId
      ensures outcome.Committed? ==> |store.trail| > 0 && LastLook() == commit.after
      ensures outcome.NotCommitted? ==> |store.trail| > 0 && LastLook() == commit.before
      ensures calm ==> old(calm) && outcome.Committed?
    {
      store.standing, store.claimed := CommitMutationCurrent(), {};
      ghost var was, faultsBefore := store.writes, store.faults;
      ghost var r: Recording;
      outcome, r := store.CommitOwnerMutation(commit);
      calm := calm && store.standing && store.faults == faultsBefore;
      CommitWrites(was, store.writes, commit, released, ownerId, batch);
    }

    /**
     How a released session may look after an ambiguous write: deleted, or untouched if its release lost its standing.
     */
    predicate Updated(winner: Owners, commit: Commit, s: SessionId)
      reads this, store
    {
      SameEntry(winner, commit.after, s) || (s in released && !Current(s, true) && SameEntry(winner, commit.before, s))
    }

    /**
     After an ambiguous write: it counts if the store reads back as updated, up to sessions that went stale meanwhile.
     */
    method RecoverWrite(commit: Commit) returns (threw: bool, committed: bool)
      requires NotOwned(commit.after, released, ownerId) && Tracked()
      modifies this`protocol, this`starting, this`retiring, this`ownerCurrent, this`leases, this`fences, store
      ensures threw == !committed && store.writes == old(store.writes) && Tracked()
      ensures committed ==> |store.trail| > 0 && OwnersOf(store.sessionOwners) == LastLook()
      ensures committed ==> forall s :: s !in released ==> SameEntry(LastLook(), commit.after, s)
      ensures committed ==> forall s <- released :: Updated(LastLook(), commit, s)
      ensures committed ==> GoneIfCurrent()
    {
      var loaded := store.ReadUnlocked(false);
      AwaitBroker();
      if loaded.None? { return true, false; }
      var winner := loaded.value.owners;
      if exists s | s in winner.Keys + commit.after.Keys :: s !in released && !SameEntry(winner, commit.after, s) {
        return true, false;
      }
      if exists s <- released ::
           !SameEntry(winner, commit.after, s) && (Current(s, true) || !SameEntry(winner, commit.before, s)) {
        return true, false;
      }
      store.ApplyOwnership(winner);
      return false, true;
    }

    // ------------------------------------------------- settling a commit

    method LockedCommit(ghost batch: seq<SessionId>, ghost base: nat)
        returns (threw: bool, committed: bool, commit: Commit)
      requires Sharing(batch) && |store.writes| == base
      modifies this, store
      ensures Onward(batch)
      ensures !threw ==> OwnCommit(commit, batch) && (committed ==> GoneIfCurrent())
      ensures RemovedByCommit(base, commit) && (!threw && !committed ==> forall s :: Removed(base, s) ==> Shown(s))
      ensures calm ==> committed && !threw
    {
      threw, committed, commit := true, false, Commit(map[], map[]);
      AwaitBroker();
      var loaded := store.LockAndRead(false);
      AwaitBroker();
      calm := calm && loaded.Some?;
      if loaded.Some? { threw, committed, commit := CommitBatch(loaded.value.owners, batch, base); }
    }

    method TryCommit(ghost batch: seq<SessionId>, ghost base: nat) returns (threw: bool)
      requires Sharing(batch) && |store.writes| == base && ownerCurrent && AllCurrent()
      modifies this, store
      ensures Onward(batch)
      ensures if threw then Counted(base) && !calm else Conserved(base) && Gone() && Vetted()
    {
      var outOfTime, tooLate: bool := *, *;
      calm := calm && !outOfTime;
      if outOfTime { return true; }
      var committed, commit;
      threw, committed, commit := LockedCommit(batch, base);
      calm := calm && !tooLate;
      if threw || tooLate { return true; }
      threw := SettleOutcome(committed, commit, batch, base);
    }

    method SettleOutcome(committed: bool, commit: Commit, ghost batch: seq<SessionId>, ghost base: nat)
        returns (threw: bool)
      requires Sharing(batch) && OwnCommit(commit, batch) && (committed ==> GoneIfCurrent()) && (calm ==> committed)
      requires RemovedByCommit(base, commit) && base <= |store.writes|
               && (!committed ==> forall s :: Removed(base, s) ==> Shown(s))
      modifies this, store
      ensures Onward(batch)
      ensures if threw then Counted(base) && !calm else Conserved(base) && Gone() && Vetted()
      ensures !committed ==> !threw && released == []
    {
      AwaitBroker();
      store.Await();
      if committed {
        threw := SettleCommitted(commit, batch, base);
      } else {
        FailAll(batch);
        threw := false;
      }
    }

    /**
     Sessions that went stale after the commit are failed and their entries put back, the released ones preserved: the
     last
     look shows the caller's entries again, or the sessions are marked as uncertain.
     */
    method SettleCommitted(commit: Commit, ghost batch: seq<SessionId>, ghost base: nat) returns (threw: bool)
      requires Sharing(batch) && OwnCommit(commit, batch) && GoneIfCurrent() && RemovedByCommit(base, commit)
               && base <= |store.writes|
      modifies this, store
      ensures Onward(batch)
      ensures if threw then Counted(base) && !calm else Conserved(base) && Gone() && Vetted()
    {
      var stale := FailStale(commit, batch);
      if stale == [] { return false; }
      threw := PutBack(commit, stale, batch, base);
    }

    /** The stale sessions go back, or are marked as uncertain; the released ones are gone whichever way that ends. */
    method PutBack(commit: Commit, stale: seq<SessionId>, ghost batch: seq<SessionId>, ghost base: nat)
      returns (threw: bool)
      requires OwnCommit(commit, batch) && Tracked() && (forall s <- stale :: s !in released) && base <= |store.writes|
      modifies this`protocol, this`starting, this`retiring, this`ownerCurrent, this`leases, this`fences, this`doubtful,
               store
      ensures OwnWrites(old(store.writes), batch) && Tracked() && old(doubtful) <= doubtful
      ensures forall s :: Removed(base, s) ==> old(Removed(base, s))
      ensures !threw ==> Gone()
      ensures forall s <- stale ::
                s in doubtful || (!threw && |store.trail| > 0 && SameEntry(LastLook(), commit.before, s))
    {
      var compensated, _, _ := Compensate(commit, stale, batch, base);
      if compensated { return false; }
      var failed, _, _ := AfterFailedCompensation(commit, stale);
      threw := failed;
    }

    /** The stale sessions leave the released ones, and nothing else does. */
    method FailStale(commit: Commit, ghost batch: seq<SessionId>) returns (stale: seq<SessionId>)
      requires Sharing(batch) && OwnCommit(commit, batch) && GoneIfCurrent()
      modifies this`released, this`failed, this`calm, this`vetted
      ensures Sharing(batch) && OwnCommit(commit, batch) && Vetted()
      ensures forall s :: s in old(released) <==> s in released || s in stale
      ensures forall s <- stale :: s !in released
      ensures releaseProtocol.None? ==> stale == []
      ensures releaseProtocol.Some? ==> forall s <- released :: Attested(s)
      ensures forall s <- stale :: !Attested(s)
      ensures Gone() || stale != []
      ensures calm ==> stale == []
    {
      var staleSet;
      staleSet, stale := FindStale();
      FailReleasedSessions(staleSet, batch);
    }

    method FindStale() returns (staleSet: set<SessionId>, stale: seq<SessionId>)
      modifies this`calm, this`vetted
      ensures forall s :: s in staleSet <==> s in released && releaseProtocol.Some? && !Attested(s)
      ensures forall s :: s in stale <==> s in staleSet
      ensures forall s <- released :: (s in vetted <==> s !in staleSet) && (s !in staleSet ==> Current(s, true))
      ensures calm == (old(calm) && staleSet == {}) && (staleSet == {} ==> stale == [])
    {
      staleSet := Stale(true);
      vetted := set s | s in released && Current(s, true);
      calm := calm && staleSet == {};
      stale := Without(released, (set s | s in released) - staleSet);
      if staleSet == {} { WithoutAll(released, (set s | s in released) - staleSet); }
    }

    method Compensate(commit: Commit, stale: seq<SessionId>, ghost batch: seq<SessionId>, ghost base: nat)
      returns (compensated: bool, ghost late: bool, ghost held: Option<Owners>)
      requires OwnCommit(commit, batch) && Tracked() && (forall s <- stale :: s !in released) && base <= |store.writes|
      modifies this`protocol, this`starting, this`retiring, this`ownerCurrent, this`leases, this`fences, store
      ensures OwnWrites(old(store.writes), batch) && Tracked()
      ensures forall s :: Removed(base, s) ==> old(Removed(base, s))
      ensures compensated ==>
                && Gone() && |store.trail| > 0
                && forall s <- stale :: SameEntry(LastLook(), commit.before, s)
      ensures !compensated ==>
                || late || store.faults > old(store.faults)
                || (held.Some? && Conflicts(held.value, commit, stale, released))
    {
      var outOfTime, tooLate: bool := *, *;
      late, held := outOfTime || tooLate, None;
      if outOfTime { return false, late, held; }
      AwaitBroker();
      ghost var was := store.writes;
      ghost var met: Withdrawal;
      compensated, held, met := store.CompensateOwnerCommit(commit, stale, released);
      if store.writes != was {
        RevertedIsOwn(held.value, commit, stale, released, ownerId, batch);
        RevertRemovesNothing(held.value, commit, stale, released, ownerId);
        OneWrite(was, store.writes, base);
      }
      if compensated {
        PreservedIsGone(Contents(store.disk), commit, released, ownerId);
        RevertedEntries(held.value, commit.before, stale);
      }
      AwaitBroker();
      compensated := compensated && !tooLate;
    }

    /**
     The compensation reported failure; the release goes on only if the store shows that it took effect all the same.
     */
    method AfterFailedCompensation(commit: Commit, stale: seq<SessionId>)
      returns (threw: bool, ghost look: Option<Owners>, ghost late: bool)
      requires NotOwned(commit.after, released, ownerId) && Tracked()
      modifies this`protocol, this`starting, this`retiring, this`ownerCurrent, this`leases, this`fences,
               this`doubtful, store
      ensures store.writes == old(store.writes) && Tracked()
      ensures !threw ==> Gone()
      ensures Gone() || forall s <- released :: s in doubtful
      ensures forall s <- stale :: s in doubtful
      ensures old(doubtful) <= doubtful
      ensures look.None? ==> late || store.faults > old(store.faults)
      ensures !threw <==>
                && look.Some? && (forall s <- released :: SameEntry(look.value, commit.after, s))
                && forall s <- stale :: SameEntry(look.value, commit.before, s)
      ensures !threw ==> OwnersOf(store.sessionOwners) == look.value
      ensures look.None? || (exists s <- stale :: !SameEntry(look.value, commit.before, s)) ==>
                forall s <- stale | s in commit.before :: RetainedAs(s, commit.before[s])
    {
      var outOfTime: bool := *;
      var winner := LookAgain(outOfTime);
      look, late := if winner.Some? then Some(winner.value.owners) else None, outOfTime;
      var preserved := winner.Some? && forall s <- released :: SameEntry(winner.value.owners, commit.after, s);
      var compensated := winner.Some? && forall s <- stale :: SameEntry(winner.value.owners, commit.before, s);
      if winner.Some? { store.ApplyOwnership(winner.value.owners); }
      MarkUncertain(stale);
      if !preserved { MarkUncertain(released); }
      if !compensated { RetainOwners(commit.before, stale); }
      threw := !preserved || !compensated;
    }

    /** Until the next reload finds out, these sessions may or may not be the caller's. */
    method MarkUncertain(ids: seq<SessionId>)
      modifies this`doubtful, store`uncertainOwnerReleases, store`ownershipRevision
      ensures doubtful == old(doubtful) + SetOf(ids)
      ensures forall s <- ids :: s in store.uncertainOwnerReleases && store.uncertainOwnerReleases[s] == ownerId
    {
      for i := 0 to |ids|
        invariant doubtful == old(doubtful)
        invariant forall k :: 0 <= k < i ==>
                      ids[k] in store.uncertainOwnerReleases && store.uncertainOwnerReleases[ids[k]] == ownerId
      {
        store.SetUncertainOwnerRelease(ids[i], ownerId);
      }
      doubtful := doubtful + SetOf(ids);
    }

    /** The image shows the session as this owner's, with no socket. */
    ghost predicate RetainedAs(s: SessionId, o: OwnerId)
      reads store`sessionOwners
    {
      s in store.sessionOwners && store.sessionOwners[s] == Entry(o, None, false)
    }

    method RetainOwners(owners: Owners, ids: seq<SessionId>)
      modifies store`sessionOwners, store`ownershipRevision
      ensures forall s <- ids | s in owners :: RetainedAs(s, owners[s])
    {
      for i := 0 to |ids|
        invariant forall k | 0 <= k < i && ids[k] in owners :: RetainedAs(ids[k], owners[ids[k]])
      {
        if ids[i] in owners { store.SetSessionOwner(ids[i], Entry(owners[ids[i]], None, false)); }
      }
    }

    // ---------------------------------------------------- after a failure

    /** The release lost its standing: everything it still counts as released is given back and reported failed. */
    method RestoreStaleRelease(ghost batch: seq<SessionId>, ghost base: nat) returns (threw: bool, ghost late: bool)
      requires Sharing(batch) && !calm && Counted(base) && base <= |store.writes|
      modifies this, store
      ensures Onward(batch)
      ensures if threw then late || store.faults > old(store.faults) || TakenOver(batch) else released == []
      ensures !calm && GivenBack(base)
    {
      var restored;
      restored, late := TryRestore(batch, base);
      if !restored {
        MarkUncertain(released);
        return true, late;
      }
      FailAll(batch);
      threw := false;
    }

    method TryRestore(ghost batch: seq<SessionId>, ghost base: nat) returns (restored: bool, ghost late: bool)
      requires Sharing(batch) && base <= |store.writes|
      modifies this`protocol, this`starting, this`retiring, this`ownerCurrent, this`leases, this`fences, store
      ensures Sharing(batch) && OwnWrites(old(store.writes), batch)
      ensures forall s :: Removed(base, s) ==> old(Removed(base, s))
      ensures if restored then forall s <- released ::
                  Shown(s) else late || store.faults > old(store.faults) || TakenOver(batch)
    {
      var outOfTime, tooLate: bool := *, *;
      restored, late := false, outOfTime || tooLate;
      if outOfTime { return; }
      AwaitBroker();
      restored := Restore(batch, base);
      AwaitBroker();
      restored := restored && !tooLate;
    }

    /** The last look shows a session of the batch as another owner's. */
    ghost predicate TakenOver(batch: seq<SessionId>)
      reads store`trail
    {
      |store.trail| > 0 && OwnedElsewhere(LastLook(), batch, ownerId)
    }

    method Restore(ghost batch: seq<SessionId>, ghost base: nat) returns (restored: bool)
      requires Sharing(batch) && base <= |store.writes|
      modifies store
      ensures OwnWrites(old(store.writes), batch)
      ensures forall s :: Removed(base, s) ==> old(Removed(base, s))
      ensures if restored then forall s <- released ::
                  Shown(s) else store.faults > old(store.faults) || TakenOver(batch)
    {
      ghost var was := store.writes;
      ghost var held;
      SharedOut(released, failed, batch);
      restored, held := store.RestoreReleasedOwnership(released, ownerId);
      if store.writes != was {
        RestoredIsOwn(held.value, released, ownerId, batch);
        OneWrite(was, store.writes, base);
      }
    }

    /**
     The commit threw: what the store shows now decides, or the sessions are marked uncertain and the release throws.
     */
    method RecoverCommit(ghost batch: seq<SessionId>, ghost base: nat)
      returns (threw: bool, ghost look: Option<Owners>, ghost stands: bool)
      requires Sharing(batch) && !calm && Counted(base) && base <= |store.writes|
      modifies this, store
      ensures Onward(batch) && !calm
      ensures if threw then GivenBack(base) else Conserved(base) && Gone() && Vetted()
      ensures if old(ReleaseCurrent()) then Decided(look, stands, threw) else !threw ==> released == []
    {
      look, stands := None, true;
      if ReleaseCurrent() {
        threw, look, stands := LookAndAccept(batch, base);
      } else {
        var gaveUp, _ := RestoreStaleRelease(batch, base);
        threw := gaveUp;
      }
    }

    /**
     What a look decides while the release still stands: what the store shows as the caller's fails, the rest stays
     released, and memory follows the store; if nothing is left, or there was no look, the error stands.
     */
    twostate predicate Decided(new look: Option<Owners>, stands: bool, threw: bool)
      reads this, store
    {
      if !stands then !threw ==> released == []
      else if look.None? then threw && forall s <- old(released) :: s in doubtful
      else
        && (threw <==> forall s <- old(released) :: Creates.Holds(look.value, s, ownerId))
        && (!threw ==> forall s <- old(released) :: s in released <==> !Creates.Holds(look.value, s, ownerId))
        && (!threw ==> OwnersOf(store.sessionOwners) == look.value)
    }

    /** A look at the store decides, if the release still stands after it; without one all is uncertain. */
    method LookAndAccept(ghost batch: seq<SessionId>, ghost base: nat)
      returns (threw: bool, ghost look: Option<Owners>, ghost stands: bool)
      requires Sharing(batch) && !calm && Counted(base) && base <= |store.writes|
      modifies this, store
      ensures Onward(batch) && !calm
      ensures if threw then GivenBack(base) else Conserved(base) && Gone() && Vetted()
      ensures Decided(look, stands, threw)
    {
      var winner, _ := ReadWinner();
      VetNow();
      look, stands := if winner.Some? then Some(winner.value.owners) else None, ReleaseCurrent();
      if ReleaseCurrent() {
        threw := AcceptLook(winner, batch, base);
      } else {
        var gaveUp, _ := RestoreStaleRelease(batch, base);
        threw := gaveUp;
      }
    }

    /** The check after the look: the release stands, and so does each session's lease, stop and ownership. */
    ghost method VetNow()
      modifies this`vetted
      ensures forall s :: s in vetted <==>
                && s in released && ownerCurrent
                && (releaseProtocol.Some? ==>
                      Attested(s) && s in store.sessionOwners && store.sessionOwners[s].ownerId == ownerId)
    {
      vetted := set s | s in released && ownerCurrent && Current(s, false);
    }

    method AcceptLook(winner: Option<Loaded>, ghost batch: seq<SessionId>, ghost base: nat) returns (threw: bool)
      requires Sharing(batch) && !calm && Counted(base) && Vetted()
      requires winner.Some? ==> |store.trail| > 0 && LastLook() == winner.value.owners
      modifies this`released, this`failed, this`doubtful, store`sessionOwners, store`ownershipRevision,
               store`uncertainOwnerReleases
      ensures Sharing(batch) && forall s <- released :: s in old(released)
      ensures if threw then GivenBack(base) else Conserved(base) && Gone() && Vetted()
      ensures Decided(if winner.Some? then Some(winner.value.owners) else None, true, threw)
    {
      if winner.Some? {
        threw := AcceptWinner(winner.value.owners, batch, base);
      } else {
        MarkUncertain(released);
        threw := true;
      }
    }

    /** What the store shows as the caller's still is failed; if that is everything, the error stands. */
    method AcceptWinner(winner: Owners, ghost batch: seq<SessionId>, ghost base: nat) returns (threw: bool)
      requires Sharing(batch) && !calm && Counted(base) && Vetted() && |store.trail| > 0 && LastLook() == winner
      modifies this`released, this`failed, store`sessionOwners, store`ownershipRevision
      ensures Sharing(batch) && forall s <- released :: s in old(released)
      ensures threw <==> forall s <- old(released) :: Creates.Holds(winner, s, ownerId)
      ensures !threw ==> OwnersOf(store.sessionOwners) == winner
      ensures !threw ==> forall s <- old(released) :: s in released <==> !Creates.Holds(winner, s, ownerId)
      ensures if threw then GivenBack(base) else Conserved(base) && Gone() && Vetted()
    {
      var retained := set s | s in released && s in winner && winner[s] == ownerId;
      if forall s <- released :: s in retained { return true; }
      FailReleasedSessions(retained, batch);
      store.ApplyOwnership(winner);
      threw := false;
    }

    method ReadWinner() returns (winner: Option<Loaded>, ghost late: bool)
      requires Tracked()
      modifies this`protocol, this`starting, this`retiring, this`ownerCurrent, this`leases, this`fences, store
      ensures store.writes == old(store.writes) && Tracked()
      ensures winner.Some? ==> |store.trail| > 0 && LastLook() == winner.value.owners
      ensures winner.None? ==> late || store.faults > old(store.faults)
    {
      var outOfTime, tooLate: bool := *, *;
      late := outOfTime || tooLate;
      winner := LookAgain(outOfTime);
      if tooLate { winner := None; }
    }

    /** A fresh locked read of the store, if there is time for one. */
    method LookAgain(outOfTime: bool) returns (winner: Option<Loaded>)
      requires Tracked()
      modifies this`protocol, this`starting, this`retiring, this`ownerCurrent, this`leases, this`fences, store
      ensures store.writes == old(store.writes) && Tracked()
      ensures winner.Some? ==> |store.trail| > 0 && LastLook() == winner.value.owners
      ensures winner.None? ==> outOfTime || store.faults > old(store.faults)
    {
      winner := None;
      if !outOfTime { winner := store.LockAndRead(false); }
      AwaitBroker();
    }

    // -------------------------------------------------------- the algorithm

    /**
     Commits what is still current of the released sessions; the rest fails, and what was removed of it is given back.
     */
    method CommitReleased(ghost batch: seq<SessionId>, ghost base: nat) returns (threw: bool)
      requires Sharing(batch) && |store.writes| == base
      modifies this, store
      ensures Onward(batch)
      ensures if threw then GivenBack(base) && !calm else Conserved(base) && Gone() && Vetted()
      ensures !threw ==> forall s <- released :: s !in store.uncertainOwnerReleases
    {
      DropStaleReleases(batch);
      if released == [] { return false; }
      threw := TryCommit(batch, base);
      if threw {
        var failed, _, _ := RecoverCommit(batch, base);
        threw := failed;
      }
      if !threw { ForgetUncertain(); }
    }

    method DropStaleReleases(ghost batch: seq<SessionId>)
      requires Sharing(batch)
      modifies this`released, this`failed, this`calm
      ensures Sharing(batch) && forall s <- released :: s in old(released)
      ensures released != [] ==> ownerCurrent && AllCurrent()
    {
      calm := calm && ownerCurrent && Stale(false) == {};
      if !ownerCurrent { FailAll(batch); } else { FailReleasedSessions(Stale(false), batch); }
    }

    /** What is certainly released is not uncertain any more. */
    method ForgetUncertain()
      modifies store`uncertainOwnerReleases
      ensures store.uncertainOwnerReleases == old(store.uncertainOwnerReleases) - SetOf(released)
    {
      assert released[..|released|] == released;
      for i := 0 to |released|
        invariant store.uncertainOwnerReleases == old(store.uncertainOwnerReleases) - SetOf(released[..i])
      {
        assert released[..i + 1] == released[..i] + [released[i]];
        store.uncertainOwnerReleases := store.uncertainOwnerReleases - {released[i]};
      }
    }

    /**
     The end of every path: exactly the fences and leases this release recorded are dropped, and those are all it
     holds.
     */
    method DropHeld()
      requires Tracked()
      modifies this`leases, this`fences
      ensures leases == map[] && fences == {}
    {
      var unseen := stoppedFences;
      while unseen != {}
        invariant fences <= unseen && leases == old(leases)
        decreases |unseen|
      {
        var s :| s in unseen;
        fences, unseen := fences - {s}, unseen - {s};
      }
      unseen := releaseSessionAdmissions;
      while unseen != {}
        invariant leases.Keys <= unseen && fences == {}
        decreases |unseen|
      {
        var s :| s in unseen;
        leases, unseen := leases - {s}, unseen - {s};
      }
      assert leases.Keys == {};
    }

    /**
     `releaseOwnerAdmitted`. `order` is the store image's iteration order, `grandfathered` the creates in flight when
     the
     release was admitted. Whenever it returns, the two lists share out exactly the first sixteen eligible sessions,
     every
     released one was acknowledged as stopped if an engine was live, and is the caller's no more. A session it removed
     and
     then failed is back as the caller's or marked uncertain, and so is all it removed when it throws. A release that
     nothing stood in the way of returns with the whole batch released. Whether it returns or throws, it only ever wrote
     the caller's own entries of that batch, and holds no lease or fence afterwards.
     */
    method ReleaseOwnerAdmitted(order: seq<SessionId>, exclude: set<SessionId>, grandfathered: map<nat,
                                Option<SessionId>>)
      returns (result: Result, ghost batch: seq<SessionId>)
      requires Distinct(order) && forall s :: s in order <==> s in store.sessionOwners
      requires released == [] && failed == [] && leases == map[] && fences == {} && releaseProtocol.None? && Tracked()
      modifies this, store
      ensures forall s <- batch ::
                && s in old(store.sessionOwners) && old(store.sessionOwners)[s].ownerId == ownerId && s !in exclude
                && forall t <- grandfathered :: grandfathered[t] != Some(s)
      ensures var free := FreeIn(order, old(store.sessionOwners), ownerId, exclude, grandfathered);
              && FirstFree(batch, order, free)
              && (result.Returned? ==> SharesOut(result.releasedIds, result.failedIds, batch))
              && (result.Returned? ==> result.deferred == |free| - |batch| + |grandfathered|)
      ensures result.Returned? ==> result.releasedIds == released && Gone()
      ensures result.Returned? ==> forall s <- result.releasedIds :: s in vetted && s !in store.uncertainOwnerReleases
      ensures result.Returned? && old(protocol).Some? ==> forall s <- result.releasedIds :: s in settledStanding
      ensures result.Returned? ==>
                  forall s <- result.failedIds :: Removed(|old(store.writes)|, s) ==> s in doubtful || Shown(s)
      ensures result.Threw? ==> GivenBack(|old(store.writes)|)
      ensures calm ==> result.Returned? && result.failedIds == []
      ensures result.Returned? && old(protocol).Some? ==> forall s <- result.releasedIds :: s in acknowledged
      ensures OwnWrites(old(store.writes), batch)
      ensures leases == map[] && fences == {}
    {
      var eligible := Eligible(order, store.sessionOwners, ownerId, Excluded(exclude, grandfathered));
      SelectsFirstFree(order, store.sessionOwners, ownerId, exclude, grandfathered);
      var owned := FirstOf(eligible, OWNER_RELEASE_MAX_SESSIONS);
      batch := owned;
      if owned == [] { return Returned([], [], |grandfathered|), batch; }
      StopOrFence(owned);
      ghost var stopped := released;
      var threw := CommitReleased(batch, |store.writes|);
      SharedOut(released, failed, batch);
      DropHeld();
      result := if threw then Result.Threw else Returned(released, failed, |eligible| - |owned| + |grandfathered|);
    }
  }
}
