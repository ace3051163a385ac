/**
 The broker's durable owner store under write faults. A locked section excludes every other writer of the disk, but
 the in-memory image may change at every await, by any sequence of the changes in `OwnerImage`.
 A write is all or nothing, and one that reports failure may still have taken effect.
 */
module OwnerStores {
  import opened Options
  import opened OwnerImage
  import Creates
  import opened Fates

  datatype Disk = Missing | Corrupt | Stored(owners: Owners)

  datatype Loaded = Loaded(exists_: bool, owners: Owners)

  /** The map read under the lock and the map the mutation wants. */
  datatype Commit = Commit(before: Owners, after: Owners)

  datatype CommitOutcome =
    | Committed(commit: Commit)
    | NotCommitted(commit: Commit)
    | WriteUncertain(commit: Commit)
    | Threw

  /**
   What a commit met on its way: whether its request stood before the write, the write's fate, whether it still stood
   after it, the fate of the rollback if not, and whether the store could be read back.
   */
  datatype Recording = Recording(stood: bool, write: Fate, stands: bool, rollback: Fate, readable: bool)

  /** What the store holds after a commit that met `r`. */
  function RecordedMap(commit: Commit, r: Recording): Owners {
    if !r.stood then commit.before
    else
      var written := if r.write.Lost? then commit.before else commit.after;
      if r.stands || r.rollback.Lost? then written else commit.before
  }

  predicate RolledBack(commit: Commit, r: Recording) {
    r.rollback.Done? || (r.readable && RecordedMap(commit, r) == commit.before)
  }

  predicate Confirmed(commit: Commit, r: Recording) {
    r.stood && r.stands && (r.write.Done? || (r.readable && RecordedMap(commit, r) == commit.after))
  }

  /**
   What a withdrawal met: whether the locked store could be read, the write's fate, its reading back, the lock's
   release.
   */
  datatype Withdrawal = Withdrawal(readable: bool, fate: Fate, rereadable: bool, unlocked: bool)

  /** The last three are throws. */
  datatype ReloadOutcome = Reloaded | Skipped | ReadFailed | PreflightEnded | WouldLose

  /** A snapshot may take session `s` from its owner only if that release is uncertain or the session is preserved. */
  predicate KeptOrExcused(i: Image, snapshot: Owners, preserved: set<SessionId>, s: SessionId)
    requires s in i.entries
  {
    || (s in snapshot && snapshot[s] == i.entries[s].ownerId)
    || (s in i.uncertain && i.uncertain[s] == i.entries[s].ownerId)
    || s in preserved
  }

  function Contents(disk: Disk): Owners { if disk.Stored? then disk.owners else map[] }

  /** `owners` with the entries of `ids` as they are in `from`. */
  function Reverted(owners: Owners, from: Owners, ids: set<SessionId>): Owners {
    map s | s in owners.Keys + from.Keys && (if s in ids then s in from else s in owners) ::
      if s in ids then from[s] else owners[s]
  }

  function SetOf(ids: seq<SessionId>): set<SessionId> { set s | s in ids }

  /** A named session is neither as before nor as after the commit, or a preserved one is not as after it. */
  ghost predicate Conflicts(held: Owners, commit: Commit, ids: seq<SessionId>, preserve: seq<SessionId>) {
    || (exists s <- ids :: !SameEntry(held, commit.before, s) && !SameEntry(held, commit.after, s))
    || (exists s <- preserve :: !SameEntry(held, commit.after, s))
  }

  ghost predicate OwnedElsewhere(held: Owners, ids: seq<SessionId>, o: OwnerId) {
    exists s <- ids :: s in held && held[s] != o
  }

  function WithOwned(owners: Owners, ids: set<SessionId>, o: OwnerId): Owners {
    map s | s in owners.Keys + ids :: if s in ids then o else owners[s]
  }

  class OwnerStore {
    var disk: Disk
    var sessionOwners: map<SessionId, Entry>
    var uncertainOwnerReleases: Owners
    var ownershipRevision: nat
    var ownershipStoreEstablished: bool
    /** Every write attempted under the lock: what the disk held, and what was written. */
    ghost var writes: seq<(Owners, Owners)>
    /** What the disk held after each locked read or write. */
    ghost var trail: seq<Owners>
    /** How many of the store's own calls reported a failure: a lock not taken, a read, a write. */
    ghost var faults: nat
    /**
     Whether the request or release at work still stands: its engine, its lease and its owner request. Nothing
     restores it.
     */
    var standing: bool
    /** Sessions whose leases keep every other handler away from their owner while it stands. */
    ghost var claimed: set<SessionId>

    ghost function Memory(): Image
      reads this
    {
      Image(sessionOwners, uncertainOwnerReleases, ownershipRevision)
    }

    constructor ()
      ensures sessionOwners == map[] && ownershipRevision == 0 && !ownershipStoreEstablished && writes == []
              && trail == [] && faults == 0
    {
      disk, sessionOwners, uncertainOwnerReleases := Missing, map[], map[];
      ownershipRevision, ownershipStoreEstablished := 0, false;
      writes, trail, faults := [], [], 0;
      standing, claimed := true, {};
    }

    /** What the other handlers of this broker do during an await. */
    twostate predicate Elsewhere()
      reads this
    {
      && (exists changes :: Guarded(old(Memory()), changes) && Memory() == Run(old(Memory()), changes))
      && Since(old(Memory()), Memory())
      && writes == old(writes) && trail == old(trail) && faults == old(faults)
      && (old(ownershipStoreEstablished) ==> ownershipStoreEstablished)
      && (standing ==> old(standing)) && claimed == old(claimed)
      && (standing ==> forall s <- claimed :: s in old(sessionOwners) ==>
            s in sessionOwners && sessionOwners[s].ownerId == old(sessionOwners)[s].ownerId)
    }

    /** An await outside the lock: the disk may be anything afterwards. */
    method Await()
      modifies this
      ensures Elsewhere()
    {
      assert Memory() == Run(Memory(), []);
      assert Guarded(Memory(), []);
    }

    /** An await inside the lock. */
    method AwaitLocked()
      modifies this
      ensures Elsewhere() && disk == old(disk)
    {
      assert Memory() == Run(Memory(), []);
      assert Guarded(Memory(), []);
    }

    method ApplyOwnership(owners: Owners)
      modifies this`sessionOwners, this`ownershipRevision
      ensures Memory() == Step(old(Memory()), OwnerImage.ApplyOwnership(owners))
      ensures OwnersOf(sessionOwners) == owners
    {
      sessionOwners := Applied(sessionOwners, owners);
      ownershipRevision := ownershipRevision + 1;
    }

    method SetSessionOwner(s: SessionId, entry: Entry)
      modifies this`sessionOwners, this`ownershipRevision
      ensures Memory() == Step(old(Memory()), OwnerImage.SetSessionOwner(s, entry))
    {
      sessionOwners := sessionOwners[s := entry];
      ownershipRevision := ownershipRevision + 1;
    }

    method SetUncertainOwnerRelease(s: SessionId, o: OwnerId)
      modifies this`uncertainOwnerReleases, this`ownershipRevision
      ensures Memory() == Step(old(Memory()), OwnerImage.SetUncertainRelease(s, o))
    {
      uncertainOwnerReleases := uncertainOwnerReleases[s := o];
      ownershipRevision := ownershipRevision + 1;
    }

    /** A read under the lock: it fails on a corrupt store, on a missing one unless that is allowed, or on any fault. */
    method ReadUnlocked(allowMissing: bool) returns (loaded: Option<Loaded>)
      modifies this
      ensures disk == old(disk) && writes == old(writes) && Since(old(Memory()), Memory())
      ensures loaded.Some? ==>
                && loaded.value.owners == Contents(disk) && !disk.Corrupt?
                && loaded.value.exists_ == disk.Stored? && (disk.Missing? ==> allowMissing)
                && trail == old(trail) + [Contents(disk)]
      ensures loaded.None? ==> trail == old(trail)
      ensures faults == old(faults) + if loaded.None? then 1 else 0
      ensures (standing ==> old(standing)) && claimed == old(claimed)
    {
      AwaitLocked();
      var fault: bool := *;
      if fault || disk.Corrupt? || (disk.Missing? && !allowMissing) {
        faults := faults + 1;
        return None;
      }
      trail := trail + [Contents(disk)];
      loaded := Some(Loaded(disk.Stored?, Contents(disk)));
    }

    /** Waits for the store's lock, which may never come, and reads. */
    method LockAndRead(allowMissing: bool) returns (loaded: Option<Loaded>)
      modifies this
      ensures writes == old(writes) && Since(old(Memory()), Memory())
      ensures loaded.Some? ==>
                && loaded.value.owners == Contents(disk) && !disk.Corrupt?
                && loaded.value.exists_ == disk.Stored? && (disk.Missing? ==> allowMissing)
                && trail == old(trail) + [Contents(disk)]
      ensures loaded.None? ==> trail == old(trail)
      ensures faults == old(faults) + if loaded.None? then 1 else 0
      ensures (standing ==> old(standing)) && claimed == old(claimed)
    {
      Await();
      var timedOut: bool := *;
      if timedOut {
        faults := faults + 1;
        return None;
      }
      loaded := ReadUnlocked(allowMissing);
    }

    /** A write under the lock. The revision moves whether or not it reports success. */
    method WriteOwnerStoreRevision(owners: Owners) returns (ok: bool, ghost fate: Fate)
      modifies this
      ensures ok <==> fate.Done?
      ensures disk == if fate.Lost? then old(disk) else Stored(owners)
      ensures writes == old(writes) + [(old(Contents(disk)), owners)]
      ensures trail == old(trail) + [Contents(disk)]
      ensures ownershipRevision > old(ownershipRevision)
      ensures faults == old(faults) + if ok then 0 else 1
      ensures (standing ==> old(standing)) && claimed == old(claimed)
    {
      AwaitLocked();
      var taken: bool;
      ok, taken := *, *;
      writes := writes + [(Contents(disk), owners)];
      if ok || taken { disk := Stored(owners); }
      fate := if ok then Done else if taken then Landed else Lost;
      if !ok { faults := faults + 1; }
      trail := trail + [Contents(disk)];
      AwaitLocked();
      ownershipRevision := ownershipRevision + 1;
    }

    /**
     `commitOwnerMutation` from the moment its map is read and updated: the request must stand before the write and
     after it. An uncertain write leaves the lock held for the caller's recovery.
     */
    method CommitOwnerMutation(commit: Commit) returns (outcome: CommitOutcome, ghost r: Recording)
      requires Contents(disk) == commit.before
      modifies this
      ensures outcome.Committed? ==>
                  outcome.commit == commit && disk == Stored(commit.after) && OwnersOf(sessionOwners) == commit.after
      ensures outcome.NotCommitted? ==> outcome.commit == commit && Contents(disk) == commit.before
      ensures outcome.WriteUncertain? ==> outcome.commit == commit
      ensures Contents(disk) == RecordedMap(commit, r) && (disk == old(disk) || disk.Stored?)
      ensures r.stood == old(standing) && (r.stood ==> r.stands == standing) && (standing ==> old(standing))
              && claimed == old(claimed)
      ensures outcome.NotCommitted? <==> !r.stood || (!r.stands && RolledBack(commit, r))
      ensures outcome.Threw? <==> r.stood && !r.stands && !RolledBack(commit, r)
      ensures outcome.WriteUncertain? <==> r.stood && r.stands && !r.write.Done?
      ensures !r.stood ==> writes == old(writes) && disk == old(disk) && trail == old(trail)
      ensures outcome.NotCommitted? && r.stood ==>
                |trail| > 0 && trail[|trail| - 1] == commit.before && OwnersOf(sessionOwners) == commit.before
      ensures WritesWithin(old(writes), commit)
      ensures outcome.Committed? ==> |trail| > 0 && trail[|trail| - 1] == commit.after
      ensures faults >= old(faults) && (outcome.Threw? || outcome.WriteUncertain? ==> faults > old(faults))
    {
      r := Recording(standing, Done, standing, Done, true);
      if !standing { return NotCommitted(commit), r; }
      var wrote;
      ghost var write;
      wrote, write := WriteOwnerStoreRevision(commit.after);
      r := r.(write := write, stands := standing);
      if !standing { outcome, r := RollBack(commit, r); return; }
      if !wrote { return WriteUncertain(commit), r; }
      ApplyOwnership(commit.after);
      outcome := Committed(commit);
    }

    /** A commit whose request lost its standing during the write restores the map it read. */
    method RollBack(commit: Commit, ghost met: Recording) returns (outcome: CommitOutcome, ghost r: Recording)
      requires met.stood && !met.stands && !standing
               && Contents(disk) == if met.write.Lost? then commit.before else commit.after
      modifies this
      ensures r == met.(rollback := r.rollback, readable := r.readable) && Contents(disk) == RecordedMap(commit, r)
      ensures outcome == if RolledBack(commit, r) then NotCommitted(commit) else Threw
      ensures !standing && claimed == old(claimed) && (disk == old(disk) || disk.Stored?)
      ensures faults >= old(faults) && (outcome.Threw? ==> faults > old(faults))
      ensures writes == old(writes) + [(old(Contents(disk)), commit.before)]
      ensures |trail| > 0 && (outcome.NotCommitted? ==> trail[|trail| - 1] == commit.before)
      ensures outcome.NotCommitted? ==> OwnersOf(sessionOwners) == commit.before
    {
      var restored;
      ghost var rollback;
      restored, rollback := WriteOwnerStoreRevision(commit.before);
      r := met.(rollback := rollback, readable := true);
      if !restored {
        var winner := ReadUnlocked(false);
        r := r.(readable := winner.Some?);
        if winner.None? || winner.value.owners != commit.before { return Threw, r; }
      }
      ApplyOwnership(commit.before);
      outcome := NotCommitted(commit);
    }

    /** Every write since `was` moved the disk between the two maps of one commit. */
    ghost predicate WritesWithin(was: seq<(Owners, Owners)>, commit: Commit)
      reads this
    {
      && was <= writes
      && forall i :: |was| <= i < |writes| ==>
           (writes[i].0 == commit.before || writes[i].0 == commit.after)
               && (writes[i].1 == commit.before || writes[i].1 == commit.after)
    }

    /** A create may record a session that is new, or its caller's own already unless it was anonymous. */
    static predicate Recordable(held: Owners, s: SessionId, o: OwnerId, requireNew: bool) {
      s in held ==> !requireNew && held[s] == o
    }

    /** Records a created session's owner. `held` is what the disk held when the lock was taken. */
    method PersistOwnership(s: SessionId, o: OwnerId, socket: Socket, requireNew: bool)
      returns (outcome: CommitOutcome, conflict: bool, ghost held: Option<Owners>, ghost r: Recording)
      modifies this
      ensures outcome.Committed? ==>
                && held == Some(outcome.commit.before) && disk == Stored(outcome.commit.after)
                   && OwnersOf(sessionOwners) == outcome.commit.after
      ensures outcome.NotCommitted? ==> held == Some(outcome.commit.before) && Contents(disk) == outcome.commit.before
      ensures outcome.Committed? || outcome.NotCommitted? ==>
                outcome.commit == Commit(held.value, held.value[s := o]) && Recordable(held.value, s, o, requireNew)
      ensures !outcome.WriteUncertain?
      ensures held.None? ==> outcome.Threw? && !conflict && writes == old(writes)
      ensures held.Some? ==> conflict == !Recordable(held.value, s, o, requireNew)
      ensures conflict ==> outcome.Threw? && Contents(disk) == held.value && writes == old(writes)
      ensures outcome.NotCommitted? && r.stood ==> OwnersOf(sessionOwners) == outcome.commit.before
      ensures held.Some? && !conflict && outcome.Threw? && r.stood && r.stands ==>
                if r.readable && s in Contents(disk) then OwnersOf(sessionOwners) == Contents(disk)
                else s in sessionOwners && sessionOwners[s] == Entry(o, Some(socket), true)
      ensures held.Some? && !conflict ==>
                var commit := Commit(held.value, held.value[s := o]);
                && Contents(disk) == RecordedMap(commit, r) && (r.stood ==> old(standing))
                   && (standing ==> r.stood && r.stands)
                && (outcome.Committed? <==> Confirmed(commit, r))
                && (outcome.NotCommitted? <==> !r.stood || (!r.stands && RolledBack(commit, r)))
                && (!r.stood ==> writes == old(writes))
      ensures !old(standing) ==> !outcome.Committed? && writes == old(writes)
      ensures (standing ==> old(standing)) && claimed == old(claimed)
      ensures faults >= old(faults) && (outcome.Threw? ==> faults > old(faults) || conflict)
    {
      held, conflict, r := None, false, Recording(false, Done, false, Done, true);
      var loaded := LockAndRead(!ownershipStoreEstablished);
      if loaded.None? { return Threw, false, None, r; }
      held := Some(Contents(disk));
      var before := loaded.value.owners;
      conflict := !Recordable(before, s, o, requireNew);
      if conflict { return Threw, conflict, held, r; }
      outcome, r := CommitOwnerMutation(Commit(before, before[s := o]));
      if outcome.WriteUncertain? {
        ghost var readable;
        outcome, readable := RecoverPersist(outcome.commit, s, o, socket);
        r := r.(readable := readable);
      }
      if outcome.Committed? { ownershipStoreEstablished := true; }
    }

    /**
     `persistOwnership`'s recovery: the write counts as done only if the store reads back as the whole updated map.
     */
    method RecoverPersist(commit: Commit, s: SessionId, o: OwnerId, socket: Socket)
        returns (outcome: CommitOutcome, ghost readable: bool)
      requires standing
      modifies this
      ensures disk == old(disk) && writes == old(writes)
      ensures outcome == if readable && Contents(disk) == commit.after then Committed(commit) else Threw
      ensures outcome.Committed? ==> disk.Stored? && OwnersOf(sessionOwners) == commit.after
      ensures outcome.Threw? ==>
                if readable && s in Contents(disk) then OwnersOf(sessionOwners) == Contents(disk)
                else s in sessionOwners && sessionOwners[s] == Entry(o, Some(socket), true)
      ensures claimed == old(claimed) && faults >= old(faults)
    {
      var winner := ReadUnlocked(false);
      readable := winner.Some?;
      if winner.None? {
        SetSessionOwner(s, Entry(o, Some(socket), true));
        return Threw, readable;
      }
      ApplyOwnership(winner.value.owners);
      ownershipStoreEstablished := true;
      if winner.value.owners == commit.after { return Committed(commit), readable; }
      if s !in winner.value.owners { SetSessionOwner(s, Entry(o, Some(socket), true)); }
      outcome := Threw;
    }

    /**
     Undoes the named part of a commit under a fresh lock: the named sessions return to their entries before it, the
     preserved ones must still be as after it, and whatever others did to the rest meanwhile stays.
     */
    method CompensateOwnerCommit(commit: Commit, ids: seq<SessionId>, preserve: seq<SessionId>)
      returns (ok: bool, ghost held: Option<Owners>, ghost w: Withdrawal)
      modifies this
      ensures ok ==> held.Some? && Contents(disk) == Reverted(held.value, commit.before, SetOf(ids))
                     && OwnersOf(sessionOwners) == Contents(disk)
      ensures ok ==> forall s <- preserve :: s !in ids ==> SameEntry(Contents(disk), commit.after, s)
      ensures ok ==> forall s :: SameEntry(Contents(disk), if s in ids then commit.before else held.value, s)
      ensures held.Some? && Conflicts(held.value, commit, ids, preserve) ==>
                  !ok && Contents(disk) == held.value && writes == old(writes)
      ensures held.Some? ==>
                || Contents(disk) == held.value
                || Contents(disk) == Reverted(held.value, commit.before, SetOf(ids))
      ensures held.None? ==> !ok && writes == old(writes)
      ensures writes == old(writes)
              || (held.Some? && writes == old(writes) + [(held.value, Reverted(held.value, commit.before, SetOf(ids)))])
      ensures ok ==> |trail| > 0 && trail[|trail| - 1] == Contents(disk)
      ensures held.Some? == w.readable
      ensures held.Some? ==> Contents(disk) == if Conflicts(held.value, commit, ids, preserve)
              || w.fate.Lost? then held.value
                                               else Reverted(held.value, commit.before, SetOf(ids))
      ensures held.Some? && preserve == [] ==>
                (ok <==> !Conflicts(held.value, commit, ids, []) && w.unlocked
                         && (Reverted(held.value, commit.before, SetOf(ids)) == held.value
                             || w.fate.Done? || (w.rereadable && !w.fate.Lost?)))
      ensures (standing ==> old(standing)) && claimed == old(claimed)
      ensures faults >= old(faults)
      ensures !ok && faults == old(faults) ==> held.Some? && Conflicts(held.value, commit, ids, preserve)
    {
      held, w := None, Withdrawal(false, Done, true, true);
      var loaded := LockAndRead(false);
      if loaded.None? { return false, None, w; }
      var before := loaded.value.owners;
      held, w := Some(before), Withdrawal(true, Done, true, true);
      if exists s <- preserve :: !SameEntry(before, commit.after, s) { return false, held, w; }
      var sessions, reverted := RevertAll(before, commit, ids);
      if !reverted { return false, held, w; }
      ok := true;
      if sessions != before { ok, w := WriteReversion(commit, ids, preserve, before); }
      if ok { ok, w := FinishReversion(sessions, w); }
    }

    method FinishReversion(sessions: Owners, ghost met: Withdrawal) returns (ok: bool, ghost w: Withdrawal)
      modifies this`sessionOwners, this`ownershipRevision, this`faults
      ensures w == met.(unlocked := ok) && OwnersOf(sessionOwners) == sessions
      ensures faults == old(faults) + if ok then 0 else 1
    {
      ApplyOwnership(sessions);
      ok := ReleaseLock();
      w := met.(unlocked := ok);
    }

    /** The end of a locked section: a lock that cannot be released fails a call whose effect stands. */
    method ReleaseLock() returns (unlocked: bool)
      modifies this`faults
      ensures faults == old(faults) + if unlocked then 0 else 1
    {
      unlocked := *;
      if !unlocked { faults := faults + 1; }
    }

    /** Writes the reversion; after an ambiguous write it counts if the store reads back as reverted and preserved. */
    method WriteReversion(commit: Commit, ids: seq<SessionId>, preserve: seq<SessionId>, held: Owners)
        returns (ok: bool, ghost w: Withdrawal)
      requires Contents(disk) == held && !Conflicts(held, commit, ids, preserve)
               && Reverted(held, commit.before, SetOf(ids)) != held
      modifies this
      ensures w.readable && Contents(disk) == if w.fate.Lost? then held else Reverted(held, commit.before, SetOf(ids))
      ensures ok ==> !w.fate.Lost? && |trail| > 0 && trail[|trail| - 1] == Contents(disk)
      ensures ok && !w.fate.Done? ==> forall s <- preserve :: SameEntry(Contents(disk), commit.after, s)
      ensures w.unlocked && (preserve == [] ==> (ok <==> w.fate.Done? || (w.rereadable && !w.fate.Lost?)))
      ensures writes == old(writes) + [(held, Reverted(held, commit.before, SetOf(ids)))]
      ensures (standing ==> old(standing)) && claimed == old(claimed)
      ensures faults >= old(faults) && (!ok ==> faults > old(faults))
    {
      var sessions := Reverted(held, commit.before, SetOf(ids));
      ghost var fate;
      ok, fate := WriteOwnerStoreRevision(sessions);
      w := Withdrawal(true, fate, true, true);
      if ok { return; }
      var winner := ReadUnlocked(false);
      w := w.(rereadable := winner.Some?);
      ReversionShows(held, commit.before, ids);
      ok := winner.Some? && (forall s <- ids :: SameEntry(winner.value.owners, commit.before, s))
                         && (forall s <- preserve :: SameEntry(winner.value.owners, commit.after, s));
    }

    static method RevertAll(held: Owners, commit: Commit, ids: seq<SessionId>)
        returns (sessions: Owners, reverted: bool)
      ensures reverted == forall s <- ids :: SameEntry(held, commit.before, s) || SameEntry(held, commit.after, s)
      ensures reverted ==> sessions == Reverted(held, commit.before, SetOf(ids))
    {
      sessions, reverted := held, true;
      assert SetOf(ids[..0]) == {} && held == Reverted(held, commit.before, {});
      for i := 0 to |ids|
        invariant forall k | 0 <= k < i ::
                    SameEntry(held, commit.before, ids[k]) || SameEntry(held, commit.after, ids[k])
        invariant sessions == Reverted(held, commit.before, SetOf(ids[..i]))
      {
        var s := ids[i];
        assert SetOf(ids[..i + 1]) == SetOf(ids[..i]) + {s};
        RevertedEntry(held, commit.before, SetOf(ids[..i]), s);
        if SameEntry(sessions, commit.before, s) { continue; }
        if !SameEntry(sessions, commit.after, s) {
          assert s in ids && !SameEntry(held, commit.before, s) && !SameEntry(held, commit.after, s);
          return sessions, false;
        }
        sessions := if s in commit.before then sessions[s := commit.before[s]] else sessions - {s};
      }
      assert ids[..|ids|] == ids;
    }

    static method OwnAll(held: Owners, ids: seq<SessionId>, o: OwnerId) returns (sessions: Owners, owned: bool)
      ensures owned == forall s <- ids :: s in held ==> held[s] == o
      ensures owned ==> sessions == WithOwned(held, SetOf(ids), o)
    {
      sessions, owned := held, true;
      OwnedNone(held, ids, o);
      for i := 0 to |ids|
        invariant owned ==> sessions == WithOwned(held, SetOf(ids[..i]), o)
        invariant owned == forall k | 0 <= k < i :: ids[k] in held ==> held[ids[k]] == o
      {
        if owned {
          sessions, owned := OwnOne(held, SetOf(ids[..i]), sessions, ids[i], o);
          SetOfNext(ids, i);
        }
      }
      assert ids[..|ids|] == ids;
    }

    static method OwnOne(ghost held: Owners, ghost done: set<SessionId>, before: Owners, s: SessionId, o: OwnerId)
      returns (sessions: Owners, owned: bool)
      requires before == WithOwned(held, done, o) && (s in done && s in held ==> held[s] == o)
      ensures owned == (s in held ==> held[s] == o)
      ensures owned ==> sessions == WithOwned(held, done + {s}, o)
    {
      OwnedEntry(held, done, o, s);
      owned := s in before ==> before[s] == o;
      sessions := if owned then before[s := o] else before;
    }

    /**
     Gives released sessions back to their owner, or throws without writing if another owner has one of them by now.
     */
    method RestoreReleasedOwnership(ids: seq<SessionId>, o: OwnerId) returns (ok: bool, ghost held: Option<Owners>)
      modifies this
      ensures ok ==> held.Some? && forall s ::
                if s in ids then s in Contents(disk) && Contents(disk)[s] == o
                else SameEntry(Contents(disk), held.value, s)
      ensures ok ==>
                && held.Some? && Contents(disk) == WithOwned(held.value, SetOf(ids), o)
                && OwnersOf(sessionOwners) == Contents(disk)
      ensures held.Some? && OwnedElsewhere(held.value, ids, o) ==>
                  !ok && Contents(disk) == held.value && writes == old(writes)
      ensures held.Some? ==> Contents(disk) == held.value || Contents(disk) == WithOwned(held.value, SetOf(ids), o)
      ensures held.None? ==> !ok && writes == old(writes)
      ensures writes == old(writes)
              || (held.Some? && !OwnedElsewhere(held.value, ids, o)
                  && writes == old(writes) + [(held.value, WithOwned(held.value, SetOf(ids), o))])
      ensures faults >= old(faults)
              && (!ok && faults == old(faults) ==> held.Some? && OwnedElsewhere(held.value, ids, o))
      ensures ok ==> |trail| > 0 && trail[|trail| - 1] == Contents(disk)
      ensures held.Some? && !ok && faults == old(faults) ==> |trail| > 0 && trail[|trail| - 1] == held.value
    {
      held := None;
      var loaded := LockAndRead(false);
      if loaded.None? { return false, None; }
      held := Some(loaded.value.owners);
      var sessions, owned := OwnAll(loaded.value.owners, ids, o);
      if !owned { return false, held; }
      if sessions != loaded.value.owners {
        var wrote, _ := WriteOwnerStoreRevision(sessions);
        if !wrote { return false, held; }
      }
      ApplyOwnership(sessions);
      ok := ReleaseLock();
    }

    /**
     The companion's own reconciliation from validated job records: the disk alone, and no session of another owner.
     */
    method ReconcileBrokerOwnership(ids: seq<SessionId>, o: OwnerId) returns (ok: bool, ghost held: Option<Owners>)
      modifies this
      ensures ok ==> held.Some? && forall s ::
                if s in ids then s in Contents(disk) && Contents(disk)[s] == o
                else SameEntry(Contents(disk), held.value, s)
      ensures ok ==> held.Some? && disk == Stored(WithOwned(held.value, SetOf(ids), o))
      ensures held.Some? && OwnedElsewhere(held.value, ids, o) ==>
                  !ok && Contents(disk) == held.value && writes == old(writes)
      ensures held.Some? ==> Contents(disk) == held.value || Contents(disk) == WithOwned(held.value, SetOf(ids), o)
      ensures faults >= old(faults)
              && (!ok && faults == old(faults) ==> held.Some? && OwnedElsewhere(held.value, ids, o))
    {
      held := None;
      var loaded := LockAndRead(true);
      if loaded.None? { return false, None; }
      held := Some(loaded.value.owners);
      var sessions, owned := OwnAll(loaded.value.owners, ids, o);
      if !owned { return false, held; }
      var wrote, _ := WriteOwnerStoreRevision(sessions);
      if !wrote { return false, held; }
      ok := ReleaseLock();
    }

    /**
     A created session from its upstream answer on. A request that no longer stands then, writes nothing. Otherwise the
     session is recorded, and kept only if the request still stands afterwards; if not, the record is withdrawn. What
     happens is a run of the machine in `Creates`, so the store ends as some run of that machine ends.
     */
    method CommitCreated(s: SessionId, o: OwnerId, socket: Socket, anonymous: bool)
      returns (outcome: Creates.End, ghost before: Option<Owners>, ghost steps: seq<Creates.Step>)
      modifies this
      ensures Creates.Run(Creates.Create(s, o, anonymous, old(standing), old(Contents(disk)), Creates.Answered), steps)
              == Creates.Create(s, o, anonymous, standing, Contents(disk), Creates.Ended(outcome))
      ensures !old(standing) ==> !outcome.Owned? && writes == old(writes)
      ensures outcome.Owned? ==> standing && s in sessionOwners && sessionOwners[s] == Entry(o, Some(socket), false)
      ensures outcome.Owned? ==> before.Some? && Recordable(before.value, s, o, anonymous)
      ensures outcome.Refused? && before.Some? ==> SameEntry(Contents(disk), before.value, s)
      ensures faults == old(faults) && standing ==>
                before.Some? && (outcome.Owned? <==> Recordable(before.value, s, o, anonymous))
      ensures faults == old(faults) && !outcome.Owned? && before.Some? ==>
                SameEntry(Contents(disk), before.value, s) || !Creates.Holds(Contents(disk), s, o)
    {
      ghost var start := Creates.Create(s, o, anonymous, standing, Contents(disk), Creates.Answered);
      before, steps := None, [Creates.Check];
      Creates.RunThen(start, [], Creates.Check);
      if !standing { return Creates.Refused, None, steps; }
      claimed := {s};
      var committed, conflict;
      ghost var r;
      committed, conflict, before, r := PersistOwnership(s, o, socket, anonymous);
      if !committed.Committed? {
        steps := UnrecordedRun(start, before, r, standing, Contents(disk));
        outcome := if conflict || committed.NotCommitted? then Creates.Refused else Creates.Failed;
        return;
      }
      steps := RecordedRun(start, before.value, r);
      ghost var more;
      outcome, more := ConfirmCreated(committed.commit, s, o, socket,
                                      start.(disk := committed.commit.after, phase := Creates.Recorded(before.value)));
      Creates.RunConcat(start, steps, more);
      steps := steps + more;
    }

    /** The recorded create after its lock is released: attach the session, or withdraw the record. */
    method ConfirmCreated(commit: Commit, s: SessionId, o: OwnerId, socket: Socket, ghost c: Creates.Create)
      returns (outcome: Creates.End, ghost more: seq<Creates.Step>)
      requires commit.after == commit.before[s := o] && (s in commit.before ==> commit.before[s] == o)
      requires c.session == s && c.owner == o && c.standing && c.phase == Creates.Recorded(commit.before)
      requires OwnersOf(sessionOwners) == commit.after && claimed == {s}
      modifies this
      ensures Creates.Run(c, more) == c.(standing := standing, disk := Contents(disk), phase := Creates.Ended(outcome))
      ensures outcome.Owned? ==> standing && s in sessionOwners && sessionOwners[s] == Entry(o, Some(socket), false)
      ensures outcome.Refused? ==> SameEntry(Contents(disk), commit.before, s)
      ensures faults >= old(faults) && (faults == old(faults) && standing ==> outcome.Owned?)
      ensures faults == old(faults) && !outcome.Owned? ==>
                SameEntry(Contents(disk), commit.before, s) || !Creates.Holds(Contents(disk), s, o)
    {
      assert s in OwnersOf(sessionOwners) && OwnersOf(sessionOwners)[s] == o;
      Await();
      var unlocked := ReleaseLock();
      if !unlocked {
        more := ReleaseFailsRun(c, Contents(disk), standing);
        return Creates.Failed, more;
      }
      if standing {
        assert RepeatsOwner(Memory(), AttachCreated(s, o, socket));
        sessionOwners := sessionOwners[s := Entry(o, Some(socket), false)];
        more := OwnedRun(c, Contents(disk));
        return Creates.Owned, more;
      }
      var withdrawn;
      ghost var held, w;
      withdrawn, held, w := CompensateOwnerCommit(commit, [s], []);
      more := WithdrawnRun(c, commit, held, w, Contents(disk), withdrawn);
      if held.Some? { WithdrawnEntry(commit, held, s, o); }
      outcome := if withdrawn then Creates.Refused else Creates.Failed;
    }

    /**
     An optimistic reload: the snapshot read under the lock is applied only if no ownership changed since the read
     began, and only if it takes no session from its owner except an uncertain or a preserved one.
     */
    method ReloadOwnership()
        returns (outcome: ReloadOutcome, preserved: set<SessionId>, ghost snapshot: Option<Owners>, ghost seen: Image)
      modifies this
      ensures outcome.Reloaded? || outcome.WouldLose? ==> seen.revision == old(ownershipRevision) && snapshot.Some?
      ensures outcome.Reloaded? ==> Memory() == Step(seen, ReloadApplied(snapshot.value, preserved))
      ensures outcome.Reloaded? ==>
                OwnersOf(seen.entries) == old(OwnersOf(sessionOwners)) && seen.uncertain == old(uncertainOwnerReleases)
      ensures outcome.Reloaded? ==> forall s <- seen.entries :: KeptOrExcused(seen, snapshot.value, preserved, s)
      ensures outcome.WouldLose? ==> exists s <- seen.entries ::
                && !(s in snapshot.value && snapshot.value[s] == seen.entries[s].ownerId) && s !in preserved
                && !(s in seen.uncertain && seen.uncertain[s] == seen.entries[s].ownerId)
      ensures outcome.Reloaded? ==> uncertainOwnerReleases == map[] && ownershipStoreEstablished
      ensures outcome.Skipped? ==> seen.revision != old(ownershipRevision) || snapshot.None?
      ensures outcome.ReadFailed? ==> faults > old(faults)
      ensures !outcome.Reloaded? ==> Memory() == seen && Since(old(Memory()), seen)
    {
      snapshot, preserved, seen := None, {}, Memory();
      var revision := ownershipRevision;
      var loaded := LockAndRead(!ownershipStoreEstablished);
      seen := Memory();
      if loaded.None? { return ReadFailed, {}, snapshot, seen; }
      snapshot := if loaded.value.exists_ then Some(loaded.value.owners) else None;
      ghost var locked := Memory();
      Await();
      SinceTransitive(old(Memory()), locked, Memory());
      seen := Memory();
      var preflightCurrent: bool := *;
      if !preflightCurrent { return PreflightEnded, {}, snapshot, seen; }
      if ownershipRevision != revision || !loaded.value.exists_ { return Skipped, {}, snapshot, seen; }
      preserved := *;
      var applied := ApplySnapshot(loaded.value.owners, preserved);
      outcome := if applied then Reloaded else WouldLose;
    }

    /** The synchronous end of a reload: the whole snapshot, or nothing. */
    method ApplySnapshot(owners: Owners, preserved: set<SessionId>) returns (applied: bool)
      modifies this
      ensures applied ==> Memory() == Step(old(Memory()), ReloadApplied(owners, preserved))
      ensures applied ==> forall s <- old(sessionOwners) :: KeptOrExcused(old(Memory()), owners, preserved, s)
      ensures applied ==> ownershipStoreEstablished
      ensures !applied ==>
                && Memory() == old(Memory())
                && exists s <- sessionOwners ::
                     && !(s in owners && owners[s] == sessionOwners[s].ownerId) && s !in preserved
                     && !(s in uncertainOwnerReleases && uncertainOwnerReleases[s] == sessionOwners[s].ownerId)
      ensures disk == old(disk) && writes == old(writes) && trail == old(trail)
    {
      var lost := LosesOwner(owners, preserved);
      if lost { return false; }
      var kept := map s | s in preserved && s in sessionOwners :: sessionOwners[s];
      ApplyOwnership(owners);
      sessionOwners := sessionOwners + kept;
      uncertainOwnerReleases := map[];
      ownershipStoreEstablished := true;
      applied := true;
    }

    method LosesOwner(owners: Owners, preserved: set<SessionId>) returns (lost: bool)
      ensures lost <==> exists s <- sessionOwners ::
                && !(s in owners && owners[s] == sessionOwners[s].ownerId) && s !in preserved
                && !(s in uncertainOwnerReleases && uncertainOwnerReleases[s] == sessionOwners[s].ownerId)
    {
      var pending := sessionOwners.Keys;
      while pending != {}
        invariant pending <= sessionOwners.Keys
        invariant forall s | s in sessionOwners && s !in pending :: KeptOrExcused(Memory(), owners, preserved, s)
        decreases |pending|
      {
        var s :| s in pending;
        var current := sessionOwners[s];
        if (s !in owners || owners[s] != current.ownerId)
           && !(s in uncertainOwnerReleases && uncertainOwnerReleases[s] == current.ownerId) && s !in preserved {
          return true;
        }
        pending := pending - {s};
      }
      lost := false;
    }
  }

  // ------------------------------------------- the create's run, step by step

  /** The run of a create that was not recorded, up to its end. */
  lemma UnrecordedRun(start: Creates.Create, held: Option<Owners>, r: Recording, standing: bool, disk: Owners)
      returns (steps: seq<Creates.Step>)
    requires start.phase.Answered? && start.standing
    requires held.Some? && OwnerStore.Recordable(held.value, start.session, start.owner, start.requireNew) ==>
               var commit := Commit(held.value, held.value[start.session := start.owner]);
               disk == RecordedMap(commit, r) && !Confirmed(commit, r) && (standing ==> r.stood && r.stands)
    requires held.Some? && !OwnerStore.Recordable(held.value, start.session, start.owner, start.requireNew) ==>
                 disk == held.value
    ensures Creates.Run(start, steps) == start.(standing := standing, disk := disk,
              phase := Creates.Ended(
                if held.None? then Creates.Failed
                else if !OwnerStore.Recordable(held.value, start.session, start.owner, start.requireNew)
                    then Creates.Refused
                else if !r.stood || (!r.stands
                                     && RolledBack(Commit(held.value, held.value[start.session := start.owner]), r))
                                        then Creates.Refused
                else Creates.Failed))
  {
    if held.None? {
      steps := [Creates.Check, Creates.Others(disk), Creates.Lock(false)];
      Creates.ThreeSteps(start, Creates.Check, Creates.Others(disk), Creates.Lock(false));
    } else {
      steps := [Creates.Check, Creates.Others(held.value), Creates.Lock(true)];
      Creates.ThreeSteps(start, Creates.Check, Creates.Others(held.value), Creates.Lock(true));
      if OwnerStore.Recordable(held.value, start.session, start.owner, start.requireNew) {
        steps := WriteRun(start, held.value, r, steps);
      }
    }
    steps := CancelRun(start, steps, standing);
  }

  /** The run of a create that was recorded, up to the release of its lock. */
  lemma RecordedRun(start: Creates.Create, held: Owners, r: Recording) returns (steps: seq<Creates.Step>)
    requires start.phase.Answered? && start.standing
             && OwnerStore.Recordable(held, start.session, start.owner, start.requireNew)
    requires Confirmed(Commit(held, held[start.session := start.owner]), r)
    ensures Creates.Run(start, steps)
            == start.(disk := RecordedMap(Commit(held, held[start.session := start.owner]), r),
                      phase := Creates.Recorded(held))
  {
    steps := [Creates.Check, Creates.Others(held), Creates.Lock(true)];
    Creates.ThreeSteps(start, Creates.Check, Creates.Others(held), Creates.Lock(true));
    steps := WriteRun(start, held, r, steps);
  }

  /** The locked part: the write, and its conclusion if the request stood before it. */
  lemma WriteRun(start: Creates.Create, held: Owners, r: Recording, before: seq<Creates.Step>)
      returns (steps: seq<Creates.Step>)
    requires start.standing && Creates.Run(start, before) == start.(disk := held, phase := Creates.Locked(held))
    ensures var commit := Commit(held, held[start.session := start.owner]);
            Creates.Run(start, steps) == start.(standing := r.stood && r.stands, disk := RecordedMap(commit, r),
              phase := if Confirmed(commit, r) then Creates.Recorded(held)
                       else Creates.Ended(if !r.stood
                                          || (!r.stands && RolledBack(commit, r)) then Creates.Refused
                                             else Creates.Failed))
  {
    steps := before;
    if !r.stood {
      Creates.RunThen(start, steps, Creates.Cancel);
      steps := steps + [Creates.Cancel];
    }
    Creates.RunThen(start, steps, Creates.Write(r.write));
    steps := steps + [Creates.Write(r.write)];
    if r.stood {
      if !r.stands {
        Creates.RunThen(start, steps, Creates.Cancel);
        steps := steps + [Creates.Cancel];
      }
      Creates.RunThen(start, steps, Creates.Conclude(r.rollback, r.readable));
      steps := steps + [Creates.Conclude(r.rollback, r.readable)];
    }
  }

  lemma CancelRun(start: Creates.Create, before: seq<Creates.Step>, standing: bool) returns (steps: seq<Creates.Step>)
    requires standing ==> Creates.Run(start, before).standing
    ensures Creates.Run(start, steps) == Creates.Run(start, before).(standing := standing)
  {
    steps := before;
    if !standing {
      Creates.RunThen(start, steps, Creates.Cancel);
      steps := steps + [Creates.Cancel];
    }
  }

  lemma ReleaseFailsRun(c: Creates.Create, disk: Owners, standing: bool) returns (steps: seq<Creates.Step>)
    requires c.phase.Recorded? && c.standing
    ensures Creates.Run(c, steps) == c.(standing := standing, disk := disk, phase := Creates.Ended(Creates.Failed))
  {
    steps := [Creates.Others(disk)];
    Creates.RunThen(c, [], Creates.Others(disk));
    Creates.RunThen(c, steps, Creates.ReleaseFails);
    steps := CancelRun(c, steps + [Creates.ReleaseFails], standing);
  }

  lemma OwnedRun(c: Creates.Create, disk: Owners) returns (steps: seq<Creates.Step>)
    requires c.phase.Recorded? && c.standing
    ensures Creates.Run(c, steps) == c.(disk := disk, phase := Creates.Ended(Creates.Owned))
  {
    steps := [Creates.Others(disk), Creates.Confirm];
    Creates.RunThen(c, [], Creates.Others(disk));
    Creates.RunThen(c, [Creates.Others(disk)], Creates.Confirm);
    assert steps == [Creates.Others(disk)] + [Creates.Confirm];
  }

  /** What the withdrawal of one session's record does, in the store's own terms. */
  lemma WithdrawnEntry(commit: Commit, held: Option<Owners>, s: SessionId, o: OwnerId)
    requires commit.after == commit.before[s := o] && held.Some?
    ensures Conflicts(held.value, commit, [s], []) <==>
                !SameEntry(held.value, commit.before, s) && !Creates.Holds(held.value, s, o)
    ensures Reverted(held.value, commit.before, SetOf([s])) == Creates.Undone(held.value, commit.before, s)
    ensures SameEntry(held.value, commit.before, s) <==> Creates.Undone(held.value, commit.before, s) == held.value
    ensures SameEntry(Creates.Undone(held.value, commit.before, s), commit.before, s)
  {
    assert s in [s] && forall x <- [s] :: x == s;
    assert forall x :: x in SetOf([s]) <==> x == s;
  }

  lemma WithdrawnRun(c: Creates.Create, commit: Commit, held: Option<Owners>, w: Withdrawal, disk: Owners, ok: bool)
      returns (steps: seq<Creates.Step>)
    requires c.phase == Creates.Recorded(commit.before) && c.standing
             && commit.after == commit.before[c.session := c.owner]
    requires held.Some? == w.readable && (held.None? ==> !ok)
    requires held.Some? ==> disk == if Conflicts(held.value, commit, [c.session], []) || w.fate.Lost? then held.value
                                    else Reverted(held.value, commit.before, SetOf([c.session]))
    requires held.Some? ==>
               (ok <==> !Conflicts(held.value, commit, [c.session], [])
                        && w.unlocked && (Reverted(held.value, commit.before, SetOf([c.session])) == held.value
                                          || w.fate.Done? || (w.rereadable && !w.fate.Lost?)))
    ensures Creates.Run(c, steps)
            == c.(standing := false, disk := disk,
                  phase := Creates.Ended(if ok then Creates.Refused else Creates.Failed))
  {
    var found := if held.Some? then held.value else disk;
    if held.Some? { WithdrawnEntry(commit, held, c.session, c.owner); }
    var lapsed := c.(standing := false, disk := found, phase := Creates.Lapsed(commit.before));
    Creates.ThreeSteps(c, Creates.Cancel, Creates.Confirm, Creates.Others(found));
    assert Creates.Run(c, [Creates.Cancel, Creates.Confirm, Creates.Others(found)]) == lapsed;
    var last := Creates.Withdraw(w.readable, w.fate, w.rereadable, w.unlocked);
    Creates.RunThen(c, [Creates.Cancel, Creates.Confirm, Creates.Others(found)], last);
    steps := [Creates.Cancel, Creates.Confirm, Creates.Others(found)] + [last];
  }

  /** A map that agrees with `from` on the ids, and is either the original or its reversion, is the reversion. */
  lemma RevertedIsReverted(held: Owners, from: Owners, ids: seq<SessionId>)
    ensures (forall s <- ids :: SameEntry(held, from, s)) ==> held == Reverted(held, from, SetOf(ids))
  {}

  lemma OwnedNone(held: Owners, ids: seq<SessionId>, o: OwnerId)
    ensures held == WithOwned(held, SetOf(ids[..0]), o)
  {
    assert SetOf(ids[..0]) == {};
  }

  lemma SetOfNext(ids: seq<SessionId>, i: nat)
    requires i < |ids|
    ensures SetOf(ids[..i + 1]) == SetOf(ids[..i]) + {ids[i]}
  {
    assert ids[..i + 1] == ids[..i] + [ids[i]];
  }

  /** A reversion that changes the store shows in the ids. */
  lemma ReversionShows(held: Owners, from: Owners, ids: seq<SessionId>)
    ensures forall s <- ids :: SameEntry(Reverted(held, from, SetOf(ids)), from, s)
    ensures Reverted(held, from, SetOf(ids)) != held ==> exists s <- ids :: !SameEntry(held, from, s)
  {
    if forall s <- ids :: SameEntry(held, from, s) { RevertedIsReverted(held, from, ids); }
  }

  lemma RevertedEntry(held: Owners, from: Owners, done: set<SessionId>, s: SessionId)
    ensures var now := Reverted(held, from, done);
            && SameEntry(now, if s in done then from else held, s)
            && (SameEntry(now, from, s) ==> Reverted(held, from, done + {s}) == now)
            && Reverted(held, from, done + {s}) == if s in from then now[s := from[s]] else now - {s}
  {}

  lemma OwnedEntry(held: Owners, done: set<SessionId>, o: OwnerId, s: SessionId)
    ensures var now := WithOwned(held, done, o);
            && (s in done ==> s in now && now[s] == o)
            && (s !in done ==> SameEntry(now, held, s))
            && WithOwned(held, done + {s}, o) == now[s := o]
  {}

  /** What an applied reload leaves of one session: a preserved one whole, the store's owner for any other. */
  lemma ReloadedEntry(i: Image, snapshot: Owners, preserved: set<SessionId>, s: SessionId)
    ensures var after := Step(i, ReloadApplied(snapshot, preserved)); var was := i.entries;
            && (s in after.entries <==> s in snapshot || (s in preserved && s in was))
            && (s in preserved && s in was ==> after.entries[s] == was[s])
            && (s in snapshot && !(s in preserved && s in was) ==>
                  && after.entries[s].ownerId == snapshot[s] && !after.entries[s].uncertain
                  && after.entries[s].socket
                     == if s in was && was[s].ownerId == snapshot[s] then was[s].socket else None)
            && after.uncertain == map[] && after.revision > i.revision
  {}

  /** What an applied reload means for each session: its owner stays unless its release was uncertain. */
  lemma ReloadKeepsOwners(i: Image, snapshot: Owners, preserved: set<SessionId>, s: SessionId)
    requires s in i.entries && forall t <- i.entries :: KeptOrExcused(i, snapshot, preserved, t)
    ensures var after := Step(i, ReloadApplied(snapshot, preserved)).entries;
            || (s in after && after[s].ownerId == i.entries[s].ownerId)
            || (s !in preserved && s in i.uncertain && i.uncertain[s] == i.entries[s].ownerId)
    ensures forall t :: t !in i.entries ==>
              SameEntry(OwnersOf(Step(i, ReloadApplied(snapshot, preserved)).entries), snapshot, t)
  {}
}
