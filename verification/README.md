# ZCode broker verification

A Dafny model of the concurrency core of the ZCode plugin: the broker that multiplexes many clients onto one upstream
engine, the companion's proof that a cancelled turn left no report, and the SessionEnd hook's settlement protocol.
`dafny verify dfyconfig.toml` checks everything.

## What is modelled

| file | part of the system |
|---|---|
| `Admission.dfy`, `AdmissionRuns.dfy`, `AdmissionEffects.dfy`, `BrokerAdmission.dfy` | the lease ledger: its transitions as functions, what every run of them keeps, when each thing it stores comes and goes, and the class that updates maps and counters in place |
| `OwnerImage.dfy`, `OwnerStore.dfy` | the durable ownership map under write faults, its in-memory image, commit, recovery, compensation, restore and optimistic reload |
| `Creates.dfy` | a `session/create` from its answer to its end as a state machine over the store |
| `OwnerRelease.dfy` | `releaseOwnerAdmitted`, whole: selection, stops in groups, commit, compensation, recovery |
| `Prioritize.dfy` | moving an owner's sessions to the front of the store, and what the next release then selects |
| `Turns.dfy`, `TurnRuns.dfy`, `TurnEffects.dfy`, `TurnTable.dfy` | turns, stops, permissions and exact releases as a step machine, its runs, which steps move what, and the class whose handlers take those steps |
| `Generations.dfy`, `ProtocolHost.dfy` | one engine at a time: start, serve, retire, replace |
| `Continuity.dfy` | the joined read, the stop, the reread and the no-report publication, across companion and broker |
| `WorkerPool.dfy`, `SessionEnd.dfy` | the bounded pool and the staged SessionEnd flow |
| `Framing.dfy`, `UpstreamObject.dfy` | the line framing of a client socket, and the check of an engine's results |

A class method that has a value-level counterpart ensures that its new state is that function of its old state; the
properties are then proved about the functions, over all runs from the empty state. An await is a method that may change
every field other handlers may change, so each proof about a method is a proof about every interleaving. In the step
machines a handler is cut at its awaits, and a run of steps is an interleaving.

## Assumptions

- The store's file lock is mutual exclusion, and a write is all or nothing; a write that reports failure may have taken effect.
- Tokens, stamps and attempt ids are fresh; clocks and abort signals are monotone.
- The currency of a release, once lost during an await, stays lost: leases and fences are only dropped, and generations never return.
- The protocol client refuses a second turn of a session (`scripts/lib/zcode-protocol.mjs:182`), and its drain returns only
  when no server request of the session is open (`scripts/lib/zcode-protocol.mjs:198-210`).
- The one write of an owner that does not move the ownership revision (`scripts/zcode-broker.mjs:827`) repeats an owner
  already recorded. `OwnerImage.AttachKeepsOwnersIff` shows that this is exactly what the revision check needs.
- While a request's lease and claim on a session stand, other handlers leave that session's owner alone; in the ledger such
  a claim is its session's sole lease (`AdmissionRuns.ClaimIsBacked`).
- The protocol client refuses a permission request for a session it holds no turn of (`scripts/lib/zcode-protocol.mjs:385`).
- Decoded chunks hold whole code points. Session ids do not read as integers, whose keys JavaScript would reorder.

## Findings

- **A permission can outlive its turn.** The failure handler of a send aborts the engine's turn of the session without
  looking whose turn it is (`scripts/zcode-broker.mjs:814`). If a client cancels a send, stops the turn, sends again and is
  asked for a permission, the first send's late answer takes away the new turn's engine record, and a third send is then
  let in over the turn that still asks. `TurnRuns.PermissionOutlivesItsTurn` gives the run. The exact condition is
  `TurnRuns.Harmless`: no send fails while a permission of another turn of its session waits on the same engine. It is
  necessary and sufficient for the property itself (`TurnRuns.HarmlessIffCurrentAfterRun`). That each permission is
  answered once and at most 256 wait holds in every run (`TurnRuns.AnsweredOnceAlways`).
- **A socket's fate can depend on chunking.** The lines dispatched never depend on how the stream is cut, but an oversized
  tail destroys the socket only when the last chunk lies wholly inside it (`Framing.ReceiveAllAgrees`,
  `Framing.OversizedTailDependsOnCut`).
- **A stop's stamp can be newer than its server**, so comparing stop and server would prove nothing
  (`Continuity.StopStampCanBeNewer`); the chain is sound because the stamp is compared with the joined read's.
- **Starting engines can overlap, but only while the broker closes**: the end of the close forgets a start that a waiting
  handler made meanwhile (`Generations.StartsCanOverlap`). No such engine goes live (`Generations.OverlapOnlyWhileClosing`).
- **A late create can leave its session owned**, if it is cancelled once its record is written and the store then fails to
  take the record back (`Creates.LateRecordCanStay`), or if its commit's lock cannot even be released, when nothing is
  taken back (`Creates.LateRecordCanStayUnreleased`). `Creates.LateRecordStaysIff` says exactly when, by where the create
  ends. One cancelled before its write never writes (`Creates.LateNeverWrites`).

- **An obligation's discharge is stricter than its documentation.** The comment at `scripts/lib/recovery.mjs:137-147` lets
  a cancelling record discharge the receipt with or without a stop intent; the code asks for the intent
  (`scripts/lib/recovery.mjs:155-157`), and so does the model (`SessionEnds.DischargeEvidence`).

## Model

| member | source | states |
|---|---|---|
| `AdmissionRuns.LedgerIsExact` | scripts/zcode-broker.mjs:50-98 | after any run of admissions, transfers and (repeated) finishes: operations = live creates + preflights + counted session leases, releases = owners in release, sessions = stored leases, within 256 and 16 |
| `AdmissionRuns.IdleIsEmpty` | scripts/zcode-broker.mjs:98 | the active count is zero exactly when no owner has state and no counted lease is stored |
| `AdmissionRuns.RunKeeps` | scripts/zcode-broker.mjs:50-98 | exactness, no idle entry, the release fence, the lock and the claims survive every run |
| `AdmissionRuns.ApplyKeeps` | scripts/zcode-broker.mjs:52-94 | each single operation, refused or not, keeps all of them |
| `AdmissionRuns.LedgerIsReadersWriterLock` | scripts/zcode-broker.mjs:80-88 | two leases of one session are both shared, and then nobody holds a claim on it; which operations those are is `AdmissionEffects.ExclusiveIsAlone` |
| `AdmissionEffects.ExclusiveIsAlone` | scripts/zcode-broker.mjs:44-45 | after every run: while a session has a create, send, stop, subscribe, unsubscribe, releaseSession or releaseTurn lease it has no other lease, and every operation that takes a lease is refused there |
| `AdmissionEffects.ReadersShare` | scripts/zcode-broker.mjs:44-80 | a read, resume or configuration request is never refused for the leases of a session that are all of those kinds: only for an unsafe id, its owner's release, or 256 operations in flight |
| `AdmissionEffects.SessionBeginsIff` | scripts/zcode-broker.mjs:74-84 | after every run a session request is admitted exactly when the id is safe, the session's leases allow the operation, its owner is not being released (but for `releaseSession` and the owner's own creates in flight), a preflight it brings stands for that owner and session, and there is room or it is counted already |
| `AdmissionEffects.LeaseAppearsIff` | scripts/zcode-broker.mjs:74-88 | no operation but an admitted session request stores a lease, and it stores one: under a fresh token, unbound, for its owner, counted unless its create is |
| `AdmissionEffects.LeaseLeavesIff` | scripts/zcode-broker.mjs:94 | a lease leaves exactly when it is finished; until then only its binding moves |
| `AdmissionEffects.LeaseBoundIff` | scripts/zcode-broker.mjs:91-93 | a lease is bound to an engine once, exactly while it stands: a create's by its claim, any other by its owner in the store |
| `AdmissionEffects.CreateBeginsIff` | scripts/zcode-broker.mjs:52-57 | a create begins exactly when its owner is not being released and fewer than 256 operations are in flight |
| `AdmissionEffects.CreateEndsIff` | scripts/zcode-broker.mjs:67-90 | it ends exactly when it is finished, and until then can only claim one session |
| `AdmissionEffects.PreflightBeginsIff` | scripts/zcode-broker.mjs:69 | a preflight begins under the same conditions, with the next generation |
| `AdmissionEffects.PreflightEndsIff` | scripts/zcode-broker.mjs:61-87 | it ends exactly when it is finished or an admitted request takes it over, and is retired exactly by its owner's release |
| `AdmissionEffects.ReleaseBeginsIff` | scripts/zcode-broker.mjs:59-63 | a release begins exactly when its owner has none and fewer than 16 are active, over the creates then in flight |
| `AdmissionEffects.ReleaseEndsIff` | scripts/zcode-broker.mjs:66-90 | it ends exactly when it is finished, and until then only learns the sessions its creates claim |
| `AdmissionEffects.ClaimBeginsIff` | scripts/zcode-broker.mjs:90 | a session is claimed exactly by the unbound lease of a create in flight that has claimed no other, and its create records it |
| `AdmissionEffects.ClaimedOnce` | scripts/zcode-broker.mjs:90 | a claim is admitted exactly so, and refused where the session is claimed already |
| `AdmissionEffects.ClaimEndsIff` | scripts/zcode-broker.mjs:94 | a claim ends exactly with its lease and never changes hands |
| `AdmissionRuns.ClaimIsBacked` | scripts/zcode-broker.mjs:90-94 | a claim belongs to its session's sole lease, a create's with the same token and owner, and goes with it |
| `AdmissionRuns.FinishTwice` | scripts/zcode-broker.mjs:67-94 | finishing an owner request, a preflight or a session lease twice is finishing it once |
| `AdmissionRuns.FenceOverRun` | scripts/zcode-broker.mjs:52-90 | while one release of an owner is active its creates only leave, sessions they claim are recorded with the release, its preflights stay retired, and every new lease of the owner is a release lease or one of those creates' |
| `AdmissionRuns.FenceTransitive` | scripts/zcode-broker.mjs:52-90 | the fence composes over states of one release |
| `AdmissionRuns.EndedOverRun` | scripts/zcode-broker.mjs:66-67 | an ended release never becomes active again |
| `AdmissionRuns.RetiredNeverAdmits` | scripts/zcode-broker.mjs:69-88 | a preflight that is retired or gone is refused as a lease in every later state, also after the release |
| `AdmissionRuns.ReleaseSpends` | scripts/zcode-broker.mjs:61-63 | beginning a release retires every preflight its owner has stored |
| `BrokerAdmissions.BrokerAdmission.BeginOwnerRequest` | scripts/zcode-broker.mjs:52-64 | a create or a release is refused leaving the ledger alone, or moves it exactly as the ledger's transition says, retiring preflights in place |
| `BrokerAdmissions.BrokerAdmission.FinishOwnerRequest` | scripts/zcode-broker.mjs:67 | ends the lease only if it is the stored one, dropping an idle owner |
| `BrokerAdmissions.BrokerAdmission.BeginOwnershipPreflight` | scripts/zcode-broker.mjs:69 | takes a counted preflight with the next generation, or refuses |
| `BrokerAdmissions.BrokerAdmission.FinishOwnershipPreflight` | scripts/zcode-broker.mjs:70-72 | ends a stored preflight, retired or not, once |
| `BrokerAdmissions.BrokerAdmission.BeginSessionRequest` | scripts/zcode-broker.mjs:74-88 | every check in order, then the lease, the transfer of a preflight and the counters; a refusal changes nothing |
| `BrokerAdmissions.BrokerAdmission.ClaimSessionRequest` | scripts/zcode-broker.mjs:90 | claims the session for a live create, also in the release that grandfathered it |
| `BrokerAdmissions.BrokerAdmission.BindSessionProtocol` | scripts/zcode-broker.mjs:91-93 | binds a current, unbound lease to one engine |
| `BrokerAdmissions.BrokerAdmission.FinishSessionRequest` | scripts/zcode-broker.mjs:94 | drops the lease, its claim and its count, once |
| `OwnerStores.OwnerStore.CommitOwnerMutation` | scripts/zcode-broker.mjs:1267-1281 | the store ends exactly as the fates of its writes say; committed: disk and memory hold the updated map; not committed: the disk holds the map read under the lock; a request that does not stand before the write writes nothing; which outcome, for every loss of standing and every failing call |
| `OwnerStores.OwnerStore.RollBack` | scripts/zcode-broker.mjs:1272-1276 | after a loss of standing during the write: not committed exactly when the restored map was written or reads back, and then memory holds that map too |
| `OwnerStores.OwnerStore.PersistOwnership` | scripts/zcode-broker.mjs:1311-1322 | the same, with the recovery handler, for recording a created session; another owner's session, or any known session of an anonymous create, is refused without a write |
| `OwnerStores.OwnerStore.RecoverPersist` | scripts/zcode-broker.mjs:1312-1320 | after an ambiguous write: committed only if the store reads back as the whole updated map; otherwise memory holds what was read, or marks the session uncertain if nothing was read or it is not there |
| `OwnerStores.OwnerStore.CompensateOwnerCommit` | scripts/zcode-broker.mjs:1283-1296 | success: named sessions as before the commit, preserved ones as after it, all others as found under the lock; a conflict writes nothing; at most one write, of exactly that map; it fails only on a conflict or a failing store call, its lock's release included |
| `OwnerStores.OwnerStore.WriteReversion` | scripts/zcode-broker.mjs:1290-1294 | a withdrawal's write counts when it succeeds or reads back as reverted and preserved; without a preserved session exactly then |
| `OwnerStores.OwnerStore.ReleaseLock` | scripts/lib/fs.mjs:379-396 | a lock that cannot be released is a failing call, after the effect |
| `OwnerStores.OwnerStore.RevertAll` | scripts/zcode-broker.mjs:1287-1291 | reverts all named sessions, or reports the first that is neither as before nor as after the commit |
| `OwnerStores.OwnerStore.RestoreReleasedOwnership` | scripts/zcode-broker.mjs:1298-1309 | gives back all named sessions and nothing else, or writes nothing if one has another owner |
| `OwnerStores.OwnerStore.OwnAll` | scripts/zcode-broker.mjs:1301-1305 | refuses exactly when another owner holds a named session |
| `OwnerStores.OwnerStore.ReconcileBrokerOwnership` | scripts/zcode-broker.mjs:108-119 | the companion's reconciliation: all the ids become the owner's, or nothing is written |
| `OwnerStores.OwnerStore.CommitCreated` | scripts/zcode-broker.mjs:807-828 | a request that no longer stands at its upstream answer writes nothing and never owns; owning means still standing; every end is the end of a run of the create machine; with no failing store call the caller is never left owning a session it did not own; with none, a request that stands throughout owns exactly if the store had no other owner for the session (nor any, for an anonymous create) |
| `OwnerStores.OwnerStore.ConfirmCreated` | scripts/zcode-broker.mjs:826-827 | a recorded create that still stands attaches its session, repeating the recorded owner; one that does not has its record withdrawn |
| `Creates.LateNeverWrites` | scripts/zcode-broker.mjs:807-828 | over every run: once a create's standing is gone before its write, no step of it writes and it never owns |
| `Creates.LateRecordStaysIff` | scripts/zcode-broker.mjs:1267-1296 | where a create without standing ends, its owner is left with the session exactly when: before its write, others had given the owner the session; at its rollback, the write took effect and the rollback did not; at a failing release of its commit's lock, nobody else removed the record since; at its withdrawal, nobody else removed it and the store could not be read under the lock or the write had no effect (at the rollback and the withdrawal, also when the owner had the session before the create) |
| `Creates.LateRecordCanStay` | scripts/zcode-broker.mjs:826 | a run in which it stays: cancelled after its commit, with the withdrawal's lock not taken |
| `Creates.LateRecordCanStayUnreleased` | scripts/lib/fs.mjs:379-396 | a run in which it stays untried: cancelled while its commit's lock fails to be released |
| `OwnerStores.OwnerStore.ReloadOwnership` | scripts/zcode-broker.mjs:1324 | a snapshot is applied only at the revision the read began with, and takes no session from its owner unless marked uncertain or preserved; otherwise memory is unchanged by it, and the outcome says why: a failed read, a moved revision or missing store, an ended preflight, or a session it would lose |
| `OwnerStores.OwnerStore.ApplySnapshot` | scripts/zcode-broker.mjs:1324-1333 | the whole snapshot, or a throw with memory unchanged and a session that would have been lost |
| `OwnerStores.OwnerStore.LosesOwner` | scripts/zcode-broker.mjs:1324 | finds exactly whether some session would be lost |
| `OwnerStores.ReloadedEntry` | scripts/zcode-broker.mjs:1324-1333 | an applied reload leaves a preserved session's entry whole, gives every other session the store's owner (keeping its socket if that is the same), and clears the uncertain marks |
| `OwnerStores.ReloadKeepsOwners` | scripts/zcode-broker.mjs:1324-1333 | after an applied reload every session neither uncertain nor preserved has its previous owner |
| `OwnerImage.RevisionGuardsOwners` | scripts/zcode-broker.mjs:1324-1333 | over any changes by other handlers an unmoved revision means unchanged owners |
| `OwnerImage.AttachKeepsOwnersIff` | scripts/zcode-broker.mjs:827 | the one unguarded write leaves ownership alone exactly when it repeats the recorded owner |
| `OwnerReleases.OwnerRelease.ReleaseOwnerAdmitted` | scripts/zcode-broker.mjs:905-1001 | on return: released and failed share out exactly the first 16, in store order, of the caller's sessions that are neither excluded nor claimed by a create in flight, deferred counts the rest of those and the creates in flight, released ones were acknowledged as stopped and settled while their stop stood if an engine was live, were current at the last check after the commit's write, and are the caller's no more; a session it removed and then failed is shown as the caller's by its last look or was marked uncertain, and on a throw so is everything it removed; with nothing in its way it returns with the whole batch released; on every path only the caller's entries of the batch are written, and the fences and leases it recorded are all it held and are dropped |
| `OwnerReleases.SharedOut` | scripts/zcode-broker.mjs:933-985 | then the two lists are duplicate-free, disjoint and together the batch |
| `OwnerReleases.SelectsFirstFree` | scripts/zcode-broker.mjs:906 | the selection takes the first 16, in store order, of the caller's sessions that no exclusion names and no create in flight has claimed, and counts them all |
| `OwnerReleases.OwnerRelease.StopThroughEngine` | scripts/zcode-broker.mjs:918-934 | after the stops, in groups of eight, every session is released or failed, and a released one was acknowledged and settled |
| `OwnerReleases.OwnerRelease.StopGroup` | scripts/zcode-broker.mjs:922-927 | at most eight stops at a time; without an obstacle every one of the group is fulfilled; a stop that does not stand any more gives its own lease and fence up; those of the others are recorded for the end |
| `OwnerReleases.OwnerRelease.AwaitStop` | scripts/zcode-broker.mjs:924-926 | a stop's answer counts exactly if it is valid and the stop still stands |
| `OwnerReleases.OwnerRelease.SettleOne` | scripts/zcode-broker.mjs:930-932 | a session is released exactly if its stop was fulfilled, still stands and ended the turn it captured, and fails otherwise |
| `OwnerReleases.OwnerRelease.FenceWithoutEngine` | scripts/zcode-broker.mjs:910-916 | without an engine every released session holds its lease and its fence; with one starting or retiring the whole batch fails |
| `OwnerReleases.OwnerRelease.KeepAuthoritative` | scripts/zcode-broker.mjs:933 | after a replacement only settled stops still count, and nothing is lost between the lists |
| `OwnerReleases.OwnerRelease.FailReleasedSessions` | scripts/zcode-broker.mjs:941 | moves exactly the stale sessions, keeping the order of the rest |
| `OwnerReleases.OwnerRelease.LockedCommit` | scripts/zcode-broker.mjs:953-958 | the commit deletes the caller's entries of the sessions still released and nothing else |
| `OwnerReleases.OwnerRelease.Mutate` | scripts/zcode-broker.mjs:953 | nothing is written unless the release stands and every released session's lease is stored when the update is made, with its owner unchanged where its stop was settled |
| `OwnerReleases.OwnerRelease.RecoverWrite` | scripts/zcode-broker.mjs:953-957 | an ambiguous write counts only if the store reads back as updated outside the released sessions, and inside them deleted or, where the release lost its standing, untouched; memory then holds that map |
| `OwnerReleases.OwnerRelease.FailStale` | scripts/zcode-broker.mjs:959-962 | after the commit exactly the sessions whose lease is gone, or whose stop was neither settled nor still stands, leave the released ones |
| `OwnerReleases.OwnerRelease.SettleCommitted` | scripts/zcode-broker.mjs:959-971 | sessions that went stale after the commit are failed; the last look shows them back or they are marked uncertain, the released ones are gone, or it throws with nothing unaccounted for |
| `OwnerReleases.OwnerRelease.Compensate` | scripts/zcode-broker.mjs:962 | puts the stale sessions back; it fails only for want of time, a failing store call, or a conflict with another writer |
| `OwnerReleases.OwnerRelease.AfterFailedCompensation` | scripts/zcode-broker.mjs:963-970 | a compensation that reported failure lets the release go on exactly if the store shows the released sessions as deleted and the stale ones as back; otherwise the stale ones are marked uncertain and, not being back, kept in memory as their owner's, and it throws |
| `OwnerReleases.OwnerRelease.RestoreStaleRelease` | scripts/zcode-broker.mjs:947-951 | a release that lost its standing gives everything it still counts as released back; it marks it uncertain and throws only for want of time, a failing store call, or another owner's session |
| `OwnerReleases.OwnerRelease.RecoverCommit` | scripts/zcode-broker.mjs:973-991 | after a throwing commit, while the release stands, a look at the store decides: exactly what it still shows as the caller's fails, the rest stays released and memory follows it; with nothing left the error stands, and without a look everything is marked uncertain; a release that lost its standing gives its sessions back or throws; what it removed is accounted for |
| `OwnerReleases.OwnerRelease.CommitReleased` | scripts/zcode-broker.mjs:942-994 | all paths of the commit together: what was removed is released, shown back or marked uncertain (on a throw, the last two), and what is still released was current at the last check after its write, and no longer marked uncertain |
| `OwnerReleases.OwnerRelease.DropHeld` | scripts/zcode-broker.mjs:997-1000 | dropping exactly the recorded fences and leases leaves none |
| `OwnerReleases.RevertedIsOwn` | scripts/zcode-broker.mjs:962 | a compensation writes only the caller's own entries of the batch |
| `OwnerReleases.RestoredIsOwn` | scripts/zcode-broker.mjs:947-951 | so does a restore |
| `Prioritizing.Reorder` | scripts/zcode-broker.mjs:125 | same mappings and owners; the requested owned sessions first, each once in order of first request; the rest in their order |
| `Prioritizing.OwnerFile.Prioritize` | scripts/zcode-broker.mjs:122-126 | an invalid request or a missing store changes nothing, and no outcome changes anybody's ownership |
| `Prioritizing.SameMappings` | scripts/zcode-broker.mjs:125 | reordering is a permutation of the mappings and keeps every owner |
| `Prioritizing.OthersInOrder` | scripts/zcode-broker.mjs:125 | the mappings that are not prioritised keep their order |
| `Prioritizing.PrioritisedFillTheBatch` | scripts/zcode-broker.mjs:894-906 | the batch after the next applied reload starts with the first 16 prioritised, non-excluded sessions in their order |
| `Prioritizing.AllPrioritisedAreSelected` | scripts/zcode-broker.mjs:894-906 | up to 16 of them are all in the batch |
| `TurnRuns.StepKeepsIff` | scripts/zcode-broker.mjs:814 | no single step takes a waiting permission's turn away; a step keeps the engine's turn under every waiting permission exactly unless it is a send failing under another turn's permission |
| `TurnRuns.HeldIffHarmless` | scripts/zcode-broker.mjs:692-883 | over whole runs: permissions are held at every state exactly when no such failure occurs, and then they are current |
| `TurnRuns.PermissionsOfRun` | scripts/zcode-broker.mjs:1079-1091 | a pending permission has its session's turn token and socket, and that turn is not being released |
| `TurnRuns.AnsweredOnceAlways` | scripts/zcode-broker.mjs:1079-1135 | in every run each permission id is pending or answered exactly once, and at most 256 are pending |
| `TurnRuns.EndedTurnLeavesNone` | scripts/zcode-broker.mjs:1124-1157 | a turn ended by terminal event, stop, exact release, failed send or engine loss leaves no permission pending |
| `TurnRuns.HarmlessIffCurrentFromHere` | scripts/zcode-broker.mjs:814 | the guard is exact for the property itself: a step is harmless if and only if every harmless continuation keeps permissions with their current turns |
| `TurnRuns.HarmlessIffCurrentAfterRun` | scripts/zcode-broker.mjs:814 | the same after every harmless run from the start |
| `TurnRuns.PermissionOutlivesItsTurn` | scripts/zcode-broker.mjs:691-814 | a run from the start that breaks it |
| `TurnRuns.LateAnswersHaveNoEffect` | scripts/zcode-broker.mjs:731-737 | once a lease is finished or cancelled no later answer arms a send, settles a stop or registers a subscription |
| `TurnRuns.EffectsNeedLeases` | scripts/zcode-broker.mjs:808-843 | each success effect belongs to a request whose lease is held at that moment |
| `TurnRuns.StopEndsOnlyCapturedTurn` | scripts/zcode-broker.mjs:787-843 | whatever happens between a stop and its answer, the answer ends no turn but the one with the token captured when it was issued |
| `TurnRuns.AcknowledgedStopEndedItsTurn` | scripts/zcode-broker.mjs:1103-1130 | over every run: after an acknowledged stop its session has no active turn, and the captured turn is ended by the stop or was ended by its own terminal event on that engine |
| `TurnRuns.WonInRun` | scripts/zcode-broker.mjs:1036 | a turn counts as ended by its own terminal event only if that event, at the boundary armed for it, was a step of the run |
| `TurnRuns.TerminalEndsIff` | scripts/zcode-broker.mjs:1036 | the terminal event of a turn at its armed boundary ends that turn in both records, denies its permissions and records the winner, exactly when its socket is gone or does not release turns itself; every other terminal event changes nothing |
| `TurnEffects.TurnEndsIff` | scripts/zcode-broker.mjs:787-1157 | a step ends a session's active turn exactly if it is its own terminal event (unless its socket releases turns itself), a stop acknowledged with it, its own failing send, its exact release with everything unchanged, engine loss, or a next send the engine lets in |
| `TurnEffects.TurnBeginsIff` | scripts/zcode-broker.mjs:794 | a turn begins exactly with a send for a session the engine holds no turn of |
| `TurnEffects.TurnMovesIff` | scripts/zcode-broker.mjs:678-1157 | a turn that goes on loses its socket exactly by that socket's close, is marked and unmarked exactly by an exact release of it, and gets its boundary exactly by its own send's success |
| `TurnEffects.UnlinksIff` | scripts/zcode-broker.mjs:814-1157 | the engine's record of a session's turn goes exactly with that turn's end, or with any failing send of the session on that engine |
| `TurnEffects.ArmsIff` | scripts/zcode-broker.mjs:807-814 | a send's answer arms its turn exactly when it is valid and lease, engine and turn are still its own |
| `TurnEffects.AcknowledgesIff` | scripts/zcode-broker.mjs:843-1130 | a stop's answer is acknowledged exactly when it is valid, lease, engine and stop token are unchanged, and the captured turn is current, or ended by its own terminal event with none since, or there was none and is none |
| `TurnEffects.AcknowledgedEnds` | scripts/zcode-broker.mjs:1103-1130 | it ends the captured turn and its permissions exactly in the first case, and moves no turn otherwise |
| `TurnEffects.SubscribesIff` | scripts/zcode-broker.mjs:795-835 | a subscription counts exactly when topic, lease and engine are still its own |
| `TurnEffects.SendBeginsIff` | scripts/zcode-broker.mjs:794 | when a send goes upstream, and the turn it begins |
| `TurnEffects.StopBeginsIff` | scripts/zcode-broker.mjs:787 | a stop captures the turn of that moment and fences its session |
| `TurnEffects.ReleaseBeginsIff` | scripts/zcode-broker.mjs:1137-1144 | an exact release is admitted exactly for the turn's own socket and boundary |
| `TurnEffects.AsksIff` | scripts/zcode-broker.mjs:1079-1091 | a permission is put to a socket exactly when it is the active turn's, writable, the turn is not being released, the engine holds a turn, and fewer than 256 wait; otherwise it is denied at once |
| `TurnEffects.AnsweredIff` | scripts/zcode-broker.mjs:678-1135 | a waiting permission stops waiting exactly by its own socket's answer, its timeout, that socket's close, the broker's close, engine loss, or the end, failing send or exact release of its turn |
| `TurnEffects.StopFenceEndsIff` | scripts/zcode-broker.mjs:787-846 | a stop's fence on its session goes exactly with its answer, its engine, or the next stop of the session |
| `TurnEffects.SocketsIff` | scripts/zcode-broker.mjs:678-689 | a socket is written to from its connection to its close, and stays one that releases turns itself exactly if it connected so |
| `TurnRuns.StartSendKeeps` | scripts/zcode-broker.mjs:794 | a send never takes over a session the engine holds a turn of, nor one with a permission waiting |
| `TurnRuns.FinishReleaseKeeps` | scripts/zcode-broker.mjs:1137-1157 | an exact release ends, unmarks or leaves a turn without orphaning a permission |
| `TurnTables.TurnTable.SettleTurnPermissions` | scripts/zcode-broker.mjs:1132-1135 | denies exactly that turn's pending permissions, each once |
| `TurnTables.TurnTable.RequestPermission` | scripts/zcode-broker.mjs:1079-1091 | asks the active turn's socket, or denies at once: no turn (here or at the engine's client), turn being released, socket not writable, 256 waiting |
| `TurnTables.TurnTable.AnswerPermission` | scripts/zcode-broker.mjs:711-717 | an answer counts only from the socket that was asked |
| `TurnTables.TurnTable.ExpirePermission` | scripts/zcode-broker.mjs:1086 | a timeout denies only what still waits |
| `TurnTables.TurnTable.CloseSocket` | scripts/zcode-broker.mjs:678-689 | denies the socket's permissions; its turns lose the socket and go on |
| `TurnTables.TurnTable.ClearProtocolGeneration` | scripts/zcode-broker.mjs:1042-1053 | engine loss ends every turn and denies every permission |
| `TurnTables.TurnTable.CloseBroker` | scripts/zcode-broker.mjs:1249 | the broker's close denies every waiting permission once |
| `TurnTables.TurnTable.ObserveTerminal` | scripts/zcode-broker.mjs:1036 | ends the very turn the event belongs to and records the winner, exactly unless its socket releases turns itself; every other event changes nothing |
| `TurnTables.TurnTable.SettleAcknowledgedStop` | scripts/zcode-broker.mjs:1103-1130 | ends the captured turn, or says whether it ended by its own terminal event |
| `TurnTables.TurnTable.BeginSend` | scripts/zcode-broker.mjs:794 | begins a turn only where the engine has none |
| `TurnTables.TurnTable.AnswerSend` | scripts/zcode-broker.mjs:807-814 | arms the turn it began exactly when lease, engine and turn are still its own; otherwise undoes the send; keeps permissions held exactly when harmless |
| `TurnTables.TurnTable.UndoSend` | scripts/zcode-broker.mjs:814 | the failure handler, with its unconditional abort |
| `TurnTables.TurnTable.BeginStop` | scripts/zcode-broker.mjs:787 | captures the turn the stop is issued against |
| `TurnTables.TurnTable.AnswerStop` | scripts/zcode-broker.mjs:843 | settles only a valid answer with lease, engine and stop token unchanged |
| `TurnTables.TurnTable.BeginReleaseTurn` | scripts/zcode-broker.mjs:1137-1144 | marks the exact turn and denies its permissions, or changes nothing |
| `TurnTables.TurnTable.FinishReleaseTurn` | scripts/zcode-broker.mjs:1146-1156 | after the drain releases the turn it marked, or unmarks it |
| `Generations.OneEngine` | scripts/zcode-broker.mjs:1003-1077 | in every reachable state at most one engine is starting, live or retiring, and a live one carries its own stamp |
| `Generations.ReplacementNeedsCleanClose` | scripts/zcode-broker.mjs:1003-1077 | a start happens only when every engine that ever lived has closed cleanly |
| `Generations.FailedCloseBlocks` | scripts/zcode-broker.mjs:1068-1077 | from every reachable state with a retired engine: after its close failed nothing starts or serves in any continuation, and that engine never counts as closed |
| `Generations.CleanCloseFrees` | scripts/zcode-broker.mjs:1003-1077 | after its clean close it counts as closed and the next caller starts a replacement |
| `Generations.ClosedInRun` | scripts/zcode-broker.mjs:1068-1077 | an engine counts as closed only by a clean close in the run, at which it was the retired one |
| `Generations.StartsIff` | scripts/zcode-broker.mjs:1003-1009 | in every reachable state an attempt starts exactly when the engine is asked for and none is starting, live or retired |
| `Generations.GoesLiveIff` | scripts/zcode-broker.mjs:1011-1036 | an engine goes live exactly when its attempt is at work, the broker is not closing and none is retired, under a stamp newer than all before |
| `Generations.RetiresIff` | scripts/zcode-broker.mjs:1042-1066 | a live engine stops being live exactly when it is cleared or the broker closes, and is then retired |
| `Generations.AttemptEndsIff` | scripts/zcode-broker.mjs:1003-1040 | an attempt ends exactly when it goes live or fails, and only its own failure lets the next caller start anew |
| `Generations.PromiseDropsIff` | scripts/zcode-broker.mjs:1003-1254 | the shared attempt is forgotten exactly with its own failure, its engine's retirement, or the end of the close |
| `Generations.StampMovesIff` | scripts/zcode-broker.mjs:1011-1254 | the stamp shown moves exactly when a spawned engine is set up, the engine retires, or the close ends; a failed setup leaves a stamp no engine ever had |
| `Generations.GenerationsNeverReturn` | scripts/zcode-broker.mjs:1011-1066 | any later engine or stamp is the present one or newer than all so far |
| `Generations.LiveThroughout` | scripts/zcode-broker.mjs:1011-1066 | an engine live at both ends of a run was live all along |
| `Generations.OverlapOnlyWhileClosing` | scripts/zcode-broker.mjs:1246-1254 | two engines are starting at once only while the broker closes, and then neither can go live |
| `Generations.StartsCanOverlap` | scripts/zcode-broker.mjs:1003-1254 | a run in which two starts do overlap there |
| `ProtocolHosts.ProtocolHost.GetProtocol` | scripts/zcode-broker.mjs:1003-1009 | the live engine, a refusal while one retires, or one shared start |
| `ProtocolHosts.ProtocolHost.InitializeSpawned` | scripts/zcode-broker.mjs:1011-1040 | a spawned engine goes live only if the broker is not closing and none is retiring; a failed setup leaves none |
| `ProtocolHosts.ProtocolHost.ClearProtocolGeneration` | scripts/zcode-broker.mjs:1042-1066 | retires exactly the live engine, once |
| `ProtocolHosts.ProtocolHost.SettleRetiredProtocolGeneration` | scripts/zcode-broker.mjs:1068-1077 | a clean close frees the slot and counts the engine as closed; a failed one keeps the record as failed, for ever (`Generations.FailedCloseBlocks`) |
| `ProtocolHosts.ProtocolHost.ServeRead` | scripts/zcode-broker.mjs:808-852 | a stamp on a read's result or error is its server's own; a result needs a valid answer, a standing lease and an unchanged engine and is always stamped, an error exactly if it is the engine's own and the engine is unchanged |
| `ProtocolHosts.ProtocolHost.ServeStop` | scripts/zcode-broker.mjs:808-854 | a stop is acknowledged exactly on a valid answer with a standing lease and an unchanged engine; its stamp is the generation shown when it is sent, its server's or newer |
| `Continuity.ManagementAttempt.Attempt` | scripts/zcode-companion.mjs:337-409 | for every interleaving: a no-report publication means one engine served the joined read, the stop and the reread; it happens exactly on a joined read that awaits the job's turn, a current revalidation, a stop attested as the same generation, a reread with no outcome of its own and a settled or unmarked cleanup, when the reread is stamped and came from the joined read's engine |
| `Continuity.NoReportAskedIff` | scripts/lib/rescue-lifecycle.mjs:224-330 | after a stop, a publication without a report is asked for exactly on a qualified acknowledgement, a reread that failed or shows the unfinished, inactive, attributable turn, and a settled or unmarked cleanup; natural success, an interruption and contrary evidence come first |
| `Continuity.OutcomesPublishedIff` | scripts/lib/rescue-lifecycle.mjs:224-330 | before and after a stop each outcome is published exactly for the snapshot that shows it, and never while the cleanup only retains |
| `Continuity.ManagementAttempt.LoadRemoteEvidence` | scripts/zcode-companion.mjs:574-640 | the joined stamp is recorded exactly for a readable snapshot, and is that of the engine that served it |
| `Continuity.ManagementAttempt.StopExactTurn` | scripts/zcode-companion.mjs:337-388 | attests the same generation exactly when the stop answers with the joined stamp and the read before it did not speak against that, and then its server is not newer than that stamp; a turn that read shows as over is not stopped |
| `Continuity.ManagementAttempt.RereadRemote` | scripts/zcode-companion.mjs:390-409 | the recorded stamp is exactly the reread reply's, its own server's, also on an error frame |
| `Continuity.ManagementAttempt.PublishNoReport` | scripts/zcode-companion.mjs:744-778 | publishes exactly when both reads were stamped and one engine served them |
| `Continuity.SameStampMeansUninterrupted` | scripts/zcode-broker.mjs:843-854 | a stop stamped like the joined read is exactly one whose engine stayed live from the read to the stamping |
| `Continuity.StopStampCanBeNewer` | scripts/zcode-broker.mjs:843-854 | a run in which the stop's stamp is newer than its server |
| `WorkerPools.StartsInOrder` | hooks/session-end-hook.mjs:439-451 | whatever the interleaving, values are started once at most and in order |
| `WorkerPools.UnabortedRunsAll` | hooks/session-end-hook.mjs:439-451 | without an abort every value is started and finished by the time all workers stop |
| `WorkerPools.AbortedStartsNothing` | hooks/session-end-hook.mjs:439-451 | an aborted pool starts nothing more |
| `WorkerPools.RunSound` | hooks/session-end-hook.mjs:439-451 | every started value is finished or worked on by exactly one worker |
| `WorkerPools.StepWorks` | hooks/session-end-hook.mjs:439-451 | every step of a worker that has not stopped brings the pool nearer to its end, however often operations await |
| `SessionEnds.SessionEnd.Run` | hooks/session-end-hook.mjs:55-385 | settling the receipt is attempted exactly when it exists, the scope is complete, every obligation was started once in order and discharged unaborted, any fence was clean and the foreign check returned; a settled receipt had its fence exactly unless the deadline had passed by then, and always if the remote timer fires on time and a workspace is known; every ending is what its calls answered; every released workspace has no failed or guarded obligation, no fence deferral, only clear looks in the first foreign check, and a clear check under its lock; an unscheduled obligation means no release; and if the abort was never seen, every known workspace held back by none of these is released, unless its lock or its recheck failed |
| `SessionEnds.SessionEnd.PublishReceiptAndScope` | hooks/session-end-hook.mjs:66-134 | goes on exactly unless the start cannot be read or its publication fails; scope, receipt and hints are what the calls answered, a failing merge leaves the hints unpersisted; an unproven scope marks every known workspace unsafe and keeps the receipt pending |
| `SessionEnds.SessionEnd.ReconcileObligations` | hooks/session-end-hook.mjs:153-207 | the decisions are exactly what the endings so far imply; an obligation left unscheduled means the abort was seen |
| `SessionEnds.DischargeEvidence` | scripts/lib/recovery.mjs:148-158 | which records discharge an obligation: by outcome kind, job status, stop intent and runner claim |
| `SessionEnds.EndingEvidence` | hooks/session-end-hook.mjs:178-199 | what a settlement's outcome and a reread's answer mean for the receipt and for the owner |
| `SessionEnds.LateEvidence` | hooks/lib/session-end-fence.mjs:85-140 | when a late obligation needs no settlement, and when its settlement discharges it |
| `SessionEnds.SessionEnd.AfterSettling` | hooks/session-end-hook.mjs:156-185 | an obligation ends at once exactly if its call's answer settles it; all but a clean settlement mark its workspace unsafe before anything else is awaited; a failed writable one is delegated exactly while time is left |
| `SessionEnds.SessionEnd.AfterReread` | hooks/session-end-hook.mjs:186-197 | the ending is the verdict on what the reread answered: only a discharged record or a proven missing job discharges |
| `SessionEnds.SessionEnd.FenceOne` | hooks/lib/session-end-fence.mjs:70-145 | delegates exactly while time is left and then settles exactly what is not stopped and unmarked, unless read-only or out of time; discharged exactly if those answers say so |
| `SessionEnds.SessionEnd.RunDischargeFence` | hooks/lib/session-end-fence.mjs:51-148 | clean exactly when every late obligation was discharged by its answers; deferred exactly the workspaces of the others, or all when the scan failed |
| `SessionEnds.SessionEnd.DiscoverAndReconcile` | hooks/session-end-hook.mjs:139-245 | delegation survives exactly if scope, obligations and fence allow it |
| `SessionEnds.SessionEnd.FenceStage` | hooks/session-end-hook.mjs:229-244 | the fence runs exactly for a settleable receipt with time left; unclean, it keeps the receipt pending and defers its workspaces |
| `SessionEnds.SessionEnd.ForeignAt` | scripts/lib/recovery.mjs:254-283 | a workspace is foreign exactly if it is absent, cannot be read, or holds an active job of another epoch |
| `SessionEnds.SessionEnd.ScanForeign` | scripts/lib/recovery.mjs:252-285 | the first foreign check throws at the first workspace where it sees the remote stage aborted, and otherwise looks at all of them and finds exactly those with a foreign look |
| `SessionEnds.SessionEnd.CheckAndRelease` | hooks/session-end-hook.mjs:249-300 | releases only what every stage left possible, each after only clear first looks and its own clear check, and nothing once aborted |
| `SessionEnds.SessionEnd.RecheckForeign` | hooks/session-end-hook.mjs:270-284 | under the lock: clear exactly without a receipt or when its own look is not foreign; a check that throws is not clear |
| `SessionEnds.SessionEnd.RecheckAndRelease` | hooks/session-end-hook.mjs:262-290 | releases exactly on the recheck's own clear answer |
| `SessionEnds.SessionEnd.ReleaseOwners` | hooks/session-end-hook.mjs:257-300 | each release follows a clear check under the lock; none after an abort; without one every candidate is released unless its lock was not taken or its check threw or found a foreign job |
| `SessionEnds.SessionEnd.SettleAndClean` | hooks/session-end-hook.mjs:308-385 | settles with the current receipt; identity cleanup is tried exactly without a receipt or with a proven and persisted scope, and the generic cleanup follows exactly its success |
| `Framing.ReceiveAllAgrees` | scripts/zcode-broker.mjs:663-677 | for every split: what is dispatched is the stream's lines before the first oversized one; the socket is destroyed exactly for an oversized line or an oversized tail that holds the last chunk |
| `Framing.ChunkingIrrelevant` | scripts/zcode-broker.mjs:663-677 | two splits of one stream dispatch the same, and differ in destruction only over an oversized tail |
| `Framing.OversizedTailDependsOnCut` | scripts/zcode-broker.mjs:670 | two splits of one stream that do differ |
| `Framing.NothingAfterOversized` | scripts/zcode-broker.mjs:674 | nothing after an oversized line is dispatched |
| `Framing.ReadIff` | scripts/zcode-broker.mjs:668-676 | a stream reads as these lines and tail exactly when it is made of them |
| `Framing.ReadOversizedIff` | scripts/zcode-broker.mjs:668-676 | and with an oversized line, exactly when it is these lines, one too long, and a rest |
| `Framing.Connection.OnData` | scripts/zcode-broker.mjs:668-677 | one data event moves buffer, dispatched lines and socket as that reading says |
| `UpstreamObjects.BoundedUpstreamObject` | scripts/zcode-broker.mjs:1392-1409 | the stack loop ends on every finite object graph and accepts exactly plain roots that unfold into trees of allowed values, no object twice, depth at most 64, at most 65,536 nodes, within the frame size |
| `UpstreamObjects.ObjectStep` | scripts/zcode-broker.mjs:1404-1406 | opening an object keeps what is left acceptable, both ways |
| `UpstreamObjects.ScalarStep` | scripts/zcode-broker.mjs:1400-1402 | so does consuming a scalar |

## Left out

- Sockets, pipes, spawning, endpoint probing, timers, file permissions: only their outcomes appear, as arbitrary values.
- Job-spec sealing, digests, token randomness, argument routing, error rendering and public projections.
- `hasSessionAuthority` and `hasForeignSessionAuthority` (`scripts/zcode-broker.mjs:95-96`): single lookups before admission; a caller they refuse never reaches the ledger.
- Socket identity in a session lease, and the ledger's change callback: neither decides an admission.
- Conversation subscription ids, early frames, orphans and retirement: no claim is made that live and retired ids differ. Nor does `Turns` forget the pending subscriptions of a closed socket: its runs include those of the code.
- Responses to permissions that were already denied, and the 256-entry limits on terminal evidence and release tombstones: evidence is never evicted in `Turns`, where the captured turn keeps its own.
- Active turns are values in a map, not shared objects: two handlers holding one turn see each other's changes through the map only.
- `TurnTable` has no method for subscribing, binding a stop to its engine, connecting, or starting an engine; these are steps of `Turns` only.
- The protocol client's limit of 256 turns: a refused send is a run without that step.
- That the remote timer fires on time is not assumed; `SessionEnds.SessionEnd.Run` says what more holds when it does.
- Deadlines inside `releaseOwnerAdmitted` are arbitrary outcomes at every point where the code tests them.
- OwnerReleases.OwnerRelease.ReleaseOwnerAdmitted: "gone" and "back" are what the release last saw of the store, under its lock; another process may change the store after that. A mark of uncertainty may have been resolved by a reload before the release ends. An abandoned call that outlives its deadline is modelled as ending before the release goes on.
- Continuity.ManagementAttempt.Attempt: what a snapshot proves about its turn and how the cleanup ends are arbitrary answers; the order of calls, the stamps and the election among the answers are modelled. A publication that went through may still retain the guard when another process holds the worker's lease.
- SessionEnds.SessionEnd.Run: what discovery, settlement and delegation compute, and which jobs a foreign-epoch look lists, is arbitrary; when each is called and what follows from its answer is modelled. Receipt pruning is not.
- `recordedWorkspaceBrokerPids`, `ensureZCodeBroker`, marketplace and line-ending scripts, the other hooks and prompts.
