/** The broker's in-memory image of session ownership, and why its revision number guards a reload. */
module OwnerImage {
  import opened Options

  type OwnerId = string
  type SessionId = string
  type Socket = nat
  type Owners = map<SessionId, OwnerId>

  datatype Entry = Entry(ownerId: OwnerId, socket: Option<Socket>, uncertain: bool)

  datatype Image = Image(entries: map<SessionId, Entry>, uncertain: Owners, revision: nat)

  /** Every in-memory change another handler can make during an await. */
  datatype Change =
    | ApplyOwnership(owners: Owners)
    | SetSessionOwner(session: SessionId, entry: Entry)
    | SetUncertainRelease(session: SessionId, owner: OwnerId)
    | BumpRevision
    | ReloadApplied(owners: Owners, preserved: set<SessionId>)
    | SocketClosed(socket: Socket)
    | AttachCreated(session: SessionId, owner: OwnerId, created: Socket)

  function OwnersOf(entries: map<SessionId, Entry>): Owners { map s | s in entries :: entries[s].ownerId }

  function SameEntry(left: Owners, right: Owners, s: SessionId): bool {
    (s in left <==> s in right) && (s in left ==> left[s] == right[s])
  }

  /** The new image keeps a session's socket when its owner stays. */
  function Applied(entries: map<SessionId, Entry>, owners: Owners): (next: map<SessionId, Entry>)
    ensures OwnersOf(next) == owners
  {
    map s | s in owners ::
      Entry(owners[s], if s in entries && entries[s].ownerId == owners[s] then entries[s].socket else None, false)
  }

  function Preserve(entries: map<SessionId, Entry>, was: map<SessionId, Entry>,
                    preserved: set<SessionId>): map<SessionId, Entry> {
    entries + map s | s in preserved && s in was :: was[s]
  }

  function Detach(entries: map<SessionId, Entry>, socket: Socket): map<SessionId, Entry> {
    map s | s in entries :: if entries[s].socket == Some(socket) then entries[s].(socket := None) else entries[s]
  }

  function Step(i: Image, change: Change): Image {
    match change
    case ApplyOwnership(owners) => i.(entries := Applied(i.entries, owners), revision := i.revision + 1)
    case SetSessionOwner(s, entry) => i.(entries := i.entries[s := entry], revision := i.revision + 1)
    case SetUncertainRelease(s, o) => i.(uncertain := i.uncertain[s := o], revision := i.revision + 1)
    case BumpRevision => i.(revision := i.revision + 1)
    case ReloadApplied(owners, preserved) =>
      Image(Preserve(Applied(i.entries, owners), i.entries, preserved), map[], i.revision + 1)
    case SocketClosed(socket) => i.(entries := Detach(i.entries, socket))
    case AttachCreated(s, o, socket) => i.(entries := i.entries[s := Entry(o, Some(socket), false)])
  }

  function Run(i: Image, changes: seq<Change>): Image
    decreases |changes|
  {
    if changes == [] then i else Run(Step(i, changes[0]), changes[1..])
  }

  /** The one change that writes an owner without moving the revision repeats an owner already there. */
  ghost predicate RepeatsOwner(i: Image, change: Change) {
    change.AttachCreated? ==> change.session in i.entries && i.entries[change.session].ownerId == change.owner
  }

  ghost predicate Guarded(i: Image, changes: seq<Change>)
    decreases |changes|
  {
    changes == [] || (RepeatsOwner(i, changes[0]) && Guarded(Step(i, changes[0]), changes[1..]))
  }

  /** What `later` can differ in when the revision did not move: nothing that decides ownership. */
  ghost predicate Since(i: Image, later: Image) {
    && i.revision <= later.revision
    && (later.revision == i.revision ==>
        OwnersOf(later.entries) == OwnersOf(i.entries) && later.uncertain == i.uncertain)
  }

  lemma SinceTransitive(a: Image, b: Image, c: Image)
    requires Since(a, b) && Since(b, c)
    ensures Since(a, c)
  {}

  /** Attaching a created session's socket leaves ownership alone exactly when the session already has that owner. */
  lemma AttachKeepsOwnersIff(i: Image, s: SessionId, o: OwnerId, socket: Socket)
    ensures OwnersOf(Step(i, AttachCreated(s, o, socket)).entries) == OwnersOf(i.entries)
       <==> RepeatsOwner(i, AttachCreated(s, o, socket))
  {
    var next := Step(i, AttachCreated(s, o, socket)).entries;
    if RepeatsOwner(i, AttachCreated(s, o, socket)) {
      assert OwnersOf(next) == OwnersOf(i.entries);
    } else {
      assert s in OwnersOf(next) && OwnersOf(next)[s] == o;
    }
  }

  lemma StepSince(i: Image, change: Change)
    requires RepeatsOwner(i, change)
    ensures Since(i, Step(i, change))
  {
    match change
    case SocketClosed(socket) => assert OwnersOf(Detach(i.entries, socket)) == OwnersOf(i.entries);
    case AttachCreated(s, o, socket) => AttachKeepsOwnersIff(i, s, o, socket);
    case _ =>
  }

  lemma {:induction false} RevisionGuardsOwners(i: Image, changes: seq<Change>)
    requires Guarded(i, changes)
    ensures Since(i, Run(i, changes))
    decreases |changes|
  {
    if changes != [] {
      StepSince(i, changes[0]);
      RevisionGuardsOwners(Step(i, changes[0]), changes[1..]);
    }
  }
}
