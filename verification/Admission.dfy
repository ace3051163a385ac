/**
 The broker's admission ledger as a value: every transient fence the broker holds, and the
 transition each `BrokerAdmission` method makes. A refused request leaves the ledger alone.
 A lease object is identified by its token, which is drawn fresh from `nextToken`.
 */
module Admission {
  import opened Options
  import Text

  type OwnerId = string
  type SessionId = string
  type Token = nat
  type Protocol = nat

  const MAX_OWNER_OPERATION_LEASES := 256
  const MAX_CONCURRENT_OWNER_RELEASES := 16

  datatype Method =
    | Create | Send | Stop | Subscribe | Unsubscribe | ReleaseSession | ReleaseTurn
    | Read | Resume | SetModel | UpdateRuntimeModelConfig | SetThoughtLevel
    | List | Health | ReleaseOwner

  datatype Mode = Shared | Exclusive

  function ModeOf(m: Method): Option<Mode> {
    match m
    case Read | Resume | SetModel | UpdateRuntimeModelConfig | SetThoughtLevel => Some(Shared)
    case Create | Send | Stop | Subscribe | Unsubscribe | ReleaseSession | ReleaseTurn => Some(Exclusive)
    case List | Health | ReleaseOwner => None
  }

  /** What a caller holds after an admission: enough to name the stored lease again. */
  datatype OwnerLease = CreateLease(ownerId: OwnerId, token: Token) | ReleaseLease(ownerId: OwnerId, token: Token)
  datatype PreflightLease = PreflightLease(ownerId: OwnerId, sessionId: SessionId, token: Token, generation: nat)
  datatype SessionHandle = SessionHandle(sessionId: SessionId, token: Token)

  datatype Preflight = Preflight(lease: PreflightLease, retired: bool)
  datatype Release = Release(token: Token, grandfathered: map<Token, Option<SessionId>>)
  /** `creates` maps the token of a live create to the session it has claimed, if any. */
  datatype OwnerState = OwnerState(
    creates: map<Token, Option<SessionId>>,
    preflights: map<Token, Preflight>,
    release: Option<Release>)
  datatype SessionLease = SessionLease(
    ownerId: OwnerId, operation: Method, mode: Mode, protocol: Option<Protocol>,
    ownerRequestToken: Option<Token>, countsOperation: bool)
  datatype Claim = Claim(token: Token, ownerId: OwnerId)

  datatype Ledger = Ledger(
    owners: map<OwnerId, OwnerState>,
    leases: map<SessionId, map<Token, SessionLease>>,
    claims: map<SessionId, Claim>,
    sessions: int, operations: int, releases: int, generation: nat, nextToken: Token)

  const NO_OWNER := OwnerState(map[], map[], None)
  const EMPTY := Ledger(map[], map[], map[], 0, 0, 0, 0, 0)

  // ---------------------------------------------------------------- reading

  function OwnerAt(l: Ledger, o: OwnerId): OwnerState { if o in l.owners then l.owners[o] else NO_OWNER }

  function LeasesAt(l: Ledger, s: SessionId): map<Token, SessionLease> { if s in l.leases then l.leases[s] else map[] }

  /** The owner table with one owner's state replaced; an idle owner is not kept. */
  function WithOwner(owners: map<OwnerId, OwnerState>, o: OwnerId, state: OwnerState): map<OwnerId, OwnerState> {
    if state == NO_OWNER then owners - {o} else owners[o := state]
  }

  function WithLeases(leases: map<SessionId, map<Token, SessionLease>>, s: SessionId, at: map<Token, SessionLease>)
    : map<SessionId, map<Token, SessionLease>>
  {
    if at == map[] then leases - {s} else leases[s := at]
  }

  predicate OwnerRequestCurrent(l: Ledger, lease: OwnerLease) {
    match lease
    case CreateLease(o, t) => t in OwnerAt(l, o).creates
    case ReleaseLease(o, t) => ReleaseActive(l, o, t)
  }

  predicate ReleaseActive(l: Ledger, o: OwnerId, t: Token) {
    OwnerAt(l, o).release.Some? && OwnerAt(l, o).release.value.token == t
  }

  predicate PreflightStored(l: Ledger, p: PreflightLease) {
    p.token in OwnerAt(l, p.ownerId).preflights && OwnerAt(l, p.ownerId).preflights[p.token].lease == p
  }

  predicate PreflightCurrent(l: Ledger, p: PreflightLease) {
    PreflightStored(l, p) && !OwnerAt(l, p.ownerId).preflights[p.token].retired
  }

  predicate LeaseHeld(l: Ledger, h: SessionHandle) { h.token in LeasesAt(l, h.sessionId) }

  predicate SessionLeaseStored(l: Ledger, h: SessionHandle, protocol: Option<Protocol>) {
    LeaseHeld(l, h) && LeasesAt(l, h.sessionId)[h.token].protocol == protocol
  }

  /** `durable` is the session's owner in the durable store's image, read at the moment of the check. */
  predicate SessionRequestCurrent(l: Ledger, h: SessionHandle, protocol: Option<Protocol>, durable: Option<OwnerId>) {
    && SessionLeaseStored(l, h, protocol)
    && var lease := LeasesAt(l, h.sessionId)[h.token];
       if lease.operation.Create? then h.sessionId in l.claims && l.claims[h.sessionId].token == h.token
       else durable == Some(lease.ownerId)
  }

  // ------------------------------------------------------------- transitions

  datatype Outcome<+T> = Refused | Admitted(ledger: Ledger, lease: T)

  predicate RoomForOperation(l: Ledger) { l.operations < MAX_OWNER_OPERATION_LEASES }

  function BeginCreate(l: Ledger, o: OwnerId): Outcome<OwnerLease> {
    var state := OwnerAt(l, o);
    if state.release.Some? || !RoomForOperation(l) then Refused
    else
      var t := l.nextToken;
      Admitted(l.(owners := WithOwner(l.owners, o, state.(creates := state.creates[t := None])),
                  operations := l.operations + 1, nextToken := t + 1),
               CreateLease(o, t))
  }

  function Retire(preflights: map<Token, Preflight>): map<Token, Preflight> {
    map t | t in preflights :: preflights[t].(retired := true)
  }

  function BeginRelease(l: Ledger, o: OwnerId): Outcome<OwnerLease> {
    var state := OwnerAt(l, o);
    if state.release.Some? || l.releases >= MAX_CONCURRENT_OWNER_RELEASES then Refused
    else
      var t := l.nextToken;
      var fenced := OwnerState(state.creates, Retire(state.preflights), Some(Release(t, state.creates)));
      Admitted(l.(owners := WithOwner(l.owners, o, fenced), releases := l.releases + 1, nextToken := t + 1),
               ReleaseLease(o, t))
  }

  function FinishOwner(l: Ledger, lease: OwnerLease): Ledger {
    if !OwnerRequestCurrent(l, lease) then l
    else
      var state := OwnerAt(l, lease.ownerId);
      match lease
      case CreateLease(o, t) =>
        l.(owners := WithOwner(l.owners, o, state.(creates := state.creates - {t})), operations := l.operations - 1)
      case ReleaseLease(o, t) =>
        l.(owners := WithOwner(l.owners, o, state.(release := None)), releases := l.releases - 1)
  }

  function BeginPreflight(l: Ledger, o: OwnerId, s: SessionId): Outcome<PreflightLease> {
    var state := OwnerAt(l, o);
    if state.release.Some? || !RoomForOperation(l) then Refused
    else
      var t := l.nextToken;
      var lease := PreflightLease(o, s, t, l.generation + 1);
      Admitted(l.(owners := WithOwner(l.owners, o,
                                      state.(preflights := state.preflights[t := Preflight(lease, false)])),
                  operations := l.operations + 1, generation := l.generation + 1, nextToken := t + 1),
               lease)
  }

  function DropPreflight(l: Ledger, p: PreflightLease): Ledger
    requires PreflightStored(l, p)
  {
    var state := OwnerAt(l, p.ownerId);
    l.(owners := WithOwner(l.owners, p.ownerId, state.(preflights := state.preflights - {p.token})))
  }

  function FinishPreflight(l: Ledger, p: PreflightLease): Ledger {
    if !PreflightStored(l, p) then l else DropPreflight(l, p).(operations := l.operations - 1)
  }

  /** A create that was in flight when its owner's release began may still claim its session. */
  predicate Grandfathered(l: Ledger, m: Method, o: OwnerId, request: Option<OwnerLease>) {
    && m.Create? && request.Some? && request.value.CreateLease? && request.value.ownerId == o
    && request.value.token in OwnerAt(l, o).creates
    && OwnerAt(l, o).release.Some? && request.value.token in OwnerAt(l, o).release.value.grandfathered
  }

  predicate Compatible(at: map<Token, SessionLease>, mode: Mode) {
    at == map[] || (mode.Shared? && forall t <- at :: at[t].mode.Shared?)
  }

  predicate Paired(l: Ledger, m: Method, request: Option<OwnerLease>) {
    m.Create? && request.Some? && OwnerRequestCurrent(l, request.value)
  }

  predicate Transferred(l: Ledger, m: Method, s: SessionId, o: OwnerId, request: Option<OwnerLease>,
                        preflight: Option<PreflightLease>) {
    && !Paired(l, m, request)
    && preflight.Some? && preflight.value.ownerId == o && preflight.value.sessionId == s
       && PreflightCurrent(l, preflight.value)
  }

  /** Some methods take no session lease at all, and an anonymous create takes its lease later. */
  predicate NeedsLease(m: Method, s: Option<SessionId>) { ModeOf(m).Some? && !(m.Create? && s.None?) }

  /** The checks a session request must pass before it is counted. */
  predicate SessionAdmissible(l: Ledger, m: Method, s: Option<SessionId>, o: OwnerId,
                              request: Option<OwnerLease>, preflight: Option<PreflightLease>)
    requires NeedsLease(m, s)
  {
    && (m.ReleaseSession? || OwnerAt(l, o).release.None? || Grandfathered(l, m, o, request))
    && s.Some? && Text.SafeIdentifier(s.value) && Compatible(LeasesAt(l, s.value), ModeOf(m).value)
    && (preflight.Some? ==> Transferred(l, m, s.value, o, request, preflight))
  }

  function BeginSession(l: Ledger, m: Method, s: Option<SessionId>, o: OwnerId,
                        request: Option<OwnerLease>, preflight: Option<PreflightLease>): Outcome<SessionHandle>
    requires NeedsLease(m, s)
  {
    if !SessionAdmissible(l, m, s, o, request, preflight) then Refused
    else
      var paired := Paired(l, m, request);
      var transferred := Transferred(l, m, s.value, o, request, preflight);
      if !paired && !transferred && !RoomForOperation(l) then Refused
      else
        var t := l.nextToken;
        var requestToken := if m.Create? && request.Some? then Some(request.value.token) else None;
        var lease := SessionLease(o, m, ModeOf(m).value, None, requestToken, !paired);
        var rest := if transferred then DropPreflight(l, preflight.value) else l;
        Admitted(rest.(leases := WithLeases(l.leases, s.value, LeasesAt(l, s.value)[t := lease]),
                       sessions := l.sessions + 1,
                       operations := if paired || transferred then l.operations else l.operations + 1,
                       nextToken := t + 1),
                 SessionHandle(s.value, t))
  }

  predicate Claimable(l: Ledger, h: SessionHandle) {
    && SessionLeaseStored(l, h, None)
    && var lease := LeasesAt(l, h.sessionId)[h.token];
       && lease.operation.Create? && lease.ownerRequestToken.Some?
       && var creates := OwnerAt(l, lease.ownerId).creates;
          && lease.ownerRequestToken.value in creates
          && (creates[lease.ownerRequestToken.value].None?
              || creates[lease.ownerRequestToken.value] == Some(h.sessionId))
          && h.sessionId !in l.claims
  }

  function ClaimSession(l: Ledger, h: SessionHandle): Outcome<Claim> {
    if !Claimable(l, h) then Refused
    else
      var lease := LeasesAt(l, h.sessionId)[h.token];
      var state := OwnerAt(l, lease.ownerId);
      var c := lease.ownerRequestToken.value;
      var release :=
        if state.release.Some? && c in state.release.value.grandfathered
        then Some(Release(state.release.value.token, state.release.value.grandfathered[c := Some(h.sessionId)]))
        else state.release;
      var claimed := OwnerState(state.creates[c := Some(h.sessionId)], state.preflights, release);
      var claim := Claim(h.token, lease.ownerId);
      Admitted(l.(owners := WithOwner(l.owners, lease.ownerId, claimed), claims := l.claims[h.sessionId := claim]),
               claim)
  }

  function BindProtocol(l: Ledger, h: SessionHandle, p: Protocol, durable: Option<OwnerId>): Outcome<()> {
    if !SessionRequestCurrent(l, h, None, durable) then Refused
    else
      var at := LeasesAt(l, h.sessionId);
      Admitted(l.(leases := WithLeases(l.leases, h.sessionId, at[h.token := at[h.token].(protocol := Some(p))])), ())
  }

  function FinishSession(l: Ledger, h: SessionHandle): Ledger {
    if !LeaseHeld(l, h) then l
    else
      var at := LeasesAt(l, h.sessionId);
      l.(leases := WithLeases(l.leases, h.sessionId, at - {h.token}),
         sessions := l.sessions - 1,
         operations := if at[h.token].countsOperation then l.operations - 1 else l.operations,
         claims := if h.sessionId in l.claims
             && l.claims[h.sessionId].token == h.token then l.claims - {h.sessionId} else l.claims)
  }

  // -------------------------------------------------------------------- runs

  datatype Op =
    | OpBeginCreate(owner: OwnerId)
    | OpBeginRelease(owner: OwnerId)
    | OpFinishOwner(ownerLease: OwnerLease)
    | OpBeginPreflight(owner: OwnerId, session: SessionId)
    | OpFinishPreflight(preflight: PreflightLease)
    | OpBeginSession(operation: Method, sessionId: Option<SessionId>, owner: OwnerId,
                     request: Option<OwnerLease>, transfer: Option<PreflightLease>)
    | OpClaim(handle: SessionHandle)
    | OpBind(handle: SessionHandle, protocol: Protocol, durable: Option<OwnerId>)
    | OpFinishSession(handle: SessionHandle)

  function After<T>(l: Ledger, outcome: Outcome<T>): Ledger { if outcome.Refused? then l else outcome.ledger }

  function Apply(l: Ledger, op: Op): Ledger {
    match op
    case OpBeginCreate(o) => After(l, BeginCreate(l, o))
    case OpBeginRelease(o) => After(l, BeginRelease(l, o))
    case OpFinishOwner(lease) => FinishOwner(l, lease)
    case OpBeginPreflight(o, s) => After(l, BeginPreflight(l, o, s))
    case OpFinishPreflight(p) => FinishPreflight(l, p)
    case OpBeginSession(m, s, o, request, transfer) =>
      if NeedsLease(m, s) then After(l, BeginSession(l, m, s, o, request, transfer)) else l
    case OpClaim(h) => After(l, ClaimSession(l, h))
    case OpBind(h, p, durable) => After(l, BindProtocol(l, h, p, durable))
    case OpFinishSession(h) => FinishSession(l, h)
  }

  function Run(l: Ledger, ops: seq<Op>): Ledger
    decreases |ops|
  {
    if ops == [] then l else Run(Apply(l, ops[0]), ops[1..])
  }
}
