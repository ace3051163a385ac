/** The broker's admission authority itself: maps and counters updated in place, one method a fence operation. */
module BrokerAdmissions {
  import opened Options
  import opened Admission
  import Text

  /** A call answers with a value or throws; a throwing call has changed nothing. */
  datatype Reply<+T> = Answer(value: T) | Threw

  class BrokerAdmission {
    var ownerStates: map<OwnerId, OwnerState>
    var sessionLeases: map<SessionId, map<Token, SessionLease>>
    var sessionClaims: map<SessionId, Claim>
    var activeSessionCount: int
    var activeOperationCount: int
    var activeReleaseCount: int
    var preflightGeneration: nat
    var nextToken: Token

    function State(): Ledger
      reads this
    {
      Ledger(ownerStates, sessionLeases, sessionClaims, activeSessionCount, activeOperationCount, activeReleaseCount,
             preflightGeneration, nextToken)
    }

    constructor ()
      ensures State() == EMPTY
    {
      ownerStates, sessionLeases, sessionClaims := map[], map[], map[];
      activeSessionCount, activeOperationCount, activeReleaseCount := 0, 0, 0;
      preflightGeneration, nextToken := 0, 0;
    }

    /** A fresh random token. */
    method DrawToken() returns (t: Token)
      modifies this`nextToken
      ensures t == old(nextToken) && nextToken == t + 1
    {
      t := nextToken;
      nextToken := nextToken + 1;
    }

    method ReserveOperation() returns (reserved: bool)
      modifies this`activeOperationCount
      ensures reserved == RoomForOperation(old(State()))
      ensures activeOperationCount == old(activeOperationCount) + if reserved then 1 else 0
    {
      reserved := activeOperationCount < MAX_OWNER_OPERATION_LEASES;
      if reserved { activeOperationCount := activeOperationCount + 1; }
    }

    /** Drops an owner's record once nothing of that owner is in flight. */
    method DropIdleOwner(ownerId: OwnerId)
      modifies this`ownerStates
      ensures ownerStates == WithOwner(old(ownerStates), ownerId, OwnerAt(old(State()), ownerId))
    {
      if ownerId in ownerStates {
        var state := ownerStates[ownerId];
        if state.release.None? && state.creates == map[] && state.preflights == map[] {
          ownerStates := ownerStates - {ownerId};
        }
      }
      assert ownerId !in old(ownerStates) ==> old(ownerStates) - {ownerId} == old(ownerStates);
    }

    method DropIdleSession(sessionId: SessionId)
      requires sessionId in sessionLeases
      modifies this`sessionLeases
      ensures sessionLeases == WithLeases(old(sessionLeases), sessionId, old(sessionLeases)[sessionId])
    {
      if sessionLeases[sessionId] == map[] { sessionLeases := sessionLeases - {sessionId}; }
    }

    method BeginOwnerRequest(m: Method, ownerId: OwnerId) returns (r: Reply<Option<OwnerLease>>)
      modifies this
      ensures m.Create? ==>
                match BeginCreate(old(State()), ownerId)
                case Refused => r == Threw && State() == old(State())
                case Admitted(ledger, lease) => r == Answer(Some(lease)) && State() == ledger
      ensures m.ReleaseOwner? ==>
                match BeginRelease(old(State()), ownerId)
                case Refused => r == Threw && State() == old(State())
                case Admitted(ledger, lease) => r == Answer(Some(lease)) && State() == ledger
      ensures !m.Create? && !m.ReleaseOwner? ==> r == Answer(None) && State() == old(State())
    {
      if !m.Create? && !m.ReleaseOwner? { return Answer(None); }
      var state := if ownerId in ownerStates then ownerStates[ownerId] else NO_OWNER;
      if state.release.Some? { return Threw; }
      if m.Create? {
        var reserved := ReserveOperation();
        if !reserved { return Threw; }
        var token := DrawToken();
        var created := state.(creates := state.creates[token := None]);
        assert token in created.creates;
        ownerStates := ownerStates[ownerId := created];
        return Answer(Some(CreateLease(ownerId, token)));
      }
      if activeReleaseCount >= MAX_CONCURRENT_OWNER_RELEASES { return Threw; }
      var token := DrawToken();
      activeReleaseCount := activeReleaseCount + 1;
      var retired := RetirePreflights(state.preflights);
      ownerStates := ownerStates[ownerId := OwnerState(state.creates, retired, Some(Release(token, state.creates)))];
      r := Answer(Some(ReleaseLease(ownerId, token)));
    }

    method RetirePreflights(preflights: map<Token, Preflight>) returns (retired: map<Token, Preflight>)
      ensures retired == Retire(preflights)
    {
      retired := preflights;
      var pending := preflights.Keys;
      while pending != {}
        invariant pending <= preflights.Keys && retired.Keys == preflights.Keys
        invariant forall t <- preflights ::
                      retired[t] == if t in pending then preflights[t] else preflights[t].(retired := true)
        decreases |pending|
      {
        var t :| t in pending;
        retired := retired[t := retired[t].(retired := true)];
        pending := pending - {t};
      }
    }

    method FinishOwnerRequest(lease: OwnerLease)
      modifies this
      ensures State() == FinishOwner(old(State()), lease)
    {
      if lease.ownerId !in ownerStates { return; }
      var state := ownerStates[lease.ownerId];
      if lease.CreateLease? && lease.token in state.creates {
        ownerStates := ownerStates[lease.ownerId := state.(creates := state.creates - {lease.token})];
        activeOperationCount := activeOperationCount - 1;
      } else if lease.ReleaseLease? && state.release.Some? && state.release.value.token == lease.token {
        ownerStates := ownerStates[lease.ownerId := state.(release := None)];
        activeReleaseCount := activeReleaseCount - 1;
      } else {
        return;
      }
      DropIdleOwner(lease.ownerId);
    }

    method BeginOwnershipPreflight(ownerId: OwnerId, sessionId: SessionId) returns (r: Reply<PreflightLease>)
      modifies this
      ensures match BeginPreflight(old(State()), ownerId, sessionId)
              case Refused => r == Threw && State() == old(State())
              case Admitted(ledger, lease) => r == Answer(lease) && State() == ledger
    {
      var state := if ownerId in ownerStates then ownerStates[ownerId] else NO_OWNER;
      if state.release.Some? { return Threw; }
      var reserved := ReserveOperation();
      if !reserved { return Threw; }
      var token := DrawToken();
      preflightGeneration := preflightGeneration + 1;
      var lease := PreflightLease(ownerId, sessionId, token, preflightGeneration);
      var begun := state.(preflights := state.preflights[token := Preflight(lease, false)]);
      assert token in begun.preflights;
      ownerStates := ownerStates[ownerId := begun];
      r := Answer(lease);
    }

    method FinishOwnershipPreflight(lease: PreflightLease)
      modifies this
      ensures State() == FinishPreflight(old(State()), lease)
    {
      if !PreflightStored(State(), lease) { return; }
      activeOperationCount := activeOperationCount - 1;
      RemovePreflight(lease);
    }

    method RemovePreflight(lease: PreflightLease)
      requires PreflightStored(State(), lease)
      modifies this`ownerStates
      ensures ownerStates == DropPreflight(old(State()), lease).owners
    {
      var state := ownerStates[lease.ownerId];
      ownerStates := ownerStates[lease.ownerId := state.(preflights := state.preflights - {lease.token})];
      DropIdleOwner(lease.ownerId);
    }

    method BeginSessionRequest(m: Method, sessionId: Option<SessionId>, ownerId: OwnerId,
                               ownerRequest: Option<OwnerLease>, ownershipPreflight: Option<PreflightLease>)
      returns (r: Reply<Option<SessionHandle>>)
      modifies this
      ensures !NeedsLease(m, sessionId) ==> r == Answer(None) && State() == old(State())
      ensures NeedsLease(m, sessionId) ==>
                match BeginSession(old(State()), m, sessionId, ownerId, ownerRequest, ownershipPreflight)
                case Refused => r == Threw && State() == old(State())
                case Admitted(ledger, handle) => r == Answer(Some(handle)) && State() == ledger
    {
      if ModeOf(m).None? || (m.Create? && sessionId.None?) { return Answer(None); }
      var admissible := CheckSession(m, sessionId, ownerId, ownerRequest, ownershipPreflight);
      if !admissible { return Threw; }
      var paired := Paired(State(), m, ownerRequest);
      var transferred := Transferred(State(), m, sessionId.value, ownerId, ownerRequest, ownershipPreflight);
      if !paired && !transferred {
        var reserved := ReserveOperation();
        if !reserved { return Threw; }
      }
      var handle := GrantSession(m, sessionId.value, ownerId, ownerRequest, ownershipPreflight, paired, transferred);
      r := Answer(Some(handle));
    }

    /** The admitted request's lease, which takes over a transferred preflight's count. */
    method GrantSession(m: Method, sessionId: SessionId, ownerId: OwnerId, ownerRequest: Option<OwnerLease>,
                        ownershipPreflight: Option<PreflightLease>, paired: bool, transferred: bool)
      returns (handle: SessionHandle)
      requires ModeOf(m).Some?
               && (transferred ==> ownershipPreflight.Some? && PreflightStored(State(), ownershipPreflight.value))
      modifies this
      ensures var t := old(nextToken);
              var requestToken := if m.Create? && ownerRequest.Some? then Some(ownerRequest.value.token) else None;
              var rest := if transferred then DropPreflight(old(State()), ownershipPreflight.value) else old(State());
              && handle == SessionHandle(sessionId, t)
              && State() == rest.(
                   leases := WithLeases(old(sessionLeases), sessionId,
                     LeasesAt(old(State()), sessionId)[t := SessionLease(ownerId, m, ModeOf(m).value, None,
                                                                         requestToken, !paired)]),
                   sessions := old(activeSessionCount) + 1, nextToken := t + 1)
    {
      var requestToken := if m.Create? && ownerRequest.Some? then Some(ownerRequest.value.token) else None;
      var token := StoreLease(sessionId, SessionLease(ownerId, m, ModeOf(m).value, None, requestToken, !paired));
      if transferred { RemovePreflight(ownershipPreflight.value); }
      handle := SessionHandle(sessionId, token);
    }

    function LeasesOf(sessionId: SessionId): (leases: map<Token, SessionLease>)
      reads this
      ensures leases == LeasesAt(State(), sessionId)
    {
      if sessionId in sessionLeases then sessionLeases[sessionId] else map[]
    }

    method CheckSession(m: Method, sessionId: Option<SessionId>, ownerId: OwnerId,
                        ownerRequest: Option<OwnerLease>, ownershipPreflight: Option<PreflightLease>)
      returns (admissible: bool)
      requires NeedsLease(m, sessionId)
      ensures admissible == SessionAdmissible(State(), m, sessionId, ownerId, ownerRequest, ownershipPreflight)
    {
      var releasing := ownerId in ownerStates && ownerStates[ownerId].release.Some?;
      if !m.ReleaseSession? && releasing && !Grandfathered(State(), m, ownerId, ownerRequest) { return false; }
      if sessionId.None? || !Text.SafeIdentifier(sessionId.value) { return false; }
      var leases := LeasesOf(sessionId.value);
      if leases != map[] && (ModeOf(m).value.Exclusive? || exists t <- leases :: leases[t].mode.Exclusive?) {
        return false;
      }
      admissible := ownershipPreflight.None?
                 || Transferred(State(), m, sessionId.value, ownerId, ownerRequest, ownershipPreflight);
    }

    method StoreLease(sessionId: SessionId, lease: SessionLease) returns (token: Token)
      modifies this`sessionLeases, this`activeSessionCount, this`nextToken
      ensures token == old(nextToken) && nextToken == token + 1
      ensures activeSessionCount == old(activeSessionCount) + 1
      ensures sessionLeases == WithLeases(old(sessionLeases), sessionId,
                                          LeasesAt(old(State()), sessionId)[token := lease])
    {
      token := DrawToken();
      var leases := if sessionId in sessionLeases then sessionLeases[sessionId] else map[];
      leases := leases[token := lease];
      assert token in leases;
      sessionLeases := sessionLeases[sessionId := leases];
      activeSessionCount := activeSessionCount + 1;
    }

    method ClaimSessionRequest(lease: SessionHandle) returns (r: Reply<Claim>)
      modifies this
      ensures match ClaimSession(old(State()), lease)
              case Refused => r == Threw && State() == old(State())
              case Admitted(ledger, claim) => r == Answer(claim) && State() == ledger
    {
      if !Claimable(State(), lease) { return Threw; }
      var stored := sessionLeases[lease.sessionId][lease.token];
      var state := ownerStates[stored.ownerId];
      var create := stored.ownerRequestToken.value;
      state := state.(creates := state.creates[create := Some(lease.sessionId)]);
      if state.release.Some? && create in state.release.value.grandfathered {
        var release := state.release.value;
        var recorded := release.grandfathered[create := Some(lease.sessionId)];
        state := state.(release := Some(release.(grandfathered := recorded)));
      }
      assert create in state.creates;
      ownerStates := ownerStates[stored.ownerId := state];
      var claim := Claim(lease.token, stored.ownerId);
      sessionClaims := sessionClaims[lease.sessionId := claim];
      r := Answer(claim);
    }

    method BindSessionProtocol(lease: SessionHandle, protocol: Protocol, durable: Option<OwnerId>)
        returns (r: Reply<()>)
      modifies this
      ensures match BindProtocol(old(State()), lease, protocol, durable)
              case Refused => r == Threw && State() == old(State())
              case Admitted(ledger, _) => r == Answer(()) && State() == ledger
    {
      if !SessionRequestCurrent(State(), lease, None, durable) { return Threw; }
      var leases := sessionLeases[lease.sessionId];
      leases := leases[lease.token := leases[lease.token].(protocol := Some(protocol))];
      assert lease.token in leases;
      sessionLeases := sessionLeases[lease.sessionId := leases];
      r := Answer(());
    }

    method FinishSessionRequest(lease: SessionHandle)
      modifies this
      ensures State() == FinishSession(old(State()), lease)
    {
      if lease.sessionId !in sessionLeases || lease.token !in sessionLeases[lease.sessionId] { return; }
      var leases := sessionLeases[lease.sessionId];
      sessionLeases := sessionLeases[lease.sessionId := leases - {lease.token}];
      activeSessionCount := activeSessionCount - 1;
      if leases[lease.token].countsOperation { activeOperationCount := activeOperationCount - 1; }
      DropIdleSession(lease.sessionId);
      if lease.sessionId in sessionClaims && sessionClaims[lease.sessionId].token == lease.token {
        sessionClaims := sessionClaims - {lease.sessionId};
      }
    }
  }
}
