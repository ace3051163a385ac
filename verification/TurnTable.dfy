/** The broker's turn and permission handlers as they run, each against its step in `Turns`. */
module TurnTables {
  import opened Options
  import opened Turns
  import opened TurnRuns

  lemma NothingLeft(t: Table)
    ensures Answer(t, t.pending.Keys) == t.(pending := map[], answers := t.answers + multiset(t.pending.Keys))
  {
    assert t.pending - t.pending.Keys == map[];
  }

  lemma LosesAll(t: Table)
    ensures LoseEngine(t) == t.(pending := map[], answers := t.answers + multiset(t.pending.Keys), turns := map[],
                                engineTurns := map[],
                                stopping := map[], topics := map[], live := None)
  {
    assert t.pending - t.pending.Keys == map[];
  }

  class TurnTable {
    var activeSessionSockets: map<SessionId, Turn>
    /**
     The protocol client's own turns: `beginTurn`, `armTurn`, `abortTurn`, `cancelTurn` and `releaseTurn` change
     these.
     */
    var protocolTurns: map<SessionId, EngineTurn>
    var permissionPending: map<nat, Permission>
    var nextPermissionId: nat
    var sessionLeases: set<Token>
    var inFlight: map<Token, Request>
    var stoppingSessions: map<SessionId, Token>
    var pendingConversationTopics: map<SessionId, Token>
    var protocolGeneration: Option<Generation>
    var terminalWinnerEvidence: set<(Generation, Token)>
    var writableSockets: set<Socket>
    var exactTurnReleaseSockets: set<Socket>
    ghost var answers: multiset<nat>
    ghost var log: seq<Effect>
    ghost var next: nat

    ghost function State(): Table
      reads this
    {
      Table(activeSessionSockets, protocolTurns, permissionPending, answers, nextPermissionId, sessionLeases,
            inFlight, stoppingSessions,
            pendingConversationTopics, protocolGeneration, terminalWinnerEvidence, writableSockets,
                exactTurnReleaseSockets, log, next)
    }

    constructor ()
      ensures State() == EMPTY
    {
      activeSessionSockets, protocolTurns, permissionPending, nextPermissionId := map[], map[], map[], 0;
      sessionLeases, inFlight, stoppingSessions, pendingConversationTopics := {}, map[], map[], map[];
      protocolGeneration, terminalWinnerEvidence, writableSockets, exactTurnReleaseSockets := None, {}, {}, {};
      answers, log, next := multiset{}, [], 0;
    }

    // ---------------------------------------------------------- permissions

    /** Denies a session's pending permissions of one turn, one by one. */
    method SettleTurnPermissions(s: SessionId, token: Token)
      modifies this`permissionPending, this`answers
      ensures State() == Turns.SettleTurnPermissions(old(State()), s, token)
    {
      var unseen := permissionPending.Keys;
      ghost var settled: set<nat> := {};
      while unseen != {}
        invariant unseen <= old(permissionPending).Keys && settled <= old(permissionPending).Keys
        invariant forall id :: id in settled <==> id in PermissionsOf(old(State()), s, token) && id !in unseen
        invariant permissionPending == old(permissionPending) - settled && answers == old(answers) + multiset(settled)
        decreases |unseen|
      {
        var id :| id in unseen;
        unseen := unseen - {id};
        var pending := permissionPending[id];
        if pending.session == s && pending.turnToken == token {
          permissionPending := permissionPending - {id};
          answers := answers + multiset{id};
          settled := settled + {id};
        }
      }
      assert settled == PermissionsOf(old(State()), s, token);
    }

    method SettleSocketPermissions(socket: Socket)
      modifies this`permissionPending, this`answers
      ensures State() == Answer(old(State()), PermissionsOn(old(State()), socket))
    {
      var unseen := permissionPending.Keys;
      ghost var settled: set<nat> := {};
      while unseen != {}
        invariant unseen <= old(permissionPending).Keys && settled <= old(permissionPending).Keys
        invariant forall id :: id in settled <==> id in PermissionsOn(old(State()), socket) && id !in unseen
        invariant permissionPending == old(permissionPending) - settled && answers == old(answers) + multiset(settled)
        decreases |unseen|
      {
        var id :| id in unseen;
        unseen := unseen - {id};
        if permissionPending[id].socket == socket {
          permissionPending := permissionPending - {id};
          answers := answers + multiset{id};
          settled := settled + {id};
        }
      }
      assert settled == PermissionsOn(old(State()), socket);
    }

    method RequestPermission(s: SessionId)
      modifies this`permissionPending, this`nextPermissionId, this`answers
      ensures State() == AskPermission(old(State()), s)
      ensures old(Held(State())) ==> Held(State())
    {
      AskHolds(State(), s);
      if s !in protocolTurns || s !in activeSessionSockets { return; }
      var active := activeSessionSockets[s];
      if active.releasing || active.socket.None? || active.socket.value !in writableSockets { return; }
      var id := nextPermissionId;
      nextPermissionId := nextPermissionId + 1;
      if |permissionPending| >= MAX_PENDING_PERMISSIONS {
        answers := answers + multiset{id};
        return;
      }
      permissionPending := permissionPending[id := Permission(s, active.token, active.socket.value)];
    }

    /** A client's answer counts only for a pending request of its own socket. */
    method AnswerPermission(id: nat, socket: Socket) returns (accepted: bool)
      modifies this`permissionPending, this`answers
      ensures State() == Apply(old(State()), Step.AnswerPermission(id, socket))
      ensures accepted <==> id in old(permissionPending) && old(permissionPending)[id].socket == socket
      ensures old(Held(State())) ==> Held(State())
    {
      AnswerOneHolds(State(), id, socket);
      if id !in permissionPending || permissionPending[id].socket != socket { return false; }
      permissionPending := permissionPending - {id};
      answers := answers + multiset{id};
      accepted := true;
    }

    /** The timeout of one request: it denies only what still waits. */
    method ExpirePermission(id: nat)
      modifies this`permissionPending, this`answers
      ensures State() == Apply(old(State()), Step.ExpirePermission(id))
      ensures old(Held(State())) ==> Held(State())
    {
      AnswerOneHolds(State(), id, 0);
      if id in permissionPending {
        permissionPending := permissionPending - {id};
        answers := answers + multiset{id};
      }
    }

    /** Its turns lose a closed socket, but go on. */
    method DetachSocket(socket: Socket)
      modifies this`activeSessionSockets
      ensures activeSessionSockets == Detach(old(activeSessionSockets), socket)
    {
      var unseen := activeSessionSockets.Keys;
      while unseen != {}
        invariant unseen <= activeSessionSockets.Keys == old(activeSessionSockets).Keys
        invariant forall s <- activeSessionSockets :: activeSessionSockets[s] ==
                    if s in unseen then old(activeSessionSockets)[s] else Detach(old(activeSessionSockets), socket)[s]
        decreases |unseen|
      {
        var s :| s in unseen;
        unseen := unseen - {s};
        var active := activeSessionSockets[s];
        if active.socket == Some(socket) { activeSessionSockets := activeSessionSockets[s := active.(socket := None)]; }
      }
    }

    method CloseSocket(socket: Socket)
      modifies this`permissionPending, this`answers, this`activeSessionSockets, this`writableSockets
      ensures State() == Close(old(State()), socket)
      ensures old(Held(State())) ==> Held(State())
    {
      if Held(State()) { CloseKeeps(State(), socket); }
      SettleSocketPermissions(socket);
      writableSockets := writableSockets - {socket};
      DetachSocket(socket);
    }

    // --------------------------------------------------------- ending turns

    method SettleAllPermissions()
      modifies this`permissionPending, this`answers
      ensures permissionPending == map[] && answers == old(answers) + multiset(old(permissionPending).Keys)
    {
      ghost var settled: set<nat> := {};
      while permissionPending != map[]
        invariant settled <= old(permissionPending).Keys
                  && permissionPending.Keys == old(permissionPending).Keys - settled
        invariant answers == old(answers) + multiset(settled)
        decreases |permissionPending|
      {
        var id :| id in permissionPending;
        permissionPending := permissionPending - {id};
        answers := answers + multiset{id};
        settled := settled + {id};
      }
      assert settled == old(permissionPending).Keys;
    }

    /** The broker's own close denies whatever waits; its turns go with the engine. */
    method CloseBroker()
      modifies this`permissionPending, this`answers
      ensures State() == Apply(old(State()), BrokerCloses)
    {
      NothingLeft(State());
      SettleAllPermissions();
    }

    method ForgetEngine()
      modifies this`activeSessionSockets, this`protocolTurns, this`stoppingSessions, this`pendingConversationTopics,
               this`protocolGeneration
      ensures State() == old(State()).(turns := map[], engineTurns := map[], stopping := map[], topics := map[],
                                       live := None)
    {
      activeSessionSockets, protocolTurns, stoppingSessions, pendingConversationTopics := map[], map[], map[], map[];
      protocolGeneration := None;
    }

    /** The engine is gone: with it every turn, every permission and every request that waits for it. */
    method ClearProtocolGeneration()
      requires protocolGeneration.Some?
      modifies this`permissionPending, this`answers, this`activeSessionSockets, this`protocolTurns,
               this`stoppingSessions,
               this`pendingConversationTopics, this`protocolGeneration
      ensures State() == LoseEngine(old(State()))
      ensures old(Held(State())) ==> Held(State())
    {
      if Held(State()) { LoseKeeps(State()); }
      LosesAll(State());
      SettleAllPermissions();
      ForgetEngine();
    }

    /** The turn's own terminal event, unless its socket is to release turns itself. */
    method ObserveTerminal(s: SessionId)
      modifies this`permissionPending, this`answers, this`activeSessionSockets, this`protocolTurns,
               this`terminalWinnerEvidence
      ensures State() == OnTerminal(old(State()), s) && TerminalObserved(old(State()), State(), s)
      ensures old(Held(State())) ==> Held(State())
    {
      TerminalEndsIff(State(), s);
      EndTerminalTurn(s);
    }

    method EndTerminalTurn(s: SessionId)
      modifies this`permissionPending, this`answers, this`activeSessionSockets, this`protocolTurns,
               this`terminalWinnerEvidence
      ensures State() == OnTerminal(old(State()), s)
      ensures old(Held(State())) ==> Held(State())
    {
      TerminalHolds(State(), s);
      if protocolGeneration.None? || s !in protocolTurns || protocolTurns[s].Sending? || s !in activeSessionSockets {
        return;
      }
      var active := activeSessionSockets[s];
      if active.boundary != Some(protocolTurns[s].boundary) { return; }
      if active.socket.Some? && active.socket.value in exactTurnReleaseSockets { return; }
      SettleTurnPermissions(s, active.token);
      protocolTurns, activeSessionSockets := protocolTurns - {s}, activeSessionSockets - {s};
      terminalWinnerEvidence := terminalWinnerEvidence + {(protocolGeneration.value, active.token)};
    }

    /**
     Ends the captured turn if it is still the current one; otherwise says whether it ended by its own terminal event.
     */
    method SettleAcknowledgedStop(s: SessionId, generation: Generation, captured: Option<Turn>) returns (settled: bool)
      modifies this`permissionPending, this`answers, this`activeSessionSockets, this`protocolTurns
      ensures settled == StopSettles(old(State()), Stop(s, Some(generation), captured))
      ensures State() == if captured.Some?
              && Current(old(State()), s, captured.value.token) then EndTurn(old(State()), s) else old(State())
    {
      if captured.None? { return s !in activeSessionSockets; }
      var token := captured.value.token;
      if s !in activeSessionSockets || activeSessionSockets[s].token != token {
        return s !in activeSessionSockets && (generation, token) in terminalWinnerEvidence;
      }
      protocolTurns := protocolTurns - {s};
      activeSessionSockets := activeSessionSockets - {s};
      SettleTurnPermissions(s, token);
      settled := true;
    }

    // ------------------------------------------------------------- requests

    /** `session/send` after its last await before the upstream request. The engine refuses a second turn. */
    method BeginSend(token: Token, s: SessionId, socket: Socket)
      modifies this`protocolTurns, this`activeSessionSockets, this`inFlight
      ensures State() == StartSend(old(State()), token, s, socket)
      ensures old(Held(State())) ==> Held(State())
    {
      if Held(State()) { StartSendKeeps(State(), token, s, socket); }
      if token !in sessionLeases || token in inFlight || protocolGeneration.None? || s in protocolTurns { return; }
      protocolTurns := protocolTurns[s := Sending];
      activeSessionSockets := activeSessionSockets[s := Turn(token, Some(socket), false, None)];
      inFlight := inFlight[token := Send(s, protocolGeneration.value)];
    }

    /** The failure handler. It aborts the engine's turn of the session without looking whose it is. */
    method UndoSend(token: Token)
      requires token in inFlight && inFlight[token].Send?
      modifies this`protocolTurns, this`activeSessionSockets, this`inFlight, this`permissionPending, this`answers
      ensures State() == FailSend(old(State()), token)
    {
      var request := inFlight[token];
      var s := request.session;
      SettleTurnPermissions(s, token);
      protocolTurns := if protocolGeneration == Some(request.generation) then protocolTurns - {s} else protocolTurns;
      activeSessionSockets := if s in activeSessionSockets && activeSessionSockets[s].token == token
                              then activeSessionSockets - {s} else activeSessionSockets;
      inFlight := inFlight - {token};
    }

    /** The upstream answer of a send: arm the turn it began, or undo it. */
    method AnswerSend(token: Token, valid: bool, boundary: Boundary) returns (armed: bool)
      requires token in inFlight && inFlight[token].Send?
      modifies this`protocolTurns, this`activeSessionSockets, this`inFlight, this`permissionPending, this`answers,
               this`log
      ensures State() == FinishSend(old(State()), token, valid, boundary)
      ensures armed == SendSucceeds(old(State()), token, valid)
      ensures old(Held(State())) ==>
                  (Held(State()) <==> old(Harmless(State(), Step.AnswerSend(token, valid, boundary))))
    {
      SendHoldsIff(State(), token, valid, boundary);
      var request := inFlight[token];
      var s := request.session;
      armed := valid && token in sessionLeases && protocolGeneration == Some(request.generation)
            && s in activeSessionSockets && activeSessionSockets[s].token == token && s in protocolTurns
               && protocolTurns[s].Sending?;
      if !armed {
        UndoSend(token);
        return;
      }
      ArmTurn(token, boundary);
    }

    method ArmTurn(token: Token, boundary: Boundary)
      requires token in inFlight && inFlight[token].Send? && SendSucceeds(State(), token, true)
      modifies this`protocolTurns, this`activeSessionSockets, this`inFlight, this`log
      ensures State() == FinishSend(old(State()), token, true, boundary)
    {
      var s := inFlight[token].session;
      activeSessionSockets := activeSessionSockets[s := activeSessionSockets[s].(boundary := Some(boundary))];
      protocolTurns := protocolTurns[s := Armed(boundary)];
      inFlight := inFlight - {token};
      log := log + [ArmedTurn(token)];
    }

    /** `session/stop` captures the turn it is issued against before its first await. */
    method BeginStop(token: Token, s: SessionId)
      modifies this`stoppingSessions, this`inFlight
      ensures State() == StartStop(old(State()), token, s)
    {
      if token !in sessionLeases || token in inFlight { return; }
      var captured := if s in activeSessionSockets then Some(activeSessionSockets[s]) else None;
      stoppingSessions := stoppingSessions[s := token];
      inFlight := inFlight[token := Stop(s, None, captured)];
    }

    /** Three checks of the token stand before anything is settled. */
    method AcknowledgeStop(token: Token, valid: bool) returns (acknowledged: bool)
      requires token in inFlight && inFlight[token].Stop?
      modifies this`protocolTurns, this`activeSessionSockets, this`permissionPending, this`answers
      ensures acknowledged == StopAcknowledged(old(State()), token, valid)
      ensures var r := inFlight[token];
              State() == if acknowledged && r.captured.Some? && Current(old(State()), r.session, r.captured.value.token)
                         then EndTurn(old(State()), r.session) else old(State())
    {
      var request := inFlight[token];
      var s := request.session;
      if !valid || request.bound.None? || token !in sessionLeases || protocolGeneration != request.bound
         || s !in stoppingSessions || stoppingSessions[s] != token {
        return false;
      }
      acknowledged := SettleAcknowledgedStop(s, request.bound.value, request.captured);
    }

    method AnswerStop(token: Token, valid: bool) returns (acknowledged: bool)
      requires token in inFlight && inFlight[token].Stop?
      modifies this`protocolTurns, this`activeSessionSockets, this`inFlight, this`permissionPending, this`answers,
               this`log, this`stoppingSessions
      ensures State() == FinishStop(old(State()), token, valid)
      ensures acknowledged == StopAcknowledged(old(State()), token, valid)
      ensures old(Held(State())) ==> Held(State())
    {
      StopHolds(State(), token, valid);
      var request := inFlight[token];
      var s := request.session;
      ghost var ends := request.captured.Some? && Current(State(), s, request.captured.value.token);
      acknowledged := AcknowledgeStop(token, valid);
      if acknowledged { log := log + [SettledStop(token, if ends then Some(request.captured.value.token) else None)]; }
      ForgetStop(token, s);
    }

    method ForgetStop(token: Token, s: SessionId)
      modifies this`stoppingSessions, this`inFlight
      ensures State() == DropStopping(old(State()), s, token).(requests := old(inFlight) - {token})
    {
      if s in stoppingSessions && stoppingSessions[s] == token { stoppingSessions := stoppingSessions - {s}; }
      inFlight := inFlight - {token};
    }

    /** The first part of an exact release: mark the turn, then deny what it still asks. */
    method BeginReleaseTurn(token: Token, s: SessionId, socket: Socket, boundary: Boundary) returns (admitted: bool)
      requires token in sessionLeases && token !in inFlight
      modifies this`activeSessionSockets, this`inFlight, this`permissionPending, this`answers
      ensures State() == StartReleaseTurn(old(State()), token, s, socket, boundary)
      ensures old(Held(State())) ==> Held(State())
    {
      if Held(State()) { ReleaseKeeps(State(), token, s, socket, boundary); }
      if protocolGeneration.None? || s !in activeSessionSockets { return false; }
      var active := activeSessionSockets[s];
      if active.socket != Some(socket) || active.boundary != Some(boundary) { return false; }
      activeSessionSockets := activeSessionSockets[s := active.(releasing := true)];
      inFlight := inFlight[token := ReleaseTurn(s, protocolGeneration.value, active.token, socket, boundary)];
      SettleTurnPermissions(s, active.token);
      admitted := true;
    }

    /** The second part, after the drain: release the very turn that was marked, or unmark it. */
    method FinishReleaseTurn(token: Token) returns (releasedTurn: bool)
      requires token in inFlight && inFlight[token].ReleaseTurn?
      requires protocolGeneration == Some(inFlight[token].generation) ==> Drained(State(), inFlight[token].session)
      modifies this`activeSessionSockets, this`protocolTurns, this`inFlight
      ensures State() == FinishRelease(old(State()), token)
      ensures old(Held(State())) ==> Held(State())
    {
      if Held(State()) { FinishReleaseKeeps(State(), token); }
      var request := inFlight[token];
      var s := request.session;
      inFlight := inFlight - {token};
      if s !in activeSessionSockets || activeSessionSockets[s].token != request.turnToken { return false; }
      var active := activeSessionSockets[s];
      if token in sessionLeases && protocolGeneration == Some(request.generation)
         && active.socket == Some(request.socket) && active.boundary == Some(request.boundary) {
        protocolTurns := protocolTurns - {s};
        activeSessionSockets := activeSessionSockets - {s};
        return true;
      }
      activeSessionSockets := activeSessionSockets[s := active.(releasing := false)];
      releasedTurn := false;
    }
  }
}
