/** What the interleavings of the turn machine keep, and the one handler that can break it. */
module TurnRuns {
  import opened Options
  import opened Turns

  // ------------------------------------------------------------- invariants

  /** A pending permission belongs to its session's active turn, which is not being released. */
  ghost predicate PermissionsCurrent(t: Table) {
    forall id <- t.pending :: PermissionCurrent(t, t.pending[id])
  }

  ghost predicate PermissionCurrent(t: Table, p: Permission) {
    p.session in t.turns && t.turns[p.session].token == p.turnToken
    && t.turns[p.session].socket == Some(p.socket) && !t.turns[p.session].releasing
  }

  /** Every permission id issued so far is pending or answered, and answered once. */
  ghost predicate AnsweredOnce(t: Table) {
    && (forall id: nat :: t.answers[id] == if id < t.nextPermissionId && id !in t.pending then 1 else 0)
    && (forall id <- t.pending :: id < t.nextPermissionId)
    && |t.pending| <= MAX_PENDING_PERMISSIONS
  }

  /**
   A permission whose session the engine holds a turn of cannot lose its turn to a new send: the engine refuses that.
   */
  ghost predicate PermissionHeld(t: Table, p: Permission) { PermissionCurrent(t, p) && p.session in t.engineTurns }

  ghost predicate Held(t: Table) { forall id <- t.pending :: PermissionHeld(t, t.pending[id]) }

  /**
   A failing send is harmless unless it takes away the engine's turn under a permission that another turn asks for.
   */
  ghost predicate Harmless(t: Table, step: Step) {
    step.AnswerSend? && step.token in t.requests && t.requests[step.token].Send?
        && !SendSucceeds(t, step.token, step.valid) ==>
      var r := t.requests[step.token];
      t.live == Some(r.generation) ==>
          forall id <- t.pending :: t.pending[id].session == r.session ==> t.pending[id].turnToken == step.token
  }

  // ------------------------------------------------- each kind of step, small

  lemma AnswerKeepsCount(t: Table, ids: set<nat>)
    requires AnsweredOnce(t) && ids <= t.pending.Keys
    ensures AnsweredOnce(Answer(t, ids))
  {
    var after := Answer(t, ids);
    assert after.pending.Keys == t.pending.Keys - ids;
    assert |after.pending| == |after.pending.Keys| && |t.pending| == |t.pending.Keys|;
  }

  lemma IssueCounts(t: Table, u: Table, p: Permission)
    requires AnsweredOnce(t) && |t.pending| < MAX_PENDING_PERMISSIONS
    requires u.pending == t.pending[t.nextPermissionId := p] && u.answers == t.answers
             && u.nextPermissionId == t.nextPermissionId + 1
    ensures AnsweredOnce(u)
  {
    assert |u.pending| == |t.pending| + 1;
  }

  lemma DenyCounts(t: Table, u: Table)
    requires AnsweredOnce(t)
    requires u.pending == t.pending && u.answers == t.answers + multiset{t.nextPermissionId}
             && u.nextPermissionId == t.nextPermissionId + 1
    ensures AnsweredOnce(u)
  {}

  lemma AskCounts(t: Table, s: SessionId)
    requires AnsweredOnce(t)
    ensures AnsweredOnce(AskPermission(t, s))
  {
    var after := AskPermission(t, s);
    if after.nextPermissionId != t.nextPermissionId {
      if |t.pending| < MAX_PENDING_PERMISSIONS {
        IssueCounts(t, after, Permission(s, t.turns[s].token, t.turns[s].socket.value));
      } else {
        DenyCounts(t, after);
      }
    }
  }

  /** Permissions stay held when those that remain were pending before and their turns were left alone. */
  lemma HeldStays(t: Table, u: Table)
    requires Held(t)
    requires forall id <- u.pending :: id in t.pending && u.pending[id] == t.pending[id]
    requires forall id <- u.pending :: var p := t.pending[id];
               (p.session in t.turns ==> p.session in u.turns && u.turns[p.session] == t.turns[p.session])
               && (p.session in t.engineTurns ==> p.session in u.engineTurns)
    ensures Held(u)
  {
    forall id <- u.pending ensures PermissionHeld(u, u.pending[id]) { assert PermissionHeld(t, t.pending[id]); }
  }

  /** A step that leaves turns and permissions alone. */
  ghost predicate SameCore(t: Table, u: Table) {
    u.turns == t.turns && u.engineTurns == t.engineTurns && u.pending == t.pending
  }

  lemma CoreKeeps(t: Table, u: Table)
    requires Held(t) && SameCore(t, u)
    ensures Held(u)
  {
    HeldStays(t, u);
  }

  lemma AskKeeps(t: Table, s: SessionId)
    requires Held(t)
    ensures Held(AskPermission(t, s))
  {
    var u := AskPermission(t, s);
    forall id <- u.pending ensures PermissionHeld(u, u.pending[id]) {
      if id in t.pending && u.pending[id] == t.pending[id] { assert PermissionHeld(t, t.pending[id]); }
    }
  }

  lemma AnswerKeeps(t: Table, ids: set<nat>)
    requires Held(t) && ids <= t.pending.Keys
    ensures Held(Answer(t, ids))
  {
    HeldStays(t, Answer(t, ids));
  }

  lemma CloseKeeps(t: Table, socket: Socket)
    requires Held(t)
    ensures Held(Close(t, socket))
  {
    var u := Close(t, socket);
    forall id <- u.pending ensures PermissionHeld(u, u.pending[id]) { assert PermissionHeld(t, t.pending[id]); }
  }

  /** All of a session's permissions belong to its turn, so settling that turn's leaves none. */
  lemma SettleLeavesNone(t: Table, s: SessionId)
    requires Held(t) && s in t.turns
    ensures Drained(SettleTurnPermissions(t, s, t.turns[s].token), s)
  {
    var u := SettleTurnPermissions(t, s, t.turns[s].token);
    forall id <- u.pending ensures u.pending[id].session != s { assert PermissionHeld(t, t.pending[id]); }
  }

  lemma EndKeeps(t: Table, s: SessionId)
    requires Held(t) && s in t.turns
    ensures Held(EndTurn(t, s)) && Drained(EndTurn(t, s), s)
  {
    SettleLeavesNone(t, s);
    HeldStays(t, EndTurn(t, s));
  }

  lemma LoseKeeps(t: Table)
    requires Held(t)
    ensures Held(LoseEngine(t)) && LoseEngine(t).pending == map[]
  {}

  /** Every step keeps permissions with their turns; only a failing send can cut a permission's link to the engine. */
  lemma FailSendKeepsIff(t: Table, token: Token)
    requires Held(t) && token in t.requests && t.requests[token].Send?
    ensures var r := t.requests[token];
            Held(FailSend(t, token)) <==>
              (t.live == Some(r.generation) ==>
                forall id <- t.pending :: t.pending[id].session == r.session ==> t.pending[id].turnToken == token)
    ensures PermissionsCurrent(FailSend(t, token))
  {
    var u, s := FailSend(t, token), t.requests[token].session;
    forall id <- u.pending ensures PermissionCurrent(u, u.pending[id]) { assert PermissionHeld(t, t.pending[id]); }
    forall id <- t.pending | t.pending[id].session == s && t.pending[id].turnToken != token ensures id in u.pending
        && u.pending[id] == t.pending[id] {}
    if t.live == Some(t.requests[token].generation)
        && exists id <- t.pending :: t.pending[id].session == s && t.pending[id].turnToken != token {
      var id :| id in t.pending && t.pending[id].session == s && t.pending[id].turnToken != token;
      assert !PermissionHeld(u, u.pending[id]);
    } else {
      forall id <- u.pending ensures PermissionHeld(u, u.pending[id]) { assert PermissionHeld(t, t.pending[id]); }
    }
  }

  lemma ReleaseKeeps(t: Table, token: Token, s: SessionId, socket: Socket, boundary: Boundary)
    requires Held(t)
    ensures Held(StartReleaseTurn(t, token, s, socket, boundary))
  {
    if s in t.turns {
      SettleLeavesNone(t, s);
      HeldStays(t, StartReleaseTurn(t, token, s, socket, boundary));
    }
  }

  lemma EndByStopKeeps(t: Table, token: Token, valid: bool)
    requires Held(t) && token in t.requests && t.requests[token].Stop?
    ensures Held(EndByStop(t, token, valid))
  {
    if StopEndsTurn(t, token, valid) { EndKeeps(t, t.requests[token].session); }
  }

  lemma FinishStopCore(t: Table, token: Token, valid: bool)
    requires token in t.requests && t.requests[token].Stop?
    ensures SameCore(EndByStop(t, token, valid), FinishStop(t, token, valid))
            && SameCounts(EndByStop(t, token, valid), FinishStop(t, token, valid))
  {}

  lemma FinishStopKeeps(t: Table, token: Token, valid: bool)
    requires Held(t)
    ensures Held(FinishStop(t, token, valid))
  {
    if token in t.requests && t.requests[token].Stop? {
      EndByStopKeeps(t, token, valid);
      FinishStopCore(t, token, valid);
      CoreKeeps(EndByStop(t, token, valid), FinishStop(t, token, valid));
    }
  }

  /** A send takes over no session whose turn has a permission waiting: the engine refuses a second turn. */
  lemma StartSendKeeps(t: Table, token: Token, s: SessionId, socket: Socket)
    requires Held(t)
    ensures Held(StartSend(t, token, s, socket))
    ensures StartSend(t, token, s, socket) != t ==> s !in t.engineTurns && Drained(t, s)
  {
    var u := StartSend(t, token, s, socket);
    if u != t {
      forall id <- t.pending ensures t.pending[id].session != s { assert PermissionHeld(t, t.pending[id]); }
      HeldStays(t, u);
    }
  }

  lemma ArmKeeps(t: Table, token: Token, boundary: Boundary)
    requires Held(t) && token in t.requests && t.requests[token].Send? && SendSucceeds(t, token, true)
    ensures Held(FinishSend(t, token, true, boundary))
  {
    var u := FinishSend(t, token, true, boundary);
    forall id <- u.pending ensures PermissionHeld(u, u.pending[id]) { assert PermissionHeld(t, t.pending[id]); }
  }

  lemma DropTurnKeeps(t: Table, u: Table, s: SessionId)
    requires Held(t) && Drained(t, s)
    requires u.turns == t.turns - {s} && u.engineTurns == t.engineTurns - {s} && u.pending == t.pending
    ensures Held(u)
  {
    HeldStays(t, u);
  }

  lemma ResumeTurnKeeps(t: Table, u: Table, s: SessionId)
    requires Held(t) && s in t.turns && u.engineTurns == t.engineTurns && u.pending == t.pending
    requires u.turns == t.turns[s := t.turns[s].(releasing := false)]
    ensures Held(u)
  {
    forall id <- u.pending ensures PermissionHeld(u, u.pending[id]) { assert PermissionHeld(t, t.pending[id]); }
  }

  /** The exact release after its drain: the turn goes with no permission waiting, or it is unmarked. */
  lemma FinishReleaseKeeps(t: Table, token: Token)
    requires Held(t)
    ensures Held(FinishRelease(t, token))
  {
    if token in t.requests && t.requests[token].ReleaseTurn?
        && Current(t, t.requests[token].session, t.requests[token].turnToken) {
      var u, r := FinishRelease(t, token), t.requests[token];
      if u == t { return; }
      if Admitted(t, token, r.generation) && t.turns[r.session].socket == Some(r.socket)
          && t.turns[r.session].boundary == Some(r.boundary) {
        DropTurnKeeps(t, u, r.session);
      } else {
        ResumeTurnKeeps(t, u, r.session);
      }
    } else {
      CoreKeeps(t, FinishRelease(t, token));
    }
  }

  lemma TerminalKeeps(t: Table, s: SessionId)
    requires Held(t)
    ensures Held(OnTerminal(t, s))
  {
    if s in t.turns {
      EndKeeps(t, s);
      if OnTerminal(t, s) != t { CoreKeeps(EndTurn(t, s), OnTerminal(t, s)); }
    }
  }

  lemma FinishSendKeepsIff(t: Table, token: Token, valid: bool, boundary: Boundary)
    requires Held(t)
    ensures Held(FinishSend(t, token, valid, boundary)) <==> Harmless(t, AnswerSend(token, valid, boundary))
    ensures PermissionsCurrent(FinishSend(t, token, valid, boundary))
  {
    var u := FinishSend(t, token, valid, boundary);
    if token in t.requests && t.requests[token].Send? {
      if SendSucceeds(t, token, valid) { ArmKeeps(t, token, boundary); } else { FailSendKeepsIff(t, token); }
    }
    if Held(u) { HeldAreCurrent(u); }
  }

  lemma HeldAreCurrent(t: Table)
    requires Held(t)
    ensures PermissionsCurrent(t)
  {
    forall id <- t.pending ensures PermissionCurrent(t, t.pending[id]) { assert PermissionHeld(t, t.pending[id]); }
  }

  lemma NameStepsKeepCore(t: Table, step: Step)
    requires step.Connect? || step.EngineLive? || step.Grant? || step.DropLease?
    ensures SameCore(t, Apply(t, step))
  {
    match step
    case Connect(_) =>
    case EngineLive =>
    case Grant =>
    case DropLease(_) =>
  }

  lemma RequestStepsKeepCore(t: Table, step: Step)
    requires step.BeginStop? || step.BindStop? || step.BeginSubscribe? || step.AnswerSubscribe?
    ensures SameCore(t, Apply(t, step))
  {
    match step
    case BeginStop(_, _) =>
    case BindStop(_) =>
    case BeginSubscribe(_, _) =>
    case AnswerSubscribe(_, _) =>
  }

  lemma AnswerOneKeeps(t: Table, id: nat, socket: Socket)
    requires Held(t)
    ensures Held(Apply(t, AnswerPermission(id, socket))) && Held(Apply(t, ExpirePermission(id)))
  {
    if id in t.pending { AnswerKeeps(t, {id}); }
  }

  lemma StepKeeps(t: Table, step: Step)
    requires Held(t) && !step.AnswerSend?
    ensures Held(Apply(t, step))
  {
    var u := Apply(t, step);
    match step
    case EngineLost => LoseKeeps(t);
    case Terminal(s) => TerminalKeeps(t, s);
    case RequestPermission(s) => AskKeeps(t, s);
    case AnswerPermission(id, socket) => AnswerOneKeeps(t, id, socket);
    case ExpirePermission(id) => AnswerOneKeeps(t, id, 0);
    case CloseSocket(socket) => CloseKeeps(t, socket);
    case BrokerCloses => AnswerKeeps(t, t.pending.Keys);
    case BeginSend(token, s, socket) => StartSendKeeps(t, token, s, socket);
    case AnswerStop(token, valid) => FinishStopKeeps(t, token, valid);
    case BeginReleaseTurn(token, s, socket, boundary) => ReleaseKeeps(t, token, s, socket, boundary);
    case FinishReleaseTurn(token) => FinishReleaseKeeps(t, token);
    case Connect(_) => NameStepsKeepCore(t, step); CoreKeeps(t, u);
    case EngineLive => NameStepsKeepCore(t, step); CoreKeeps(t, u);
    case Grant => NameStepsKeepCore(t, step); CoreKeeps(t, u);
    case DropLease(_) => NameStepsKeepCore(t, step); CoreKeeps(t, u);
    case BeginStop(_, _) => RequestStepsKeepCore(t, step); CoreKeeps(t, u);
    case BindStop(_) => RequestStepsKeepCore(t, step); CoreKeeps(t, u);
    case BeginSubscribe(_, _) => RequestStepsKeepCore(t, step); CoreKeeps(t, u);
    case AnswerSubscribe(_, _) => RequestStepsKeepCore(t, step); CoreKeeps(t, u);
  }

  /** Each of the class's handlers, as an implication. */
  lemma TerminalHolds(t: Table, s: SessionId)
    ensures Held(t) ==> Held(OnTerminal(t, s))
  {
    if Held(t) { TerminalKeeps(t, s); }
  }

  lemma AskHolds(t: Table, s: SessionId)
    ensures Held(t) ==> Held(AskPermission(t, s))
  {
    if Held(t) { AskKeeps(t, s); }
  }

  lemma AnswerOneHolds(t: Table, id: nat, socket: Socket)
    ensures Held(t) ==> Held(Apply(t, AnswerPermission(id, socket))) && Held(Apply(t, ExpirePermission(id)))
  {
    if Held(t) { AnswerOneKeeps(t, id, socket); }
  }

  lemma StopHolds(t: Table, token: Token, valid: bool)
    ensures Held(t) ==> Held(FinishStop(t, token, valid))
  {
    if Held(t) { FinishStopKeeps(t, token, valid); }
  }

  lemma SendHoldsIff(t: Table, token: Token, valid: bool, boundary: Boundary)
    ensures Held(t) ==> (Held(FinishSend(t, token, valid, boundary)) <==>
                         Harmless(t, AnswerSend(token, valid, boundary)))
  {
    if Held(t) { FinishSendKeepsIff(t, token, valid, boundary); }
  }

  /**
   No single step takes a held permission from its turn, and a step keeps the permissions held exactly when it is
   harmless.
   */
  lemma StepKeepsIff(t: Table, step: Step)
    requires Held(t)
    ensures Held(Apply(t, step)) <==> Harmless(t, step)
    ensures PermissionsCurrent(Apply(t, step))
  {
    if step.AnswerSend? {
      FinishSendKeepsIff(t, step.token, step.valid, step.boundary);
    } else {
      StepKeeps(t, step);
      HeldAreCurrent(Apply(t, step));
    }
  }

  // ------------------------------------------------------------ permissions

  ghost predicate AlwaysHeld(t: Table, steps: seq<Step>)
    decreases |steps|
  {
    Held(t) && (steps == [] || AlwaysHeld(Apply(t, steps[0]), steps[1..]))
  }

  ghost predicate AlwaysHarmless(t: Table, steps: seq<Step>)
    decreases |steps|
  {
    steps == [] || (Harmless(t, steps[0]) && AlwaysHarmless(Apply(t, steps[0]), steps[1..]))
  }

  /** Over a run the permissions are held at every state exactly when no failing send was harmful. */
  lemma {:induction false} HeldIffHarmless(t: Table, steps: seq<Step>)
    requires Held(t)
    ensures AlwaysHeld(t, steps) <==> AlwaysHarmless(t, steps)
    ensures AlwaysHarmless(t, steps) ==> Held(Run(t, steps)) && PermissionsCurrent(Run(t, steps))
    decreases |steps|
  {
    HeldAreCurrent(t);
    if steps != [] {
      StepKeepsIff(t, steps[0]);
      if Harmless(t, steps[0]) { HeldIffHarmless(Apply(t, steps[0]), steps[1..]); }
    }
  }

  lemma AnswerOneCounts(t: Table, id: nat, socket: Socket)
    requires AnsweredOnce(t)
    ensures AnsweredOnce(Apply(t, AnswerPermission(id, socket))) && AnsweredOnce(Apply(t, ExpirePermission(id)))
  {
    if id in t.pending { AnswerKeepsCount(t, {id}); }
  }

  lemma CloseCounts(t: Table, socket: Socket)
    requires AnsweredOnce(t)
    ensures AnsweredOnce(Close(t, socket))
  {
    AnswerKeepsCount(t, PermissionsOn(t, socket));
    SameCountsKeep(Answer(t, PermissionsOn(t, socket)), Close(t, socket));
  }

  lemma LoseCounts(t: Table)
    requires AnsweredOnce(t)
    ensures AnsweredOnce(LoseEngine(t))
  {
    AnswerKeepsCount(t, t.pending.Keys);
    SameCountsKeep(Answer(t, t.pending.Keys), LoseEngine(t));
  }

  predicate SameCounts(t: Table, u: Table) {
    u.pending == t.pending && u.answers == t.answers && u.nextPermissionId == t.nextPermissionId
  }

  lemma SameCountsKeep(t: Table, u: Table)
    requires AnsweredOnce(t) && SameCounts(t, u)
    ensures AnsweredOnce(u)
  {}

  lemma SettleCounts(t: Table, s: SessionId, token: Token, u: Table)
    requires AnsweredOnce(t) && SameCounts(SettleTurnPermissions(t, s, token), u)
    ensures AnsweredOnce(u)
  {
    AnswerKeepsCount(t, PermissionsOf(t, s, token));
    SameCountsKeep(SettleTurnPermissions(t, s, token), u);
  }

  lemma TerminalCounts(t: Table, s: SessionId)
    requires AnsweredOnce(t)
    ensures AnsweredOnce(OnTerminal(t, s))
  {
    if s in t.turns && !SameCounts(t, OnTerminal(t, s)) { SettleCounts(t, s, t.turns[s].token, OnTerminal(t, s)); }
  }

  lemma EndByStopCounts(t: Table, token: Token, valid: bool)
    requires AnsweredOnce(t) && token in t.requests && t.requests[token].Stop?
    ensures AnsweredOnce(EndByStop(t, token, valid))
  {
    var s := t.requests[token].session;
    if StopEndsTurn(t, token, valid) { SettleCounts(t, s, t.turns[s].token, EndTurn(t, s)); }
  }

  lemma StopCounts(t: Table, token: Token, valid: bool)
    requires AnsweredOnce(t)
    ensures AnsweredOnce(FinishStop(t, token, valid))
  {
    if token in t.requests && t.requests[token].Stop? {
      EndByStopCounts(t, token, valid);
      FinishStopCore(t, token, valid);
      SameCountsKeep(EndByStop(t, token, valid), FinishStop(t, token, valid));
    }
  }

  lemma ReleaseCounts(t: Table, token: Token, s: SessionId, socket: Socket, boundary: Boundary)
    requires AnsweredOnce(t)
    ensures AnsweredOnce(StartReleaseTurn(t, token, s, socket, boundary))
  {
    var u := StartReleaseTurn(t, token, s, socket, boundary);
    if s in t.turns && !SameCounts(t, u) { SettleCounts(t, s, t.turns[s].token, u); }
  }

  lemma SendCounts(t: Table, token: Token, valid: bool, boundary: Boundary)
    requires AnsweredOnce(t)
    ensures AnsweredOnce(FinishSend(t, token, valid, boundary))
  {
    var u := FinishSend(t, token, valid, boundary);
    if token in t.requests && t.requests[token].Send? && !SendSucceeds(t, token, valid) {
      SettleCounts(t, t.requests[token].session, token, u);
    } else {
      SameCountsKeep(t, u);
    }
  }

  lemma BeginsCount(t: Table, step: Step)
    requires step.BeginSend? || step.BeginStop? || step.BindStop? || step.BeginSubscribe?
    ensures SameCounts(t, Apply(t, step))
  {
    match step
    case BeginSend(_, _, _) =>
    case BeginStop(_, _) =>
    case BindStop(_) =>
    case BeginSubscribe(_, _) =>
  }

  lemma FinishesCount(t: Table, token: Token, valid: bool)
    ensures SameCounts(t, FinishRelease(t, token)) && SameCounts(t, FinishSubscribe(t, token, valid))
  {}

  /** In every run, harmful failures included, a permission request is answered exactly once and at most 256 wait. */
  lemma {:induction false} AnsweredOnceAlways(t: Table, steps: seq<Step>)
    requires AnsweredOnce(t)
    ensures AnsweredOnce(Run(t, steps))
    decreases |steps|
  {
    if steps != [] {
      StepCounts(t, steps[0]);
      AnsweredOnceAlways(Apply(t, steps[0]), steps[1..]);
    }
  }

  lemma QuietCounts(t: Table, step: Step)
    requires AnsweredOnce(t)
    requires step.Connect? || step.EngineLive? || step.Grant? || step.DropLease? || step.BeginSend? || step.BeginStop?
             || step.BindStop?
          || step.BeginSubscribe? || step.AnswerSubscribe? || step.FinishReleaseTurn?
    ensures AnsweredOnce(Apply(t, step))
  {
    if step.BeginSend? || step.BeginStop? || step.BindStop? || step.BeginSubscribe? { BeginsCount(t, step); }
    else if step.FinishReleaseTurn? { FinishesCount(t, step.token, false); }
    else if step.AnswerSubscribe? { FinishesCount(t, step.token, step.valid); }
    SameCountsKeep(t, Apply(t, step));
  }

  lemma StepCounts(t: Table, step: Step)
    requires AnsweredOnce(t)
    ensures AnsweredOnce(Apply(t, step))
  {
    match step
    case Terminal(s) => TerminalCounts(t, s);
    case AnswerStop(token, valid) => StopCounts(t, token, valid);
    case BeginReleaseTurn(token, s, socket, boundary) => ReleaseCounts(t, token, s, socket, boundary);
    case AnswerSend(token, valid, boundary) => SendCounts(t, token, valid, boundary);
    case RequestPermission(s) => AskCounts(t, s);
    case AnswerPermission(id, socket) => AnswerOneCounts(t, id, socket);
    case ExpirePermission(id) => AnswerOneCounts(t, id, 0);
    case CloseSocket(socket) => CloseCounts(t, socket);
    case BrokerCloses => AnswerKeepsCount(t, t.pending.Keys);
    case EngineLost => LoseCounts(t);
    case _ => QuietCounts(t, step);
  }

  /** When no failing send was harmful, whatever waits belongs to a current turn that the engine still holds. */
  lemma PermissionsOfRun(steps: seq<Step>, id: nat)
    requires AlwaysHarmless(EMPTY, steps)
    ensures var t := Run(EMPTY, steps); id in t.pending ==> PermissionHeld(t, t.pending[id])
  {
    HeldIffHarmless(EMPTY, steps);
    assert Held(Run(EMPTY, steps));
  }

  /**
   However a turn ends (terminal event, stop, exact release, failed send, engine loss), none of its permissions waits.
   */
  lemma EndedTurnLeavesNone(t: Table, step: Step, s: SessionId, id: nat)
    requires Held(t) && s in t.turns
    ensures var u := Apply(t, step);
            !Current(u, s, t.turns[s].token) && id in u.pending && u.pending[id].session == s ==>
                u.pending[id].turnToken != t.turns[s].token
  {
    StepKeepsIff(t, step);
    var u := Apply(t, step);
    if id in u.pending { assert PermissionCurrent(u, u.pending[id]); }
  }

  /**
   The harm: some permission's session is no longer the engine's, which then lets a new turn in over the one that
   asks.
   */
  lemma HarmfulUnlinks(t: Table, step: Step) returns (id: nat)
    requires Held(t) && !Harmless(t, step)
    ensures var u := Apply(t, step);
            && id in u.pending && u.pending[id] in t.pending.Values && u.pending[id].session !in u.engineTurns
            && u.live == t.live && u.live.Some? && u.next == t.next && u.leases == t.leases
               && u.requests.Keys <= t.requests.Keys
  {
    var r := t.requests[step.token];
    id :| id in t.pending && t.pending[id].session == r.session && t.pending[id].turnToken != step.token;
  }

  lemma SendTakesOver(t: Table, s: SessionId, socket: Socket, id: nat)
    requires id in t.pending && t.pending[id].session == s && s !in t.engineTurns && t.live.Some?
    requires t.next !in t.requests && t.pending[id].turnToken < t.next
    ensures var u := Apply(Apply(t, Grant), BeginSend(t.next, s, socket));
            id in u.pending && !PermissionCurrent(u, u.pending[id])
  {
    var a := Apply(t, Grant);
    assert t.next in a.leases && a.pending == t.pending && a.requests == t.requests && a.engineTurns == t.engineTurns
           && a.live == t.live;
    var u := StartSend(a, t.next, s, socket);
    assert u.turns[s].token == t.next && u.pending == t.pending;
  }

  lemma TwoSteps(t: Table, a: Step, b: Step)
    requires !a.AnswerSend? && !b.AnswerSend?
    ensures Run(t, [a, b]) == Apply(Apply(t, a), b) && AlwaysHarmless(t, [a, b])
  {
    var steps := [a, b];
    assert steps[1..] == [b] && steps[1..][1..] == [];
    assert Run(t, steps) == Run(Apply(t, a), [b]) == Run(Apply(Apply(t, a), b), []);
    assert AlwaysHarmless(Apply(t, a), [b]);
  }

  /**
   So the guard is exact for the property itself: it lets no permission lose its turn, now or later, unless a later
   failure is harmful.
   */
  lemma HarmlessIffCurrentFromHere(t: Table, step: Step)
    requires Held(t) && Fresh(t)
    ensures Harmless(t, step) <==>
            forall more :: AlwaysHarmless(Apply(t, step), more) ==> PermissionsCurrent(Run(Apply(t, step), more))
  {
    var u := Apply(t, step);
    StepKeepsIff(t, step);
    if Harmless(t, step) {
      forall more | AlwaysHarmless(u, more) ensures PermissionsCurrent(Run(u, more)) { HeldIffHarmless(u, more); }
    } else {
      var id := HarmfulUnlinks(t, step);
      var s := u.pending[id].session;
      PendingIsDrawn(t, u.pending[id]);
      SendTakesOver(u, s, 0, id);
      TwoSteps(u, Grant, BeginSend(u.next, s, 0));
    }
  }

  // ----------------------------------------------------------------- tokens

  /** Every token in use was drawn. */
  ghost predicate Fresh(t: Table) {
    && (forall token <- t.leases :: token < t.next)
    && (forall token <- t.requests :: token < t.next)
    && (forall s <- t.turns :: t.turns[s].token < t.next)
  }

  /** Turn tokens are the old ones, or `token`. */
  ghost predicate TurnsFrom(t: Table, u: Table, token: Token) {
    forall s <- u.turns :: u.turns[s].token == token || (s in t.turns && u.turns[s].token == t.turns[s].token)
  }

  /** Requests are the old ones, and a leased one. */
  ghost predicate RequestsFrom(t: Table, u: Table, token: Token) {
    u.leases == t.leases && u.next == t.next && u.requests.Keys <= t.requests.Keys + {token} && TurnsFrom(t, u, token)
  }

  lemma FreshFrom(t: Table, u: Table, token: Token)
    requires Fresh(t) && RequestsFrom(t, u, token) && token < t.next
    ensures Fresh(u)
  {}

  lemma StopFrom(t: Table, token: Token, valid: bool)
    requires token in t.requests
    ensures RequestsFrom(t, FinishStop(t, token, valid), token)
  {
    if t.requests[token].Stop? {
      var u := EndByStop(t, token, valid);
      assert u.leases == t.leases && u.next == t.next && u.requests == t.requests && TurnsFrom(t, u, token);
    }
  }

  lemma SendFrom(t: Table, token: Token, valid: bool, boundary: Boundary)
    requires token in t.requests
    ensures RequestsFrom(t, FinishSend(t, token, valid, boundary), token)
  {}

  lemma ReleaseFrom(t: Table, token: Token)
    requires token in t.requests
    ensures RequestsFrom(t, FinishRelease(t, token), token)
  {}

  lemma BeginSendFrom(t: Table, token: Token, s: SessionId, socket: Socket)
    ensures var u := StartSend(t, token, s, socket); u == t || (token in t.leases && RequestsFrom(t, u, token))
  {}

  lemma StopBeginsFrom(t: Table, token: Token, s: SessionId)
    ensures StartStop(t, token, s) == t || (token in t.leases && RequestsFrom(t, StartStop(t, token, s), token))
    ensures Bind(t, token) == t || (token in t.leases && RequestsFrom(t, Bind(t, token), token))
  {}

  lemma SubscribesFrom(t: Table, token: Token, s: SessionId, valid: bool)
    ensures StartSubscribe(t, token, s) == t
            || (token in t.leases && RequestsFrom(t, StartSubscribe(t, token, s), token))
    ensures FinishSubscribe(t, token, valid) == t
            || (token in t.requests && RequestsFrom(t, FinishSubscribe(t, token, valid), token))
  {}

  lemma BeginReleaseFrom(t: Table, token: Token, s: SessionId, socket: Socket, boundary: Boundary)
    ensures var u := StartReleaseTurn(t, token, s, socket, boundary);
            u == t || (token in t.leases && RequestsFrom(t, u, token))
  {}

  lemma NameStepFresh(t: Table, step: Step)
    requires Fresh(t) && (step.Connect? || step.EngineLive? || step.Grant? || step.DropLease?)
    ensures Fresh(Apply(t, step))
  {
    match step
    case Connect(_) =>
    case EngineLive =>
    case Grant =>
    case DropLease(_) =>
  }

  lemma AnswerStepFresh(t: Table, step: Step)
    requires Fresh(t) && (step.AnswerStop? || step.AnswerSend? || step.FinishReleaseTurn?)
    ensures Fresh(Apply(t, step))
  {
    if step.token in t.requests {
      match step
      case AnswerStop(token, valid) => StopFrom(t, token, valid);
      case AnswerSend(token, valid, boundary) => SendFrom(t, token, valid, boundary);
      case FinishReleaseTurn(token) => ReleaseFrom(t, token);
      FreshFrom(t, Apply(t, step), step.token);
    }
  }

  lemma RequestStepFresh(t: Table, step: Step)
    requires Fresh(t)
    requires step.BeginSend? || step.BeginStop? || step.BindStop? || step.BeginSubscribe? || step.AnswerSubscribe?
             || step.BeginReleaseTurn?
    ensures Fresh(Apply(t, step))
  {
    match step {
      case BeginReleaseTurn(token, s, socket, boundary) => BeginReleaseFrom(t, token, s, socket, boundary);
      case BeginSend(token, s, socket) => BeginSendFrom(t, token, s, socket);
      case BeginStop(token, s) => StopBeginsFrom(t, token, s);
      case BindStop(token) => StopBeginsFrom(t, token, "");
      case BeginSubscribe(token, s) => SubscribesFrom(t, token, s, true);
      case AnswerSubscribe(token, valid) => SubscribesFrom(t, token, "", valid);
    }
    if Apply(t, step) != t { FreshFrom(t, Apply(t, step), step.token); }
  }

  lemma StepKeepsFresh(t: Table, step: Step)
    requires Fresh(t)
    ensures Fresh(Apply(t, step))
  {
    if step.Connect? || step.EngineLive? || step.Grant? || step.DropLease? { NameStepFresh(t, step); }
    else if step.AnswerStop? || step.AnswerSend? || step.FinishReleaseTurn? { AnswerStepFresh(t, step); }
    else if step.EngineLost? || step.Terminal? || step.RequestPermission? || step.AnswerPermission?
        || step.ExpirePermission?
            || step.CloseSocket? || step.BrokerCloses? { EngineStepFresh(t, step); }
    else { RequestStepFresh(t, step); }
  }

  lemma EngineStepFresh(t: Table, step: Step)
    requires Fresh(t)
    requires step.EngineLost? || step.Terminal? || step.RequestPermission? || step.AnswerPermission?
             || step.ExpirePermission?
          || step.CloseSocket? || step.BrokerCloses?
    ensures Fresh(Apply(t, step))
  {
    EngineKeepsNames(t, step);
    EngineTurnsFrom(t, step);
  }

  ghost predicate EngineKeepsTurns(t: Table, u: Table) {
    forall s <- u.turns :: s in t.turns && u.turns[s].token == t.turns[s].token
  }

  lemma EngineTurnsFrom(t: Table, step: Step)
    requires step.EngineLost? || step.Terminal? || step.RequestPermission? || step.AnswerPermission?
             || step.ExpirePermission?
          || step.CloseSocket? || step.BrokerCloses?
    ensures EngineKeepsTurns(t, Apply(t, step))
  {
    match step
    case EngineLost =>
    case Terminal(_) =>
    case RequestPermission(_) =>
    case AnswerPermission(_, _) =>
    case ExpirePermission(_) =>
    case CloseSocket(_) =>
    case BrokerCloses =>
  }

  lemma {:induction false} RunKeepsFresh(t: Table, steps: seq<Step>)
    requires Fresh(t)
    ensures Fresh(Run(t, steps))
    decreases |steps|
  {
    if steps != [] {
      StepKeepsFresh(t, steps[0]);
      RunKeepsFresh(Apply(t, steps[0]), steps[1..]);
    }
  }

  /**
   The same of every run from the start: after a harmless run, a step endangers a permission exactly when it is
   harmful.
   */
  lemma HarmlessIffCurrentAfterRun(steps: seq<Step>, step: Step)
    requires AlwaysHarmless(EMPTY, steps)
    ensures var t := Run(EMPTY, steps);
            Harmless(t, step) <==>
              forall more ::
                AlwaysHarmless(Apply(t, step), more) ==> PermissionsCurrent(Run(Apply(t, step), more))
  {
    HeldIffHarmless(EMPTY, steps);
    RunKeepsFresh(EMPTY, steps);
    HarmlessIffCurrentFromHere(Run(EMPTY, steps), step);
  }

  lemma PendingIsDrawn(t: Table, p: Permission)
    requires Held(t) && Fresh(t) && p in t.pending.Values
    ensures p.turnToken < t.next
  {
    var id :| id in t.pending && t.pending[id] == p;
    assert PermissionHeld(t, t.pending[id]);
  }

  ghost predicate Reachable(t: Table) { exists steps :: Run(EMPTY, steps) == t }

  lemma {:induction false} RunConcat(t: Table, a: seq<Step>, b: seq<Step>)
    ensures Run(t, a + b) == Run(Run(t, a), b)
    decreases |a|
  {
    if a == [] {
      assert a + b == b;
    } else {
      assert (a + b)[1..] == a[1..] + b;
      RunConcat(Apply(t, a[0]), a[1..], b);
    }
  }

  lemma ReachableStep(t: Table, step: Step)
    requires Reachable(t)
    ensures Reachable(Apply(t, step))
  {
    var steps :| Run(EMPTY, steps) == t;
    RunConcat(EMPTY, steps, [step]);
    assert Run(t, [step]) == Run(Apply(t, step), []);
  }

  const AT := Boundary(0, "i")
  const FIRST := Turn(2, Some(0), false, None)

  lemma StopEnds(t: Table, x: SessionId, token: Token, turn: Turn)
    requires token in t.requests && t.requests[token] == Stop(x, t.live, Some(turn)) && t.live.Some?
             && token in t.leases
    requires x in t.stopping && t.stopping[x] == token && x in t.turns && t.turns[x] == turn && t.pending == map[]
    ensures var u := FinishStop(t, token, true);
            && u.turns == t.turns - {x} && u.engineTurns == t.engineTurns - {x} && u.requests == t.requests - {token}
               && u.pending == map[]
            && u.live == t.live && u.writable == t.writable && u.leases == t.leases && u.next == t.next
               && u.nextPermissionId == t.nextPermissionId
  {
    assert StopAcknowledged(t, token, true);
    assert PermissionsOf(t, x, turn.token) == {};
  }

  lemma SendArms(t: Table, x: SessionId, token: Token, turn: Turn)
    requires token in t.requests && t.live.Some? && t.requests[token] == Send(x, t.live.value) && token in t.leases
    requires x in t.turns && t.turns[x] == turn && turn.token == token && x in t.engineTurns
             && t.engineTurns[x].Sending?
    ensures var u := FinishSend(t, token, true, AT);
            && u.turns == t.turns[x := turn.(boundary := Some(AT))] && u.engineTurns == t.engineTurns[x := Armed(AT)]
            && u.requests == t.requests - {token} && u.pending == t.pending && u.live == t.live
               && u.writable == t.writable
            && u.leases == t.leases && u.next == t.next && u.nextPermissionId == t.nextPermissionId
  {}

  lemma PermissionAsked(t: Table, x: SessionId, socket: Socket)
    requires x in t.engineTurns && x in t.turns && !t.turns[x].releasing && t.turns[x].socket == Some(socket)
    requires socket in t.writable && t.pending == map[]
    ensures var u := AskPermission(t, x);
            && u.pending == map[t.nextPermissionId := Permission(x, t.turns[x].token, socket)] && u.turns == t.turns
            && u.engineTurns == t.engineTurns && u.requests == t.requests && u.leases == t.leases && u.next == t.next
               && u.live == t.live
  {}

  /** The late failure takes the engine's record of a turn that is not its own. */
  lemma LateFailureUnlinks(t: Table, x: SessionId, token: Token)
    requires token in t.requests && t.live.Some? && t.requests[token] == Send(x, t.live.value) && token !in t.leases
    requires x in t.turns && t.turns[x].token != token && forall id <- t.pending :: t.pending[id].turnToken != token
    ensures var u := FinishSend(t, token, true, AT);
            && u.turns == t.turns && u.pending == t.pending && u.engineTurns == t.engineTurns - {x}
            && u.requests == t.requests - {token} && u.leases == t.leases && u.next == t.next && u.live == t.live
  {
    assert PermissionsOf(t, x, token) == {};
  }

  // One run, stretch by stretch. A client sends and cancels the request, ...
  ghost predicate Cancelled(t: Table, x: SessionId) {
    && t.turns == map[x := FIRST] && t.engineTurns == map[x := Sending] && t.requests == map[2 := Send(x, 1)]
    && t.live == Some(1) && t.writable == {0} && t.pending == map[] && t.leases == {} && t.next == 3
  }

  lemma ToCancelled(x: SessionId) returns (t: Table)
    ensures Cancelled(t, x) && Reachable(t)
  {
    assert Run(EMPTY, []) == EMPTY;
    t := EMPTY;
    ReachableStep(t, Connect(false)); t := Apply(t, Connect(false));
    ReachableStep(t, EngineLive); t := Apply(t, EngineLive);
    ReachableStep(t, Grant); t := Apply(t, Grant);
    assert t.leases == {2} && t.live == Some(1) && t.writable == {0} && t.next == 3;
    ReachableStep(t, BeginSend(2, x, 0)); t := Apply(t, BeginSend(2, x, 0));
    assert t.turns == map[x := FIRST] && t.engineTurns == map[x := Sending] && t.requests == map[2 := Send(x, 1)];
    ReachableStep(t, DropLease(2)); t := Apply(t, DropLease(2));
  }

  /** ... stops that turn, ... */
  ghost predicate Stopping(t: Table, x: SessionId) {
    && t.turns == map[x := FIRST] && t.engineTurns == map[x := Sending]
    && t.requests == map[2 := Send(x, 1), 3 := Stop(x, Some(1), Some(FIRST))] && x in t.stopping && t.stopping[x] == 3
    && t.live == Some(1) && t.writable == {0} && t.pending == map[] && t.leases == {3} && t.next == 4
  }

  lemma ToIssued(t0: Table, x: SessionId) returns (t: Table)
    requires Cancelled(t0, x) && Reachable(t0)
    ensures Reachable(t) && t == Apply(t0, Grant).(stopping := t0.stopping[x := 3],
                                                   requests := map[2 := Send(x, 1), 3 := Stop(x, None, Some(FIRST))])
  {
    ReachableStep(t0, Grant);
    var a := Apply(t0, Grant);
    assert a.leases == {3};
    ReachableStep(a, BeginStop(3, x));
    t := Apply(a, BeginStop(3, x));
    StopCaptures(a, 3, x, FIRST);
  }

  lemma ToStopping(t0: Table, x: SessionId) returns (t: Table)
    requires Cancelled(t0, x) && Reachable(t0)
    ensures Stopping(t, x) && Reachable(t)
  {
    var issued := ToIssued(t0, x);
    ReachableStep(issued, BindStop(3));
    t := Apply(issued, BindStop(3));
  }

  lemma StopCaptures(t: Table, token: Token, x: SessionId, turn: Turn)
    requires token in t.leases && token !in t.requests && x in t.turns && t.turns[x] == turn
    ensures StartStop(t, token, x)
            == t.(stopping := t.stopping[x := token], requests := t.requests[token := Stop(x, None, Some(turn))])
  {}

  ghost predicate Stopped(t: Table, x: SessionId) {
    && t.turns == map[] && t.engineTurns == map[] && t.requests == map[2 := Send(x, 1)]
    && t.live == Some(1) && t.writable == {0} && t.pending == map[] && t.next == 4 && t.leases == {}
  }

  lemma ToStopped(t0: Table, x: SessionId) returns (t: Table)
    requires Stopping(t0, x) && Reachable(t0)
    ensures Stopped(t, x) && Reachable(t)
  {
    StopEnds(t0, x, 3, FIRST);
    ReachableStep(t0, AnswerStop(3, true));
    t := ToDropped(FinishStop(t0, 3, true), 3);
    assert t.requests == map[2 := Send(x, 1)];
  }

  lemma ToDropped(t0: Table, token: Token) returns (t: Table)
    requires Reachable(t0)
    ensures Reachable(t) && t == t0.(leases := t0.leases - {token})
  {
    ReachableStep(t0, DropLease(token));
    t := Apply(t0, DropLease(token));
  }

  /** ... sends again, ... */
  ghost predicate Resending(t: Table, x: SessionId) {
    && t.turns == map[x := Turn(4, Some(0), false, None)] && t.engineTurns == map[x := Sending]
    && t.requests == map[2 := Send(x, 1), 4 := Send(x, 1)] && t.leases == {4} && t.next == 5
    && t.live == Some(1) && t.writable == {0} && t.pending == map[]
  }

  lemma ToResending(t0: Table, x: SessionId) returns (t: Table)
    requires Stopped(t0, x) && Reachable(t0)
    ensures Resending(t, x) && Reachable(t)
  {
    t := t0;
    ReachableStep(t, Grant); t := Apply(t, Grant);
    ReachableStep(t, BeginSend(4, x, 0)); t := Apply(t, BeginSend(4, x, 0));
  }

  ghost predicate Resent(t: Table, x: SessionId) {
    && t.turns == map[x := Turn(4, Some(0), false, Some(AT))] && t.engineTurns == map[x := Armed(AT)]
    && t.requests == map[2 := Send(x, 1)] && t.leases == {} && t.next == 5
    && t.live == Some(1) && t.writable == {0} && t.pending == map[]
  }

  lemma ToResent(t0: Table, x: SessionId) returns (t: Table)
    requires Resending(t0, x) && Reachable(t0)
    ensures Resent(t, x) && Reachable(t)
  {
    SendArms(t0, x, 4, Turn(4, Some(0), false, None));
    ReachableStep(t0, AnswerSend(4, true, AT));
    t := Apply(t0, AnswerSend(4, true, AT));
    assert t.requests == map[2 := Send(x, 1)];
    ReachableStep(t, DropLease(4)); t := Apply(t, DropLease(4));
  }

  /** ... and is asked for a permission. */
  ghost predicate Asked(t: Table, x: SessionId, id: nat) {
    && t.turns == map[x := Turn(4, Some(0), false, Some(AT))] && t.engineTurns == map[x := Armed(AT)]
    && t.requests == map[2 := Send(x, 1)] && t.leases == {} && t.next == 5
    && t.live == Some(1) && t.pending == map[id := Permission(x, 4, 0)]
  }

  lemma ToAsked(t0: Table, x: SessionId) returns (t: Table)
    requires Resent(t0, x) && Reachable(t0)
    ensures Asked(t, x, t0.nextPermissionId) && Reachable(t)
  {
    PermissionAsked(t0, x, 0);
    ReachableStep(t0, RequestPermission(x));
    t := Apply(t0, RequestPermission(x));
  }

  /** Then the first send's answer arrives late, ... */
  ghost predicate Unlinked(t: Table, x: SessionId, id: nat) {
    && t.turns == map[x := Turn(4, Some(0), false, Some(AT))] && t.engineTurns == map[]
    && t.requests == map[] && t.leases == {} && t.next == 5
    && t.live == Some(1) && t.pending == map[id := Permission(x, 4, 0)]
  }

  lemma ToUnlinked(t0: Table, x: SessionId, id: nat) returns (t: Table)
    requires Asked(t0, x, id) && Reachable(t0)
    ensures Unlinked(t, x, id) && Reachable(t)
  {
    LateFailureUnlinks(t0, x, 2);
    ReachableStep(t0, AnswerSend(2, true, AT));
    t := Apply(t0, AnswerSend(2, true, AT));
  }

  /** ... and a third send is let in over the turn that still asks. */
  lemma ToReplaced(t0: Table, x: SessionId, id: nat) returns (t: Table)
    requires Unlinked(t0, x, id) && Reachable(t0)
    ensures x in t.turns && t.turns[x].token == 5 && t.pending == map[id := Permission(x, 4, 0)] && Reachable(t)
  {
    ReachableStep(t0, Grant); t := Apply(t0, Grant);
    ReachableStep(t, BeginSend(5, x, 0)); t := Apply(t, BeginSend(5, x, 0));
  }

  /** So in every session some run from the start breaks the permission property: a permission outlives its turn. */
  lemma PermissionOutlivesItsTurn(x: SessionId)
    ensures exists t, id ::
              Reachable(t) && id in t.pending && t.pending[id].session == x && !PermissionCurrent(t, t.pending[id])
  {
    var a := ToCancelled(x);
    var b := ToStopping(a, x);
    var c := ToStopped(b, x);
    var d := ToResending(c, x);
    var e := ToResent(d, x);
    var f := ToAsked(e, x);
    var g := ToUnlinked(f, x, e.nextPermissionId);
    var h := ToReplaced(g, x, e.nextPermissionId);
    assert !PermissionCurrent(h, h.pending[e.nextPermissionId]);
  }

  // ----------------------------------------------------------- late answers

  /** At most one effect was logged, and its request was leased. */
  predicate LeasedEffect(t: Table, u: Table) {
    u.log == t.log || (|u.log| == |t.log| + 1 && u.log[..|t.log|] == t.log && u.log[|t.log|].request in t.leases)
  }

  lemma EffectsNeedLeases(t: Table, step: Step)
    ensures LeasedEffect(t, Apply(t, step))
  {
    match step
    case AnswerSend(token, valid, boundary) => SendEffectNeedsLease(t, token, valid, boundary);
    case AnswerStop(token, valid) => StopEffectNeedsLease(t, token, valid);
    case AnswerSubscribe(token, valid) => SubscribeEffectNeedsLease(t, token, valid);
    case _ => OtherStepsLogNothing(t, step);
  }

  lemma EndByStopLogsNothing(t: Table, token: Token, valid: bool)
    requires token in t.requests && t.requests[token].Stop?
    ensures var u := EndByStop(t, token, valid); u.log == t.log && u.leases == t.leases && u.next == t.next
  {}

  lemma StopEffectNeedsLease(t: Table, token: Token, valid: bool)
    ensures LeasedEffect(t, FinishStop(t, token, valid))
  {
    if token in t.requests && t.requests[token].Stop? { EndByStopLogsNothing(t, token, valid); }
  }

  lemma SendEffectNeedsLease(t: Table, token: Token, valid: bool, boundary: Boundary)
    ensures LeasedEffect(t, FinishSend(t, token, valid, boundary))
  {}

  lemma SubscribeEffectNeedsLease(t: Table, token: Token, valid: bool)
    ensures LeasedEffect(t, FinishSubscribe(t, token, valid))
  {}

  lemma EngineLogsNothing(t: Table, step: Step)
    requires step.EngineLost? || step.Terminal? || step.RequestPermission? || step.AnswerPermission?
             || step.ExpirePermission?
          || step.CloseSocket? || step.BrokerCloses?
    ensures Apply(t, step).log == t.log
  {
    match step
    case EngineLost =>
    case Terminal(_) =>
    case RequestPermission(_) =>
    case AnswerPermission(_, _) =>
    case ExpirePermission(_) =>
    case CloseSocket(_) =>
    case BrokerCloses =>
  }

  lemma BeginsLogNothing(t: Table, step: Step)
    requires step.BeginSend? || step.BeginStop? || step.BindStop? || step.BeginSubscribe? || step.BeginReleaseTurn?
             || step.FinishReleaseTurn?
    ensures Apply(t, step).log == t.log
  {
    match step
    case BeginSend(_, _, _) =>
    case BeginStop(_, _) =>
    case BindStop(_) =>
    case BeginSubscribe(_, _) =>
    case BeginReleaseTurn(_, _, _, _) =>
    case FinishReleaseTurn(_) =>
  }

  lemma OtherStepsLogNothing(t: Table, step: Step)
    requires !step.AnswerSend? && !step.AnswerStop? && !step.AnswerSubscribe?
    ensures Apply(t, step).log == t.log
  {
    if step.Connect? || step.EngineLive? || step.Grant? || step.DropLease? {
    } else if step.BeginSend? || step.BeginStop? || step.BindStop? || step.BeginSubscribe? || step.BeginReleaseTurn?
        || step.FinishReleaseTurn? {
      BeginsLogNothing(t, step);
    } else {
      EngineLogsNothing(t, step);
    }
  }

  /** Everything but granting and dropping leases, connecting and starting an engine. */
  predicate KeepsNames(step: Step) { !step.Grant? && !step.DropLease? && !step.Connect? && !step.EngineLive? }

  lemma StopKeepsLeases(t: Table, token: Token, valid: bool)
    ensures FinishStop(t, token, valid).leases == t.leases && FinishStop(t, token, valid).next == t.next
  {
    if token in t.requests && t.requests[token].Stop? { EndByStopLogsNothing(t, token, valid); }
  }

  lemma SendKeepsLeases(t: Table, token: Token, valid: bool, boundary: Boundary)
    ensures FinishSend(t, token, valid, boundary).leases == t.leases
            && FinishSend(t, token, valid, boundary).next == t.next
  {}

  lemma ReleaseKeepsLeases(t: Table, token: Token)
    ensures FinishRelease(t, token).leases == t.leases && FinishRelease(t, token).next == t.next
  {}

  predicate SameNames(t: Table, u: Table) { u.leases == t.leases && u.next == t.next && u.requests == t.requests }

  lemma TerminalKeepsNames(t: Table, s: SessionId)
    ensures SameNames(t, OnTerminal(t, s))
  {}

  lemma AskKeepsNames(t: Table, s: SessionId)
    ensures SameNames(t, AskPermission(t, s))
  {}

  lemma CloseKeepsNames(t: Table, socket: Socket)
    ensures SameNames(t, Close(t, socket))
  {}

  lemma LoseKeepsNames(t: Table)
    ensures SameNames(t, LoseEngine(t))
  {}

  lemma AnswerKeepsNames(t: Table, id: nat, socket: Socket)
    ensures SameNames(t, Apply(t, AnswerPermission(id, socket))) && SameNames(t, Apply(t, ExpirePermission(id)))
  {}

  lemma EngineKeepsNames(t: Table, step: Step)
    requires step.EngineLost? || step.Terminal? || step.RequestPermission? || step.AnswerPermission?
             || step.ExpirePermission?
          || step.CloseSocket? || step.BrokerCloses?
    ensures SameNames(t, Apply(t, step))
  {
    match step
    case EngineLost => LoseKeepsNames(t);
    case Terminal(s) => TerminalKeepsNames(t, s);
    case RequestPermission(s) => AskKeepsNames(t, s);
    case AnswerPermission(id, socket) => AnswerKeepsNames(t, id, socket);
    case ExpirePermission(id) => AnswerKeepsNames(t, id, 0);
    case CloseSocket(socket) => CloseKeepsNames(t, socket);
    case BrokerCloses =>
  }

  lemma BeginsKeepLeases(t: Table, step: Step)
    requires step.BeginSend? || step.BeginStop? || step.BindStop? || step.BeginSubscribe? || step.AnswerSubscribe?
             || step.BeginReleaseTurn?
    ensures Apply(t, step).leases == t.leases && Apply(t, step).next == t.next
  {}

  lemma OthersKeepLeases(t: Table, step: Step)
    requires KeepsNames(step)
    ensures Apply(t, step).leases == t.leases && Apply(t, step).next == t.next
  {
    match step
    case AnswerStop(token, valid) => StopKeepsLeases(t, token, valid);
    case AnswerSend(token, valid, boundary) => SendKeepsLeases(t, token, valid, boundary);
    case FinishReleaseTurn(token) => ReleaseKeepsLeases(t, token);
    case BeginSend(_, _, _) => BeginsKeepLeases(t, step);
    case BeginStop(_, _) => BeginsKeepLeases(t, step);
    case BindStop(_) => BeginsKeepLeases(t, step);
    case BeginSubscribe(_, _) => BeginsKeepLeases(t, step);
    case AnswerSubscribe(_, _) => BeginsKeepLeases(t, step);
    case BeginReleaseTurn(_, _, _, _) => BeginsKeepLeases(t, step);
    case _ => EngineKeepsNames(t, step);
  }

  lemma LeasesDoNotReturn(t: Table, step: Step, r: Token)
    requires r !in t.leases && r < t.next
    ensures r !in Apply(t, step).leases && r < Apply(t, step).next
  {
    if KeepsNames(step) { OthersKeepLeases(t, step); }
  }

  /** Nothing logged between the two states is an effect of `r`. */
  ghost predicate NoEffectOf(t: Table, u: Table, r: Token) {
    t.log <= u.log && forall i | |t.log| <= i < |u.log| :: u.log[i].request != r
  }

  lemma NoEffectThen(t: Table, u: Table, v: Table, r: Token)
    requires LeasedEffect(t, u) && r !in t.leases && NoEffectOf(u, v, r)
    ensures NoEffectOf(t, v, r)
  {
    if |u.log| > |t.log| { assert v.log[|t.log|] == u.log[|t.log|]; }
  }

  /** Once a request's lease is finished or cancelled, no later answer has a success effect for it. */
  lemma {:induction false} LateAnswersHaveNoEffect(t: Table, steps: seq<Step>, r: Token)
    requires r !in t.leases && r < t.next
    ensures NoEffectOf(t, Run(t, steps), r)
    decreases |steps|
  {
    if steps != [] {
      EffectsNeedLeases(t, steps[0]);
      LeasesDoNotReturn(t, steps[0], r);
      LateAnswersHaveNoEffect(Apply(t, steps[0]), steps[1..], r);
      NoEffectThen(t, Apply(t, steps[0]), Run(t, steps), r);
    }
  }

  // ------------------------------------------------------------------ stops

  ghost predicate InFlight(t: Table, steps: seq<Step>, token: Token)
    decreases |steps|
  {
    token in t.requests && (steps == [] || InFlight(Apply(t, steps[0]), steps[1..], token))
  }

  /** What a stop captured when it was issued. */
  predicate Captured(t: Table, token: Token, s: SessionId, turn: Option<Turn>) {
    token in t.requests && t.requests[token].Stop? && t.requests[token].session == s
        && t.requests[token].captured == turn
  }

  lemma AnswersKeepCapture(t: Table, step: Step, token: Token, s: SessionId, turn: Option<Turn>)
    requires step.AnswerSend? || step.AnswerSubscribe? || step.FinishReleaseTurn?
    requires Captured(t, token, s, turn)
    ensures Captured(Apply(t, step), token, s, turn)
  {
    match step
    case AnswerSend(_, _, _) =>
    case AnswerSubscribe(_, _) =>
    case FinishReleaseTurn(_) =>
  }

  lemma AnswerStopKeepsCapture(t: Table, other: Token, valid: bool, token: Token, s: SessionId, turn: Option<Turn>)
    requires Captured(t, token, s, turn) && token in FinishStop(t, other, valid).requests
    ensures Captured(FinishStop(t, other, valid), token, s, turn)
  {}

  lemma BeginsKeepCapture(t: Table, step: Step, token: Token, s: SessionId, turn: Option<Turn>)
    requires step.BeginSend? || step.BeginStop? || step.BindStop? || step.BeginSubscribe? || step.BeginReleaseTurn?
    requires Captured(t, token, s, turn)
    ensures Captured(Apply(t, step), token, s, turn)
  {
    match step
    case BeginSend(_, _, _) =>
    case BeginStop(_, _) =>
    case BindStop(_) =>
    case BeginSubscribe(_, _) =>
    case BeginReleaseTurn(_, _, _, _) =>
  }

  lemma StepKeepsCapture(t: Table, step: Step, token: Token, s: SessionId, turn: Option<Turn>)
    requires Captured(t, token, s, turn) && token in Apply(t, step).requests
    ensures Captured(Apply(t, step), token, s, turn)
  {
    match step
    case AnswerSend(_, _, _) => AnswersKeepCapture(t, step, token, s, turn);
    case AnswerSubscribe(_, _) => AnswersKeepCapture(t, step, token, s, turn);
    case FinishReleaseTurn(_) => AnswersKeepCapture(t, step, token, s, turn);
    case AnswerStop(other, valid) => AnswerStopKeepsCapture(t, other, valid, token, s, turn);
    case BeginSend(_, _, _) => BeginsKeepCapture(t, step, token, s, turn);
    case BeginStop(_, _) => BeginsKeepCapture(t, step, token, s, turn);
    case BindStop(_) => BeginsKeepCapture(t, step, token, s, turn);
    case BeginSubscribe(_, _) => BeginsKeepCapture(t, step, token, s, turn);
    case BeginReleaseTurn(_, _, _, _) => BeginsKeepCapture(t, step, token, s, turn);
    case Connect(_) =>
    case EngineLive =>
    case Grant =>
    case DropLease(_) =>
    case _ => EngineKeepsNames(t, step);
  }

  lemma {:induction false} CaptureStands(t: Table, steps: seq<Step>, token: Token, s: SessionId, turn: Option<Turn>)
    requires InFlight(t, steps, token) && Captured(t, token, s, turn)
    ensures Captured(Run(t, steps), token, s, turn)
    decreases |steps|
  {
    if steps != [] {
      StepKeepsCapture(t, steps[0], token, s, turn);
      CaptureStands(Apply(t, steps[0]), steps[1..], token, s, turn);
    }
  }

  /** The turns a stop's answer changes: the captured one at most, and only for a leased request with a valid answer. */
  lemma AnswerEndsCaptured(u: Table, token: Token, s: SessionId, turn: Option<Turn>, valid: bool, x: SessionId)
    requires Captured(u, token, s, turn) && x in u.turns
    ensures var v := FinishStop(u, token, valid);
            x !in v.turns || v.turns[x] != u.turns[x] ==>
              x == s && turn.Some? && u.turns[x].token == turn.value.token && token in u.leases && valid
  {}

  /** A stop issued while `s` was in `t`, whatever happens before its answer, ends no turn but the one `s` had then. */
  lemma StopEndsOnlyCapturedTurn(t: Table, token: Token, s: SessionId, steps: seq<Step>, valid: bool, x: SessionId)
    requires token in t.leases && token !in t.requests
    requires InFlight(Apply(t, BeginStop(token, s)), steps, token)
    requires x in Run(Apply(t, BeginStop(token, s)), steps).turns
    ensures var u := Run(Apply(t, BeginStop(token, s)), steps); var v := FinishStop(u, token, valid);
            x !in v.turns || v.turns[x] != u.turns[x] ==>
              x == s && s in t.turns && u.turns[x].token == t.turns[s].token && token in u.leases && valid
  {
    var turn := if s in t.turns then Some(t.turns[s]) else None;
    var t1 := Apply(t, BeginStop(token, s));
    CaptureStands(t1, steps, token, s, turn);
    AnswerEndsCaptured(Run(t1, steps), token, s, turn, valid, x);
  }

  /** An acknowledged stop leaves its session without an active turn. */
  lemma AcknowledgedStopLeavesNoTurn(t: Table, token: Token, valid: bool)
    requires token in t.requests && t.requests[token].Stop? && StopAcknowledged(t, token, valid)
    ensures t.requests[token].session !in FinishStop(t, token, valid).turns
  {}

  /** The terminal event of this very turn, at the boundary the engine armed for it. */
  predicate OwnTerminal(t: Table, step: Step, g: Generation, token: Token) {
    && step.Terminal? && t.live == Some(g) && Current(t, step.session, token)
    && step.session in t.engineTurns && t.engineTurns[step.session].Armed?
    && t.turns[step.session].boundary == Some(t.engineTurns[step.session].boundary)
  }

  /** The turn's socket has negotiated to release turns itself. */
  predicate ReleasesItself(t: Table, s: SessionId)
    requires s in t.turns
  {
    t.turns[s].socket.Some? && t.turns[s].socket.value in t.exactRelease
  }

  /** One turn is gone from both records, its permissions are denied, and nothing else of these has moved. */
  ghost predicate TurnGone(t: Table, u: Table, s: SessionId, token: Token) {
    && u.turns == t.turns - {s} && u.engineTurns == t.engineTurns - {s}
    && (forall id :: id in u.pending <==>
          id in t.pending && !(t.pending[id].session == s && t.pending[id].turnToken == token))
    && (forall id <- u.pending :: u.pending[id] == t.pending[id])
    && u.answers == t.answers + multiset(t.pending.Keys - u.pending.Keys)
  }

  /** The two tables differ at most in turns, permissions, answers and winners. */
  predicate SameBut(t: Table, u: Table) {
    u == t.(turns := u.turns, engineTurns := u.engineTurns, pending := u.pending, answers := u.answers, won := u.won)
  }

  /** What the terminal event of a session has to do. */
  ghost predicate TerminalObserved(t: Table, u: Table, s: SessionId) {
    && (forall g, token | OwnTerminal(t, Terminal(s), g, token) ::
          if ReleasesItself(t, s) then u == t
          else TurnGone(t, u, s, token) && u.won == t.won + {(g, token)} && SameBut(t, u))
    && ((forall g, token :: !OwnTerminal(t, Terminal(s), g, token)) ==> u == t)
  }

  /**
   A terminal event ends the turn it belongs to and makes it a winner, exactly when the turn's socket is gone or does
   not release turns itself; every other terminal event leaves the table alone.
   */
  lemma TerminalEndsIff(t: Table, s: SessionId)
    ensures TerminalObserved(t, OnTerminal(t, s), s)
  {
    if OnTerminal(t, s) != t { assert OwnTerminal(t, Terminal(s), t.live.value, t.turns[s].token); }
    forall g, token | OwnTerminal(t, Terminal(s), g, token) && !ReleasesItself(t, s)
      ensures TurnGone(t, OnTerminal(t, s), s, token)
    {
      EndedIsGone(t, s);
    }
  }

  lemma EndedIsGone(t: Table, s: SessionId)
    requires s in t.turns
    ensures TurnGone(t, EndTurn(t, s), s, t.turns[s].token) && SameBut(t, EndTurn(t, s)) && EndTurn(t, s).won == t.won
  {
    assert t.pending.Keys - EndTurn(t, s).pending.Keys == PermissionsOf(t, s, t.turns[s].token);
  }

  lemma StopKeepsWon(t: Table, token: Token, valid: bool)
    ensures FinishStop(t, token, valid).won == t.won
  {
    if token in t.requests && t.requests[token].Stop? { assert EndByStop(t, token, valid).won == t.won; }
  }

  lemma SendKeepsWon(t: Table, token: Token, valid: bool, boundary: Boundary)
    ensures FinishSend(t, token, valid, boundary).won == t.won
  {}

  lemma FinishesKeepWon(t: Table, token: Token, valid: bool)
    ensures FinishSubscribe(t, token, valid).won == t.won && FinishRelease(t, token).won == t.won
  {}

  lemma BeginsKeepWon(t: Table, step: Step)
    requires step.BeginSend? || step.BeginStop? || step.BindStop? || step.BeginSubscribe? || step.BeginReleaseTurn?
    ensures Apply(t, step).won == t.won
  {
    match step
    case BeginSend(_, _, _) =>
    case BeginStop(_, _) =>
    case BindStop(_) =>
    case BeginSubscribe(_, _) =>
    case BeginReleaseTurn(_, _, _, _) =>
  }

  lemma EngineKeepsWon(t: Table, step: Step)
    requires step.EngineLost? || step.RequestPermission? || step.AnswerPermission? || step.ExpirePermission?
             || step.CloseSocket?
          || step.BrokerCloses?
    ensures Apply(t, step).won == t.won
  {
    match step
    case EngineLost =>
    case RequestPermission(_) =>
    case AnswerPermission(_, _) =>
    case ExpirePermission(_) =>
    case CloseSocket(_) =>
    case BrokerCloses =>
  }

  lemma WonByOwnTerminal(t: Table, step: Step, g: Generation, token: Token)
    ensures (g, token) in Apply(t, step).won && (g, token) !in t.won ==> OwnTerminal(t, step, g, token)
  {
    match step
    case Terminal(s) =>
    case AnswerStop(request, valid) => StopKeepsWon(t, request, valid);
    case AnswerSend(request, valid, boundary) => SendKeepsWon(t, request, valid, boundary);
    case AnswerSubscribe(request, valid) => FinishesKeepWon(t, request, valid);
    case FinishReleaseTurn(request) => FinishesKeepWon(t, request, true);
    case BeginSend(_, _, _) => BeginsKeepWon(t, step);
    case BeginStop(_, _) => BeginsKeepWon(t, step);
    case BindStop(_) => BeginsKeepWon(t, step);
    case BeginSubscribe(_, _) => BeginsKeepWon(t, step);
    case BeginReleaseTurn(_, _, _, _) => BeginsKeepWon(t, step);
    case Connect(_) =>
    case EngineLive =>
    case Grant =>
    case DropLease(_) =>
    case _ => EngineKeepsWon(t, step);
  }

  /** Over a run, a turn counts as ended by its own terminal event only if that event was one of the run's steps. */
  lemma {:induction false} WonInRun(t: Table, steps: seq<Step>, g: Generation, token: Token) returns (i: nat)
    requires (g, token) in Run(t, steps).won && (g, token) !in t.won
    ensures i < |steps| && OwnTerminal(Run(t, steps[..i]), steps[i], g, token)
    decreases |steps|
  {
    var next := Apply(t, steps[0]);
    if (g, token) in next.won {
      i := 0;
      WonByOwnTerminal(t, steps[0], g, token);
      assert steps[..0] == [];
    } else {
      i := WonInRun(next, steps[1..], g, token);
      i := i + 1;
      assert steps[..i][0] == steps[0] && steps[..i][1..] == steps[1..][..i - 1];
    }
  }

  /**
   What an acknowledgement means, over every run: the captured turn is ended by it, or was by its own terminal event.
   */
  lemma AcknowledgedStopEndedItsTurn(steps: seq<Step>, token: Token, valid: bool)
    requires var t := Run(EMPTY, steps);
             && token in t.requests && t.requests[token].Stop? && t.requests[token].captured.Some?
                && StopAcknowledged(t, token, valid)
    ensures var t := Run(EMPTY, steps); var r := t.requests[token];
            && r.session !in FinishStop(t, token, valid).turns
            && (|| Current(t, r.session, r.captured.value.token)
                || exists i :: 0 <= i < |steps| && OwnTerminal(Run(EMPTY, steps[..i]), steps[i], r.bound.value,
                                                               r.captured.value.token))
  {
    var t := Run(EMPTY, steps);
    var r := t.requests[token];
    AcknowledgedStopLeavesNoTurn(t, token, valid);
    if !Current(t, r.session, r.captured.value.token) {
      var i := WonInRun(EMPTY, steps, r.bound.value, r.captured.value.token);
    }
  }
}
