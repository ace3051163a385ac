/**
 What the steps of the turn machine do to a turn, a permission and a request, and in which states: both ways round.
 */
module TurnEffects {
  import opened Options
  import opened Turns
  import opened TurnRuns

  // ---------------------------------------------------------------- effects

  predicate IsRequest(t: Table, token: Token, r: Request) { token in t.requests && t.requests[token] == r }

  /** The answer of a send arms its turn exactly when its lease, its engine and its turn are still its own. */
  lemma ArmsIff(t: Table, token: Token, valid: bool, boundary: Boundary, s: SessionId, g: Generation)
    requires IsRequest(t, token, Send(s, g))
    ensures var u := Apply(t, AnswerSend(token, valid, boundary));
            && token !in u.requests
            && (u.log == t.log + [ArmedTurn(token)] <==>
                  && valid && token in t.leases && t.live == Some(g)
                  && s in t.turns && t.turns[s].token == token && s in t.engineTurns && t.engineTurns[s].Sending?)
            && (u.log == t.log + [ArmedTurn(token)] ==>
                  && u.turns == t.turns[s := t.turns[s].(boundary := Some(boundary))]
                  && u.engineTurns == t.engineTurns[s := Armed(boundary)] && u.pending == t.pending)
            && (u.log != t.log + [ArmedTurn(token)] ==> u.log == t.log)
  {}

  lemma StopShape(t: Table, token: Token, valid: bool)
    requires token in t.requests && t.requests[token].Stop?
    ensures var u, v := FinishStop(t, token, valid), EndByStop(t, token, valid);
            var ended := if StopEndsTurn(t, token, valid) then Some(t.requests[token].captured.value.token) else None;
            && u.log == (if StopAcknowledged(t, token, valid) then t.log + [SettledStop(token, ended)] else t.log)
            && u == v.(log := u.log, stopping := u.stopping, requests := t.requests - {token})
  {
    var v := EndByStop(t, token, valid);
    assert v == t.(turns := v.turns, engineTurns := v.engineTurns, pending := v.pending, answers := v.answers);
  }

  lemma StopForgotten(t: Table, token: Token, valid: bool, x: SessionId)
    requires token in t.requests && t.requests[token].Stop?
    ensures var u := FinishStop(t, token, valid);
            x in u.stopping <==> x in t.stopping && !(x == t.requests[token].session && t.stopping[x] == token)
  {
    assert EndByStop(t, token, valid).stopping == t.stopping;
  }

  /** What an acknowledgement says of the turn the stop captured: ended here, or ended before with none since. */
  predicate Accounts(t: Table, s: SessionId, g: Generation, turn: Option<Turn>, ended: Option<Token>) {
    match ended
    case Some(own) => turn.Some? && turn.value.token == own && Current(t, s, own)
    case None => s !in t.turns && (turn.Some? ==> (g, turn.value.token) in t.won)
  }

  lemma SettlesIff(t: Table, token: Token, s: SessionId, g: Generation, turn: Option<Turn>)
    requires IsRequest(t, token, Stop(s, Some(g), turn))
    ensures StopSettles(t, t.requests[token]) <==> exists ended :: Accounts(t, s, g, turn, ended)
  {
    if StopSettles(t, t.requests[token]) {
      var ended := if s in t.turns then Some(t.turns[s].token) else None;
      assert Accounts(t, s, g, turn, ended);
    }
  }

  /**
   The answer of a stop is acknowledged exactly when it is valid for a standing request and the captured turn is the
   session's, or was ended by its own terminal event and not replaced, or there was none and is none.
   */
  lemma AcknowledgesIff(t: Table, token: Token, valid: bool, s: SessionId, g: Option<Generation>, turn: Option<Turn>,
                        ended: Option<Token>)
    requires IsRequest(t, token, Stop(s, g, turn))
    ensures var u := Apply(t, AnswerStop(token, valid));
            && (u.log == t.log + [SettledStop(token, ended)] <==>
                  && valid && g.Some? && t.live == g && token in t.leases
                  && s in t.stopping && t.stopping[s] == token && Accounts(t, s, g.value, turn, ended))
            && (u.log == t.log || exists e :: u.log == t.log + [SettledStop(token, e)])
  {
    StopShape(t, token, valid);
    if g.Some? { SettlesIff(t, token, s, g.value, turn); }
    var own := if StopEndsTurn(t, token, valid) then Some(turn.value.token) else None;
    assert t.log + [SettledStop(token, ended)] == t.log + [SettledStop(token, own)] ==> ended == own by {
      assert (t.log + [SettledStop(token, ended)])[|t.log|] == SettledStop(token, ended);
      assert (t.log + [SettledStop(token, own)])[|t.log|] == SettledStop(token, own);
    }
    assert t.log + [SettledStop(token, ended)] != t.log;
  }

  /** It ends the captured turn exactly if it says so, and moves no turn and no permission otherwise. */
  lemma AcknowledgedEnds(t: Table, token: Token, valid: bool, ended: Option<Token>)
    requires token in t.requests && t.requests[token].Stop?
    requires var u := Apply(t, AnswerStop(token, valid)); u.log == t.log || u.log == t.log + [SettledStop(token, ended)]
    ensures var u := Apply(t, AnswerStop(token, valid));
            if u.log != t.log && ended.Some? then TurnGone(t, u, t.requests[token].session, ended.value)
            else u.turns == t.turns && u.engineTurns == t.engineTurns && u.pending == t.pending
  {
    StopShape(t, token, valid);
    if StopEndsTurn(t, token, valid) {
      EndingStop(t, token, valid);
      LastLogged(t.log, SettledStop(token, ended), SettledStop(token, Some(t.requests[token].captured.value.token)));
    } else {
      OtherStop(t, token, valid);
      LastLogged(t.log, SettledStop(token, ended), SettledStop(token, None));
    }
  }

  lemma LastLogged(log: seq<Effect>, a: Effect, b: Effect)
    ensures log + [a] != log && (log + [a] == log + [b] ==> a == b)
  {
    assert (log + [a])[|log|] == a && (log + [b])[|log|] == b;
  }

  /** The turn a stop's answer ends, if any. */
  function EndedBy(t: Table, token: Token, valid: bool): Option<Token>
    requires token in t.requests && t.requests[token].Stop?
  {
    if StopEndsTurn(t, token, valid) then Some(t.requests[token].captured.value.token) else None
  }

  lemma GoneToo(t: Table, u: Table, v: Table, s: SessionId, own: Token)
    requires TurnGone(t, u, s, own) && v.turns == u.turns && v.engineTurns == u.engineTurns && v.pending == u.pending
             && v.answers == u.answers
    ensures TurnGone(t, v, s, own)
  {}

  lemma EndingStop(t: Table, token: Token, valid: bool)
    requires token in t.requests && t.requests[token].Stop? && StopEndsTurn(t, token, valid)
    ensures TurnGone(t, FinishStop(t, token, valid), t.requests[token].session, t.requests[token].captured.value.token)
  {
    var s, own := t.requests[token].session, t.requests[token].captured.value.token;
    StopShape(t, token, valid);
    EndedIsGone(t, s);
    GoneToo(t, EndTurn(t, s), FinishStop(t, token, valid), s, own);
  }

  lemma OtherStop(t: Table, token: Token, valid: bool)
    requires token in t.requests && t.requests[token].Stop? && !StopEndsTurn(t, token, valid)
    ensures var u := FinishStop(t, token, valid);
            u.turns == t.turns && u.engineTurns == t.engineTurns && u.pending == t.pending
  {
    StopShape(t, token, valid);
  }

  ghost predicate Logs(t: Table, token: Token, valid: bool, own: Token)
    requires token in t.requests && t.requests[token].Stop?
  {
    FinishStop(t, token, valid).log == t.log + [SettledStop(token, Some(own))]
    <==> StopEndsTurn(t, token, valid) && t.requests[token].captured.value.token == own
  }

  /** A subscription counts exactly when its topic, its lease and its engine are still its own. */
  lemma SubscribesIff(t: Table, token: Token, valid: bool, s: SessionId, g: Generation)
    requires IsRequest(t, token, Subscribe(s, g))
    ensures var u := Apply(t, AnswerSubscribe(token, valid));
            && token !in u.requests && !(s in u.topics && u.topics[s] == token)
            && (forall x <- t.topics | x != s || t.topics[x] != token :: x in u.topics && u.topics[x] == t.topics[x])
            && (u.log == t.log + [Subscribed(token)] <==>
                  && valid && token in t.leases && t.live == Some(g) && s in t.topics && t.topics[s] == token)
            && (u.log != t.log + [Subscribed(token)] ==> u.log == t.log)
  {}

  // --------------------------------------------------------------- requests

  predicate NewRequest(t: Table, token: Token) { token in t.leases && token !in t.requests }

  /** A send goes upstream exactly when the engine holds no turn of the session; its turn is the session's then. */
  lemma SendBeginsIff(t: Table, token: Token, s: SessionId, socket: Socket)
    requires token !in t.requests
    ensures var u := Apply(t, BeginSend(token, s, socket));
            && (token in u.requests <==> token in t.leases && t.live.Some? && s !in t.engineTurns)
            && (token in u.requests ==>
                  && IsRequest(u, token, Send(s, t.live.value))
                  && s in u.turns && u.turns[s] == Turn(token, Some(socket), false, None)
                  && s in u.engineTurns && u.engineTurns[s].Sending?)
  {}

  /** A stop captures the turn the session has when it is issued, if any. */
  lemma StopBeginsIff(t: Table, token: Token, s: SessionId)
    requires token !in t.requests
    ensures var u := Apply(t, BeginStop(token, s));
            && (token in u.requests <==> token in t.leases)
            && (token in u.requests ==>
                  && IsRequest(u, token, Stop(s, None, if s in t.turns then Some(t.turns[s]) else None))
                  && s in u.stopping && u.stopping[s] == token)
  {}

  /** One subscription of a topic is under way at a time. */
  lemma SubscribeBeginsIff(t: Table, token: Token, s: SessionId)
    requires token !in t.requests
    ensures var u := Apply(t, BeginSubscribe(token, s));
            && (token in u.requests <==> token in t.leases && t.live.Some? && s !in t.topics)
            && (token in u.requests ==>
                  IsRequest(u, token, Subscribe(s, t.live.value)) && s in u.topics && u.topics[s] == token)
  {}

  /** An exact release is admitted exactly for the turn's own socket and boundary. */
  lemma ReleaseBeginsIff(t: Table, token: Token, s: SessionId, socket: Socket, boundary: Boundary)
    requires token !in t.requests
    ensures var u := Apply(t, BeginReleaseTurn(token, s, socket, boundary));
            && (token in u.requests <==>
                  && token in t.leases && t.live.Some? && s in t.turns && t.turns[s].socket == Some(socket)
                  && t.turns[s].boundary == Some(boundary))
            && (token in u.requests ==>
                  && IsRequest(u, token, ReleaseTurn(s, t.live.value, t.turns[s].token, socket, boundary))
                  && s in u.turns && u.turns[s] == t.turns[s].(releasing := true))
  {}

  /** A stop is bound once, to the engine that is live then, and only while its lease stands. */
  lemma BindsIff(t: Table, token: Token, s: SessionId, turn: Option<Turn>, bound: Option<Generation>)
    requires IsRequest(t, token, Stop(s, bound, turn))
    ensures var u := Apply(t, BindStop(token));
            IsRequest(u, token, Stop(s, if bound.None? && token in t.leases then t.live else bound, turn))
  {}

  // ------------------------------------------------------------------ turns

  /** An exact release ends this turn: after the drain, with everything as it was when the turn was marked. */
  predicate ReleaseEnds(t: Table, token: Token, s: SessionId, own: Token) {
    && token in t.requests && t.requests[token].ReleaseTurn? && token in t.leases
    && var r := t.requests[token];
       && r.session == s && r.turnToken == own && t.live == Some(r.generation) && Drained(t, s)
       && s in t.turns && t.turns[s].socket == Some(r.socket) && t.turns[s].boundary == Some(r.boundary)
  }

  /** The answer of a send that armed nothing, on the way from `t` to `u`. */
  predicate SendFails(t: Table, u: Table, step: Step) {
    step.AnswerSend? && step.token in t.requests && t.requests[step.token].Send? && u.log == t.log
  }

  /** A send that the engine's client lets in, as it holds no turn of the session. */
  predicate SendBegins(t: Table, step: Step) {
    step.BeginSend? && NewRequest(t, step.token) && t.live.Some? && step.session !in t.engineTurns
  }

  /** Everything that can end the active turn `own` of a session; `u` is the table after the step. */
  predicate EndsTurn(t: Table, u: Table, step: Step, s: SessionId, own: Token)
    requires Current(t, s, own)
  {
    match step
    case EngineLost => t.live.Some?
    case Terminal(x) => t.live.Some? && x == s && OwnTerminal(t, step, t.live.value, own) && !ReleasesItself(t, s)
    case AnswerStop(r, _) =>
      r in t.requests && t.requests[r].session == s && u.log == t.log + [SettledStop(r, Some(own))]
    case AnswerSend(r, _, _) => SendFails(t, u, step) && r == own && t.requests[r].session == s
    case FinishReleaseTurn(r) => ReleaseEnds(t, r, s, own)
    case BeginSend(r, x, _) => SendBegins(t, step) && x == s && r != own
    case _ => false
  }

  lemma ReleaseEndsTurn(t: Table, token: Token, s: SessionId, own: Token)
    requires Current(t, s, own)
    ensures !Current(Apply(t, FinishReleaseTurn(token)), s, own) <==> ReleaseEnds(t, token, s, own)
  {}

  lemma LogsItsEnd(t: Table, r: Token, valid: bool, own: Token)
    requires r in t.requests && t.requests[r].Stop?
    ensures FinishStop(t, r, valid).log == t.log + [SettledStop(r, Some(own))] <==> EndedBy(t, r, valid) == Some(own)
  {
    StopShape(t, r, valid);
    LastLogged(t.log, SettledStop(r, Some(own)), SettledStop(r, EndedBy(t, r, valid)));
  }

  lemma EndedByStop(t: Table, r: Token, valid: bool, s: SessionId, own: Token)
    requires r in t.requests && t.requests[r].Stop? && Current(t, s, own)
    ensures !Current(FinishStop(t, r, valid), s, own)
            <==> t.requests[r].session == s && EndedBy(t, r, valid) == Some(own)
  {
    if StopEndsTurn(t, r, valid) { EndingStop(t, r, valid); } else { OtherStop(t, r, valid); }
  }

  lemma StopEndsItsTurn(t: Table, r: Token, valid: bool, s: SessionId, own: Token)
    requires Current(t, s, own)
    ensures var u := FinishStop(t, r, valid);
            !Current(u, s, own) <==> EndsTurn(t, u, AnswerStop(r, valid), s, own)
  {
    if r in t.requests {
      if t.requests[r].Stop? {
        LogsItsEnd(t, r, valid, own);
        EndedByStop(t, r, valid, s, own);
      } else {
        LastLogged(t.log, SettledStop(r, Some(own)), SettledStop(r, None));
      }
    }
  }

  lemma SendEndsItsTurn(t: Table, r: Token, valid: bool, boundary: Boundary, s: SessionId, own: Token)
    requires Current(t, s, own)
    ensures !Current(Apply(t, AnswerSend(r, valid, boundary)), s, own)
            <==> EndsTurn(t, Apply(t, AnswerSend(r, valid, boundary)), AnswerSend(r, valid, boundary), s, own)
  {
    if r in t.requests && t.requests[r].Send? {
      ArmsIff(t, r, valid, boundary, t.requests[r].session, t.requests[r].generation);
    }
  }

  lemma BeginsEndNothing(t: Table, step: Step, s: SessionId, own: Token)
    requires step.BeginStop? || step.BindStop? || step.BeginSubscribe? || step.AnswerSubscribe?
             || step.BeginReleaseTurn?
    requires Current(t, s, own)
    ensures Current(Apply(t, step), s, own)
  {
    match step
    case BeginStop(_, _) =>
    case BindStop(_) =>
    case BeginSubscribe(_, _) =>
    case AnswerSubscribe(_, _) =>
    case BeginReleaseTurn(_, _, _, _) =>
  }

  lemma EngineEndsTurns(t: Table, step: Step, s: SessionId, own: Token)
    requires step.EngineLost? || step.RequestPermission? || step.AnswerPermission? || step.ExpirePermission?
             || step.CloseSocket? || step.BrokerCloses?
    requires Current(t, s, own)
    ensures !Current(Apply(t, step), s, own) <==> EndsTurn(t, Apply(t, step), step, s, own)
  {
    match step
    case EngineLost =>
    case RequestPermission(_) =>
    case AnswerPermission(_, _) =>
    case ExpirePermission(_) =>
    case CloseSocket(_) =>
    case BrokerCloses =>
  }

  lemma SendReplaces(t: Table, token: Token, x: SessionId, socket: Socket, s: SessionId, own: Token)
    requires Current(t, s, own)
    ensures !Current(Apply(t, BeginSend(token, x, socket)), s, own)
            <==> EndsTurn(t, Apply(t, BeginSend(token, x, socket)), BeginSend(token, x, socket), s, own)
  {}

  /** This terminal event ends its session's turn. */
  predicate TerminalEnds(t: Table, x: SessionId) {
    && t.live.Some? && x in t.turns && OwnTerminal(t, Terminal(x), t.live.value, t.turns[x].token)
    && !ReleasesItself(t, x)
  }

  lemma TerminalCases(t: Table, x: SessionId)
    ensures var u := OnTerminal(t, x);
            if TerminalEnds(t, x) then u.turns == t.turns - {x} && u.engineTurns == t.engineTurns - {x} else u == t
  {}

  lemma TerminalEndsItsTurn(t: Table, x: SessionId, s: SessionId, own: Token)
    requires Current(t, s, own)
    ensures !Current(OnTerminal(t, x), s, own) <==> EndsTurn(t, OnTerminal(t, x), Terminal(x), s, own)
  {
    TerminalCases(t, x);
  }

  /** A step ends an active turn exactly when it is one of these. */
  lemma TurnEndsIff(t: Table, step: Step, s: SessionId, own: Token)
    requires Current(t, s, own)
    ensures !Current(Apply(t, step), s, own) <==> EndsTurn(t, Apply(t, step), step, s, own)
  {
    match step
    case Connect(_) =>
    case EngineLive =>
    case Grant =>
    case DropLease(_) =>
    case Terminal(x) => TerminalEndsItsTurn(t, x, s, own);
    case BeginSend(token, x, socket) => SendReplaces(t, token, x, socket, s, own);
    case AnswerStop(r, valid) => StopEndsItsTurn(t, r, valid, s, own);
    case AnswerSend(r, valid, boundary) => SendEndsItsTurn(t, r, valid, boundary, s, own);
    case FinishReleaseTurn(r) => ReleaseEndsTurn(t, r, s, own);
    case BeginStop(_, _) => BeginsEndNothing(t, step, s, own);
    case BindStop(_) => BeginsEndNothing(t, step, s, own);
    case BeginSubscribe(_, _) => BeginsEndNothing(t, step, s, own);
    case AnswerSubscribe(_, _) => BeginsEndNothing(t, step, s, own);
    case BeginReleaseTurn(_, _, _, _) => BeginsEndNothing(t, step, s, own);
    case _ => EngineEndsTurns(t, step, s, own);
  }

  /** A turn begins exactly with a send that the engine's client lets in. */
  lemma TurnBeginsIff(t: Table, step: Step, s: SessionId)
    requires s !in t.turns
    ensures s in Apply(t, step).turns <==> SendBegins(t, step) && step.session == s
  {
    match step
    case Terminal(x) => TerminalEndsIff(t, x);
    case AnswerStop(r, valid) => if r in t.requests && t.requests[r].Stop? { StopTurnsShrink(t, r, valid); }
    case AnswerSend(_, _, _) => ReleaseBeginsNoTurn(t, step);
    case FinishReleaseTurn(_) => ReleaseBeginsNoTurn(t, step);
    case BeginReleaseTurn(_, _, _, _) => ReleaseBeginsNoTurn(t, step);
    case _ =>
  }

  lemma ReleaseBeginsNoTurn(t: Table, step: Step)
    requires step.AnswerSend? || step.FinishReleaseTurn? || step.BeginReleaseTurn?
    ensures Apply(t, step).turns.Keys <= t.turns.Keys
  {
    match step
    case AnswerSend(_, _, _) =>
    case FinishReleaseTurn(_) =>
    case BeginReleaseTurn(_, _, _, _) =>
  }

  lemma StopTurnsShrink(t: Table, r: Token, valid: bool)
    requires r in t.requests && t.requests[r].Stop?
    ensures Apply(t, AnswerStop(r, valid)).turns.Keys <= t.turns.Keys
  {}

  // ------------------------------------------------ turns that go on

  predicate Marks(t: Table, step: Step, s: SessionId) {
    && step.BeginReleaseTurn? && step.session == s && NewRequest(t, step.token) && t.live.Some?
    && s in t.turns && t.turns[s].socket == Some(step.socket) && t.turns[s].boundary == Some(step.boundary)
  }

  /** The end of the exact release that names this turn, without releasing it. */
  predicate Unmarks(t: Table, step: Step, s: SessionId)
    requires s in t.turns
  {
    && step.FinishReleaseTurn? && step.token in t.requests && t.requests[step.token].ReleaseTurn?
    && var r := t.requests[step.token];
       && r.session == s && r.turnToken == t.turns[s].token && (t.live == Some(r.generation) ==> Drained(t, s))
  }

  predicate ArmsTurn(t: Table, u: Table, step: Step, s: SessionId) {
    && step.AnswerSend? && step.token in t.requests && t.requests[step.token].session == s
    && u.log == t.log + [ArmedTurn(step.token)]
  }

  /** A turn that goes on moves its socket, its mark and its boundary by these steps only, and each as it says. */
  predicate MovesAsSaid(t: Table, u: Table, step: Step, s: SessionId)
    requires s in t.turns && s in u.turns
  {
    var was, now := t.turns[s], u.turns[s];
    && now.token == was.token
    && now.socket == (if step.CloseSocket? && was.socket == Some(step.socket) then None else was.socket)
    && now.releasing == (if Marks(t, step, s) then true else if Unmarks(t, step, s) then false else was.releasing)
    && now.boundary == (if ArmsTurn(t, u, step, s) then Some(step.boundary) else was.boundary)
  }

  lemma SendMoves(t: Table, step: Step, s: SessionId)
    requires step.AnswerSend? && s in t.turns && s in Apply(t, step).turns
    ensures MovesAsSaid(t, Apply(t, step), step, s)
  {
    if step.token in t.requests && t.requests[step.token].Send? {
      ArmsIff(t, step.token, step.valid, step.boundary, t.requests[step.token].session,
              t.requests[step.token].generation);
    }
  }

  lemma StopMoves(t: Table, step: Step, s: SessionId)
    requires step.AnswerStop? && s in t.turns && s in Apply(t, step).turns
    ensures MovesAsSaid(t, Apply(t, step), step, s)
  {
    if step.token in t.requests && t.requests[step.token].Stop? { StopShape(t, step.token, step.valid); }
  }

  lemma ReleasedTurns(t: Table, token: Token, s: SessionId)
    requires s in t.turns && s in FinishRelease(t, token).turns
    ensures FinishRelease(t, token).turns[s] ==
            if Unmarks(t, FinishReleaseTurn(token), s) then t.turns[s].(releasing := false) else t.turns[s]
  {}

  lemma ReleaseMoves(t: Table, token: Token, s: SessionId)
    requires s in t.turns && s in FinishRelease(t, token).turns
    ensures MovesAsSaid(t, FinishRelease(t, token), FinishReleaseTurn(token), s)
  {
    ReleasedTurns(t, token, s);
  }

  lemma TerminalMoves(t: Table, x: SessionId, s: SessionId)
    requires s in t.turns && s in OnTerminal(t, x).turns
    ensures MovesAsSaid(t, OnTerminal(t, x), Terminal(x), s)
  {
    TerminalCases(t, x);
  }

  lemma SendBeginMoves(t: Table, token: Token, x: SessionId, socket: Socket, s: SessionId)
    requires s in t.turns && !(SendBegins(t, BeginSend(token, x, socket)) && x == s)
    ensures var u := StartSend(t, token, x, socket); s in u.turns && MovesAsSaid(t, u, BeginSend(token, x, socket), s)
  {}

  lemma NamesMove(t: Table, step: Step, s: SessionId)
    requires step.Connect? || step.EngineLive? || step.Grant? || step.DropLease?
    requires s in t.turns && s in Apply(t, step).turns
    ensures MovesAsSaid(t, Apply(t, step), step, s)
  {}

  lemma BeginsMove(t: Table, step: Step, s: SessionId)
    requires step.BeginStop? || step.BindStop? || step.BeginSubscribe? || step.AnswerSubscribe?
             || step.BeginReleaseTurn?
    requires s in t.turns && s in Apply(t, step).turns
    ensures MovesAsSaid(t, Apply(t, step), step, s)
  {
    match step
    case BeginStop(_, _) =>
    case BindStop(_) =>
    case BeginSubscribe(_, _) =>
    case AnswerSubscribe(_, _) =>
    case BeginReleaseTurn(_, _, _, _) =>
  }

  lemma CloseMoves(t: Table, step: Step, s: SessionId)
    requires step.CloseSocket? && s in t.turns && s in Apply(t, step).turns
    ensures MovesAsSaid(t, Apply(t, step), step, s)
  {}

  lemma AskMoves(t: Table, x: SessionId, s: SessionId)
    requires s in t.turns && s in AskPermission(t, x).turns
    ensures MovesAsSaid(t, AskPermission(t, x), RequestPermission(x), s)
  {}

  lemma EngineMoves(t: Table, step: Step, s: SessionId)
    requires step.EngineLost? || step.AnswerPermission? || step.ExpirePermission? || step.BrokerCloses?
    requires s in t.turns && s in Apply(t, step).turns
    ensures MovesAsSaid(t, Apply(t, step), step, s)
  {
    match step
    case EngineLost =>
    case AnswerPermission(_, _) =>
    case ExpirePermission(_) =>
    case BrokerCloses =>
  }

  /** So a step that leaves a session's turn active moves it exactly as said, unless it begins the session's next. */
  lemma TurnMovesIff(t: Table, step: Step, s: SessionId)
    requires s in t.turns && s in Apply(t, step).turns && !(SendBegins(t, step) && step.session == s)
    ensures MovesAsSaid(t, Apply(t, step), step, s)
  {
    match step
    case Terminal(x) => TerminalMoves(t, x, s);
    case BeginSend(token, x, socket) => SendBeginMoves(t, token, x, socket, s);
    case AnswerStop(_, _) => StopMoves(t, step, s);
    case AnswerSend(_, _, _) => SendMoves(t, step, s);
    case FinishReleaseTurn(token) => ReleaseMoves(t, token, s);
    case BeginStop(_, _) => BeginsMove(t, step, s);
    case BindStop(_) => BeginsMove(t, step, s);
    case BeginSubscribe(_, _) => BeginsMove(t, step, s);
    case AnswerSubscribe(_, _) => BeginsMove(t, step, s);
    case BeginReleaseTurn(_, _, _, _) => BeginsMove(t, step, s);
    case CloseSocket(_) => CloseMoves(t, step, s);
    case RequestPermission(x) => AskMoves(t, x, s);
    case Connect(_) => NamesMove(t, step, s);
    case EngineLive => NamesMove(t, step, s);
    case Grant => NamesMove(t, step, s);
    case DropLease(_) => NamesMove(t, step, s);
    case _ => EngineMoves(t, step, s);
  }

  // -------------------------------------------------------- the engine's record

  /** Everything that takes the engine's record of a session's turn away. A failing send does, whoever's turn it is. */
  predicate Unlinks(t: Table, u: Table, step: Step, s: SessionId) {
    match step
    case EngineLost => t.live.Some?
    case AnswerSend(r, _, _) =>
      SendFails(t, u, step) && t.requests[r].session == s && t.live == Some(t.requests[r].generation)
    case BeginSend(_, _, _) => false
    case _ => s in t.turns && EndsTurn(t, u, step, s, t.turns[s].token)
  }

  lemma SendUnlinks(t: Table, step: Step, s: SessionId)
    requires step.AnswerSend? && s in t.engineTurns
    ensures s !in Apply(t, step).engineTurns <==> Unlinks(t, Apply(t, step), step, s)
  {
    if step.token in t.requests && t.requests[step.token].Send? {
      ArmsIff(t, step.token, step.valid, step.boundary, t.requests[step.token].session,
              t.requests[step.token].generation);
    }
  }

  lemma StopUnlinks(t: Table, step: Step, s: SessionId)
    requires step.AnswerStop? && s in t.engineTurns
    ensures s !in Apply(t, step).engineTurns <==> Unlinks(t, Apply(t, step), step, s)
  {
    if step.token in t.requests && t.requests[step.token].Stop? {
      StopShape(t, step.token, step.valid);
      AcknowledgedEnds(t, step.token, step.valid, EndedBy(t, step.token, step.valid));
      LastLogged(t.log, SettledStop(step.token, EndedBy(t, step.token, step.valid)), SettledStop(step.token, None));
    }
  }

  lemma ReleaseUnlinks(t: Table, step: Step, s: SessionId)
    requires step.FinishReleaseTurn? && s in t.engineTurns
    ensures s !in Apply(t, step).engineTurns <==> Unlinks(t, Apply(t, step), step, s)
  {}

  lemma BeginsUnlink(t: Table, step: Step, s: SessionId)
    requires step.BeginSend? || step.BeginStop? || step.BindStop? || step.BeginSubscribe? || step.AnswerSubscribe?
             || step.BeginReleaseTurn?
    requires s in t.engineTurns
    ensures s in Apply(t, step).engineTurns && !Unlinks(t, Apply(t, step), step, s)
  {
    match step
    case BeginSend(_, _, _) =>
    case BeginStop(_, _) =>
    case BindStop(_) =>
    case BeginSubscribe(_, _) =>
    case AnswerSubscribe(_, _) =>
    case BeginReleaseTurn(_, _, _, _) =>
  }

  lemma EngineUnlinks(t: Table, step: Step, s: SessionId)
    requires step.EngineLost? || step.RequestPermission? || step.AnswerPermission? || step.ExpirePermission?
             || step.CloseSocket? || step.BrokerCloses?
    requires s in t.engineTurns
    ensures s !in Apply(t, step).engineTurns <==> Unlinks(t, Apply(t, step), step, s)
  {
    match step
    case EngineLost =>
    case RequestPermission(_) =>
    case AnswerPermission(_, _) =>
    case ExpirePermission(_) =>
    case CloseSocket(_) =>
    case BrokerCloses =>
  }

  lemma TerminalUnlinks(t: Table, x: SessionId, s: SessionId)
    requires s in t.engineTurns
    ensures s !in OnTerminal(t, x).engineTurns <==> Unlinks(t, OnTerminal(t, x), Terminal(x), s)
  {
    TerminalCases(t, x);
  }

  /** The engine's record of a session's turn goes exactly by these. */
  lemma UnlinksIff(t: Table, step: Step, s: SessionId)
    requires s in t.engineTurns
    ensures s !in Apply(t, step).engineTurns <==> Unlinks(t, Apply(t, step), step, s)
  {
    match step
    case Connect(_) =>
    case EngineLive =>
    case Grant =>
    case DropLease(_) =>
    case Terminal(x) => TerminalUnlinks(t, x, s);
    case AnswerStop(_, _) => StopUnlinks(t, step, s);
    case AnswerSend(_, _, _) => SendUnlinks(t, step, s);
    case FinishReleaseTurn(_) => ReleaseUnlinks(t, step, s);
    case BeginSend(_, _, _) => BeginsUnlink(t, step, s);
    case BeginStop(_, _) => BeginsUnlink(t, step, s);
    case BindStop(_) => BeginsUnlink(t, step, s);
    case BeginSubscribe(_, _) => BeginsUnlink(t, step, s);
    case AnswerSubscribe(_, _) => BeginsUnlink(t, step, s);
    case BeginReleaseTurn(_, _, _, _) => BeginsUnlink(t, step, s);
    case _ => EngineUnlinks(t, step, s);
  }

  // -------------------------------------------------------------- permissions

  /** When the engine asks for a permission in a session, this socket is asked. */
  predicate Askable(t: Table, s: SessionId, socket: Socket) {
    && s in t.engineTurns && s in t.turns && !t.turns[s].releasing
    && t.turns[s].socket == Some(socket) && socket in t.writable
  }

  /**
   A permission is put to the active turn's own socket exactly when it can be asked and fewer than 256 wait; it is
   denied with its own number when 256 wait, and without one otherwise.
   */
  lemma AsksIff(t: Table, s: SessionId)
    requires t.nextPermissionId !in t.pending
    ensures var u := Apply(t, RequestPermission(s)); var id := t.nextPermissionId;
            && (id in u.pending <==> (exists socket :: Askable(t, s, socket)) && |t.pending| < MAX_PENDING_PERMISSIONS)
            && (id in u.pending ==>
                  && u.pending == t.pending[id := u.pending[id]] && u.answers == t.answers
                  && u.pending[id].session == s && Current(t, s, u.pending[id].turnToken)
                  && Askable(t, s, u.pending[id].socket))
            && (id !in u.pending ==>
                  && u.pending == t.pending
                  && u.answers == if exists socket ::
                         Askable(t, s, socket) then t.answers + multiset{id} else t.answers)
  {
    if s in t.turns && t.turns[s].socket.Some? && Askable(t, s, t.turns[s].socket.value) {
      assert exists socket :: Askable(t, s, socket);
    }
  }

  /** Everything that answers a waiting permission: its socket, its timeout, or the end of what it belongs to. */
  predicate Answers(t: Table, u: Table, step: Step, id: nat)
    requires id in t.pending
  {
    var p := t.pending[id];
    match step
    case AnswerPermission(x, socket) => x == id && socket == p.socket
    case ExpirePermission(x) => x == id
    case CloseSocket(socket) => socket == p.socket
    case BrokerCloses => true
    case EngineLost => t.live.Some?
    case AnswerSend(r, _, _) => SendFails(t, u, step) && r == p.turnToken && t.requests[r].session == p.session
    case BeginReleaseTurn(_, _, _, _) => Marks(t, step, p.session) && Current(t, p.session, p.turnToken)
    case Terminal(_) => Current(t, p.session, p.turnToken) && EndsTurn(t, u, step, p.session, p.turnToken)
    case AnswerStop(_, _) => Current(t, p.session, p.turnToken) && EndsTurn(t, u, step, p.session, p.turnToken)
    case _ => false
  }

  lemma SendAnswers(t: Table, step: Step, id: nat)
    requires step.AnswerSend? && id in t.pending
    ensures id !in Apply(t, step).pending <==> Answers(t, Apply(t, step), step, id)
  {
    if step.token in t.requests && t.requests[step.token].Send? {
      ArmsIff(t, step.token, step.valid, step.boundary, t.requests[step.token].session,
              t.requests[step.token].generation);
    }
  }

  lemma StopAnswers(t: Table, step: Step, id: nat)
    requires step.AnswerStop? && id in t.pending
    ensures id !in Apply(t, step).pending <==> Answers(t, Apply(t, step), step, id)
  {
    if step.token in t.requests && t.requests[step.token].Stop? {
      StopShape(t, step.token, step.valid);
      AcknowledgedEnds(t, step.token, step.valid, EndedBy(t, step.token, step.valid));
      LastLogged(t.log, SettledStop(step.token, EndedBy(t, step.token, step.valid)), SettledStop(step.token, None));
    }
  }

  lemma ReleaseAnswers(t: Table, step: Step, id: nat)
    requires step.BeginReleaseTurn? || step.FinishReleaseTurn?
    requires id in t.pending
    ensures id !in Apply(t, step).pending <==> Answers(t, Apply(t, step), step, id)
  {}

  lemma BeginsAnswer(t: Table, step: Step, id: nat)
    requires step.BeginSend? || step.BeginStop? || step.BindStop? || step.BeginSubscribe? || step.AnswerSubscribe?
    requires id in t.pending
    ensures id in Apply(t, step).pending && !Answers(t, Apply(t, step), step, id)
  {
    match step
    case BeginSend(_, _, _) =>
    case BeginStop(_, _) =>
    case BindStop(_) =>
    case BeginSubscribe(_, _) =>
    case AnswerSubscribe(_, _) =>
  }

  lemma EngineAnswers(t: Table, step: Step, id: nat)
    requires step.EngineLost? || step.RequestPermission? || step.AnswerPermission? || step.ExpirePermission?
             || step.CloseSocket? || step.BrokerCloses?
    requires id in t.pending
    ensures id !in Apply(t, step).pending <==> Answers(t, Apply(t, step), step, id)
  {
    match step
    case EngineLost =>
    case RequestPermission(_) =>
    case AnswerPermission(_, _) =>
    case ExpirePermission(_) =>
    case CloseSocket(_) =>
    case BrokerCloses =>
  }

  /** A waiting permission stops waiting exactly with one of these. */
  lemma AnsweredIff(t: Table, step: Step, id: nat)
    requires id in t.pending
    ensures id !in Apply(t, step).pending <==> Answers(t, Apply(t, step), step, id)
  {
    match step
    case Connect(_) =>
    case EngineLive =>
    case Grant =>
    case DropLease(_) =>
    case Terminal(x) => TerminalEndsIff(t, x);
    case AnswerStop(_, _) => StopAnswers(t, step, id);
    case AnswerSend(_, _, _) => SendAnswers(t, step, id);
    case FinishReleaseTurn(_) => ReleaseAnswers(t, step, id);
    case BeginReleaseTurn(_, _, _, _) => ReleaseAnswers(t, step, id);
    case BeginSend(_, _, _) => BeginsAnswer(t, step, id);
    case BeginStop(_, _) => BeginsAnswer(t, step, id);
    case BindStop(_) => BeginsAnswer(t, step, id);
    case BeginSubscribe(_, _) => BeginsAnswer(t, step, id);
    case AnswerSubscribe(_, _) => BeginsAnswer(t, step, id);
    case _ => EngineAnswers(t, step, id);
  }

  // ------------------------------------------------- sockets, leases and fences

  /** A socket is written to from its connection to its close, and releases turns itself if it negotiated that. */
  lemma SocketsIff(t: Table, step: Step, socket: Socket)
    ensures var u := Apply(t, step);
            && (socket in u.writable <==>
                  (socket in t.writable || (step.Connect? && socket == t.next)) && step != Step.CloseSocket(socket))
            && (socket in u.exactRelease <==> socket in t.exactRelease || (step == Connect(true) && socket == t.next))
  {
    match step
    case Connect(_) =>
    case EngineLive =>
    case Grant =>
    case DropLease(_) =>
    case AnswerStop(r, valid) => StopKeepsSockets(t, r, valid);
    case Terminal(s) => TerminalKeepsSockets(t, s);
    case AnswerSend(_, _, _) => AnswersKeepSockets(t, step);
    case AnswerSubscribe(_, _) => AnswersKeepSockets(t, step);
    case FinishReleaseTurn(_) => AnswersKeepSockets(t, step);
    case BeginSend(_, _, _) => BeginsKeepSockets(t, step);
    case BeginStop(_, _) => BeginsKeepSockets(t, step);
    case BindStop(_) => BeginsKeepSockets(t, step);
    case BeginSubscribe(_, _) => BeginsKeepSockets(t, step);
    case BeginReleaseTurn(_, _, _, _) => BeginsKeepSockets(t, step);
    case CloseSocket(_) =>
    case RequestPermission(s) => AskKeepsSockets(t, s);
    case EngineLost => LossKeepsSockets(t);
    case AnswerPermission(id, _) => if id in t.pending { PermissionsKeepSockets(t, {id}); }
    case ExpirePermission(id) => if id in t.pending { PermissionsKeepSockets(t, {id}); }
    case BrokerCloses => PermissionsKeepSockets(t, t.pending.Keys);
  }

  predicate SameSockets(t: Table, u: Table) { u.writable == t.writable && u.exactRelease == t.exactRelease }

  lemma StopKeepsSockets(t: Table, r: Token, valid: bool)
    ensures SameSockets(t, FinishStop(t, r, valid))
  {
    if r in t.requests && t.requests[r].Stop? { StopShape(t, r, valid); }
  }

  lemma TerminalKeepsSockets(t: Table, s: SessionId)
    ensures SameSockets(t, OnTerminal(t, s))
  {}

  lemma AnswersKeepSockets(t: Table, step: Step)
    requires step.AnswerSend? || step.AnswerSubscribe? || step.FinishReleaseTurn?
    ensures SameSockets(t, Apply(t, step))
  {
    match step
    case AnswerSend(_, _, _) =>
    case AnswerSubscribe(_, _) =>
    case FinishReleaseTurn(_) =>
  }

  lemma BeginsKeepSockets(t: Table, step: Step)
    requires step.BeginSend? || step.BeginStop? || step.BindStop? || step.BeginSubscribe? || step.BeginReleaseTurn?
    ensures SameSockets(t, Apply(t, step))
  {
    match step
    case BeginSend(_, _, _) =>
    case BeginStop(_, _) =>
    case BindStop(_) =>
    case BeginSubscribe(_, _) =>
    case BeginReleaseTurn(_, _, _, _) =>
  }

  lemma AskKeepsSockets(t: Table, s: SessionId)
    ensures SameSockets(t, AskPermission(t, s))
  {}

  lemma LossKeepsSockets(t: Table)
    ensures SameSockets(t, LoseEngine(t))
  {}

  lemma PermissionsKeepSockets(t: Table, ids: set<nat>)
    requires ids <= t.pending.Keys
    ensures SameSockets(t, Answer(t, ids))
  {}

  /** A stop's fence on its session goes with its answer or its engine, or is taken over by the next stop. */
  lemma StopFenceEndsIff(t: Table, step: Step, s: SessionId)
    requires s in t.stopping
    ensures var u := Apply(t, step);
            s !in u.stopping || u.stopping[s] != t.stopping[s] <==>
              || (step == EngineLost && t.live.Some?)
              || (step.AnswerStop? && step.token == t.stopping[s]
                  && step.token in t.requests && t.requests[step.token].Stop? && t.requests[step.token].session == s)
              || (step.BeginStop? && step.session == s && NewRequest(t, step.token) && step.token != t.stopping[s])
  {
    match step
    case AnswerStop(r, valid) =>
      if r in t.requests && t.requests[r].Stop? { StopFenceAnswered(t, r, valid, s); }
    case Terminal(x) => TerminalKeepsFences(t, x);
    case AnswerSend(_, _, _) => AnswerKeepsFences(t, step);
    case AnswerSubscribe(_, _) => AnswerKeepsFences(t, step);
    case FinishReleaseTurn(_) => AnswerKeepsFences(t, step);
    case BeginSend(_, _, _) => RequestKeepsFences(t, step);
    case BindStop(_) => RequestKeepsFences(t, step);
    case BeginSubscribe(_, _) => RequestKeepsFences(t, step);
    case BeginReleaseTurn(_, _, _, _) => RequestKeepsFences(t, step);
    case _ =>
  }

  lemma StopFenceAnswered(t: Table, r: Token, valid: bool, s: SessionId)
    requires r in t.requests && t.requests[r].Stop? && s in t.stopping
    ensures var u := FinishStop(t, r, valid);
            && (s !in u.stopping <==> s == t.requests[r].session && t.stopping[s] == r)
            && (s in u.stopping ==> u.stopping[s] == t.stopping[s])
  {
    assert EndByStop(t, r, valid).stopping == t.stopping;
  }

  lemma RequestKeepsFences(t: Table, step: Step)
    requires step.BeginSend? || step.BindStop? || step.BeginSubscribe? || step.BeginReleaseTurn?
    ensures Apply(t, step).stopping == t.stopping
  {
    match step
    case BeginSend(_, _, _) =>
    case BindStop(_) =>
    case BeginSubscribe(_, _) =>
    case BeginReleaseTurn(_, _, _, _) =>
  }

  lemma TerminalKeepsFences(t: Table, x: SessionId)
    ensures OnTerminal(t, x).stopping == t.stopping && OnTerminal(t, x).topics == t.topics
  {}

  lemma AnswerKeepsFences(t: Table, step: Step)
    requires step.AnswerSend? || step.AnswerSubscribe? || step.FinishReleaseTurn?
    ensures Apply(t, step).stopping == t.stopping
  {
    match step
    case AnswerSend(_, _, _) =>
    case AnswerSubscribe(_, _) =>
    case FinishReleaseTurn(_) =>
  }

  /** A topic is taken until the subscription that took it is answered or its engine is gone. */
  lemma TopicEndsIff(t: Table, step: Step, s: SessionId)
    requires s in t.topics
    ensures var u := Apply(t, step);
            && (s !in u.topics <==>
                  || (step == EngineLost && t.live.Some?)
                  || (step.AnswerSubscribe? && step.token == t.topics[s]
                      && step.token in t.requests && t.requests[step.token].Subscribe?
                      && t.requests[step.token].session == s))
            && (s in u.topics ==> u.topics[s] == t.topics[s])
  {
    match step
    case AnswerStop(r, valid) => if r in t.requests && t.requests[r].Stop? { StopShape(t, r, valid); }
    case Terminal(x) => TerminalKeepsFences(t, x);
    case AnswerSend(_, _, _) => OthersKeepTopics(t, step, s);
    case AnswerSubscribe(_, _) =>
    case FinishReleaseTurn(_) => OthersKeepTopics(t, step, s);
    case BeginSend(_, _, _) => OthersKeepTopics(t, step, s);
    case BeginStop(_, _) => OthersKeepTopics(t, step, s);
    case BindStop(_) => OthersKeepTopics(t, step, s);
    case BeginSubscribe(_, _) => OthersKeepTopics(t, step, s);
    case BeginReleaseTurn(_, _, _, _) => OthersKeepTopics(t, step, s);
    case _ =>
  }

  lemma OthersKeepTopics(t: Table, step: Step, s: SessionId)
    requires step.AnswerSend? || step.FinishReleaseTurn? || step.BeginSend? || step.BeginStop?
             || step.BindStop? || step.BeginSubscribe? || step.BeginReleaseTurn?
    requires s in t.topics
    ensures s in Apply(t, step).topics && Apply(t, step).topics[s] == t.topics[s]
  {
    match step
    case AnswerSend(_, _, _) =>
    case FinishReleaseTurn(_) =>
    case BeginSend(_, _, _) =>
    case BeginStop(_, _) =>
    case BindStop(_) =>
    case BeginSubscribe(_, _) =>
    case BeginReleaseTurn(_, _, _, _) =>
  }

  /** A lease stands from its grant until it is dropped, and an engine from its start until it is lost. */
  lemma LeasesIff(t: Table, step: Step, token: Token)
    ensures var u := Apply(t, step);
            token in u.leases <==>
              (token in t.leases || (step.Grant? && token == t.next)) && step != DropLease(token)
  {
    if KeepsNames(step) { OthersKeepLeases(t, step); }
  }

  lemma LiveIff(t: Table, step: Step)
    ensures var u := Apply(t, step);
            u.live == if step == EngineLost then None
                      else if step == EngineLive && t.live.None? then Some(t.next) else t.live
  {
    match step
    case AnswerStop(r, valid) => if r in t.requests && t.requests[r].Stop? { StopShape(t, r, valid); }
    case Terminal(x) => TerminalEndsIff(t, x);
    case AnswerSend(_, _, _) => RequestKeepsEngine(t, step);
    case AnswerSubscribe(_, _) => RequestKeepsEngine(t, step);
    case FinishReleaseTurn(_) => RequestKeepsEngine(t, step);
    case BeginSend(_, _, _) => RequestKeepsEngine(t, step);
    case BeginStop(_, _) => RequestKeepsEngine(t, step);
    case BindStop(_) => RequestKeepsEngine(t, step);
    case BeginSubscribe(_, _) => RequestKeepsEngine(t, step);
    case BeginReleaseTurn(_, _, _, _) => RequestKeepsEngine(t, step);
    case _ =>
  }

  lemma RequestKeepsEngine(t: Table, step: Step)
    requires step.AnswerSend? || step.AnswerSubscribe? || step.FinishReleaseTurn? || step.BeginSend? || step.BeginStop?
             || step.BindStop? || step.BeginSubscribe? || step.BeginReleaseTurn?
    ensures Apply(t, step).live == t.live
  {
    match step
    case AnswerSend(_, _, _) =>
    case AnswerSubscribe(_, _) =>
    case FinishReleaseTurn(_) =>
    case BeginSend(_, _, _) =>
    case BeginStop(_, _) =>
    case BindStop(_) =>
    case BeginSubscribe(_, _) =>
    case BeginReleaseTurn(_, _, _, _) =>
  }
}
