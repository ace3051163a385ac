/**
 The broker's turns, stops and permissions as a state machine. Each request handler is cut at its awaits: one step is
 what runs between two of them, so a run of steps is an interleaving of handlers, engine events and socket events.
 */
module Turns {
  import opened Options

  type SessionId = string
  type Token = nat
  type Socket = nat
  type Generation = nat

  const MAX_PENDING_PERMISSIONS := 256

  /** Where a turn stands in its session: the state revision and the input the engine accepted. */
  datatype Boundary = Boundary(baseline: nat, inputId: string)
  /** The broker's own record of a session's active turn. */
  datatype Turn = Turn(token: Token, socket: Option<Socket>, releasing: bool, boundary: Option<Boundary>)
  /** The protocol client's record of the same turn. */
  datatype EngineTurn = Sending | Armed(boundary: Boundary)
  datatype Permission = Permission(session: SessionId, turnToken: Token, socket: Socket)

  /** The success effects a request can have on the broker. */
  datatype Effect = ArmedTurn(request: Token) | SettledStop(request: Token, ended: Option<Token>)
      | Subscribed(request: Token)

  /** An in-flight request, with what it captured before its await. */
  datatype Request =
    | Send(session: SessionId, generation: Generation)
    | Stop(session: SessionId, bound: Option<Generation>, captured: Option<Turn>)
    | Subscribe(session: SessionId, generation: Generation)
    | ReleaseTurn(session: SessionId, generation: Generation, turnToken: Token, socket: Socket, boundary: Boundary)

  datatype Table = Table(
    turns: map<SessionId, Turn>, engineTurns: map<SessionId, EngineTurn>,
    pending: map<nat, Permission>, answers: multiset<nat>, nextPermissionId: nat,
    leases: set<Token>, requests: map<Token, Request>, stopping: map<SessionId, Token>, topics: map<SessionId, Token>,
    live: Option<Generation>, won: set<(Generation, Token)>,
    writable: set<Socket>, exactRelease: set<Socket>, log: seq<Effect>, next: nat)

  const EMPTY := Table(map[], map[], map[], multiset{}, 0, {}, map[], map[], map[], None, {}, {}, {}, [], 0)

  datatype Step =
    | Connect(exact: bool)
    | EngineLive
    | EngineLost
    | Grant
    | DropLease(token: Token)
    | BeginSend(token: Token, session: SessionId, socket: Socket)
    | AnswerSend(token: Token, valid: bool, boundary: Boundary)
    | BeginStop(token: Token, session: SessionId)
    | BindStop(token: Token)
    | AnswerStop(token: Token, valid: bool)
    | BeginSubscribe(token: Token, session: SessionId)
    | AnswerSubscribe(token: Token, valid: bool)
    | BeginReleaseTurn(token: Token, session: SessionId, socket: Socket, boundary: Boundary)
    | FinishReleaseTurn(token: Token)
    | Terminal(session: SessionId)
    | RequestPermission(session: SessionId)
    | AnswerPermission(id: nat, socket: Socket)
    | ExpirePermission(id: nat)
    | CloseSocket(socket: Socket)
    | BrokerCloses

  // ------------------------------------------------------------ permissions

  /** Answers some pending permissions, denied or decided, and forgets them. */
  function Answer(t: Table, ids: set<nat>): Table
    requires ids <= t.pending.Keys
  {
    t.(pending := t.pending - ids, answers := t.answers + multiset(ids))
  }

  function PermissionsOf(t: Table, s: SessionId, token: Token): set<nat> {
    set id | id in t.pending && t.pending[id].session == s && t.pending[id].turnToken == token
  }

  function SettleTurnPermissions(t: Table, s: SessionId, token: Token): Table { Answer(t, PermissionsOf(t, s, token)) }

  /**
   The engine's client refuses a session it holds no turn of; the broker asks the active turn's socket, or denies at
   once.
   */
  function AskPermission(t: Table, s: SessionId): Table {
    if s !in t.engineTurns || s !in t.turns || t.turns[s].releasing || t.turns[s].socket.None?
        || t.turns[s].socket.value !in t.writable then t
    else
      var id := t.nextPermissionId;
      var asked := t.(nextPermissionId := id + 1);
      if |t.pending| >= MAX_PENDING_PERMISSIONS then asked.(answers := t.answers + multiset{id})
      else asked.(pending := t.pending[id := Permission(s, t.turns[s].token, t.turns[s].socket.value)])
  }

  function Detach(turns: map<SessionId, Turn>, socket: Socket): map<SessionId, Turn> {
    map s | s in turns :: if turns[s].socket == Some(socket) then turns[s].(socket := None) else turns[s]
  }

  function PermissionsOn(t: Table, socket: Socket): set<nat> {
    set id | id in t.pending && t.pending[id].socket == socket
  }

  function Close(t: Table, socket: Socket): Table {
    var settled := Answer(t, PermissionsOn(t, socket));
    settled.(turns := Detach(t.turns, socket), writable := t.writable - {socket})
  }

  // ----------------------------------------------------------- ending turns

  predicate Current(t: Table, s: SessionId, token: Token) { s in t.turns && t.turns[s].token == token }

  /** Ends the session's turn in both records and denies its permissions. */
  function EndTurn(t: Table, s: SessionId): Table
    requires s in t.turns
  {
    SettleTurnPermissions(t, s, t.turns[s].token).(turns := t.turns - {s}, engineTurns := t.engineTurns - {s})
  }

  /** `clearProtocolGeneration`: every turn, permission and pending request of the engine goes with it. */
  function LoseEngine(t: Table): Table {
    Answer(t, t.pending.Keys).(turns := map[], engineTurns := map[], stopping := map[], topics := map[], live := None)
  }

  function OnTerminal(t: Table, s: SessionId): Table {
    if t.live.None? || s !in t.engineTurns || t.engineTurns[s].Sending? || s !in t.turns
       || t.turns[s].boundary != Some(t.engineTurns[s].boundary)
       || (t.turns[s].socket.Some? && t.turns[s].socket.value in t.exactRelease)
    then t
    else EndTurn(t, s).(won := t.won + {(t.live.value, t.turns[s].token)})
  }

  // --------------------------------------------------------------- requests

  predicate Admitted(t: Table, token: Token, generation: Generation) { token in t.leases && t.live == Some(generation) }

  function StartSend(t: Table, token: Token, s: SessionId, socket: Socket): Table {
    if token !in t.leases || token in t.requests || t.live.None? || s in t.engineTurns then t
    else t.(turns := t.turns[s := Turn(token, Some(socket), false, None)],
            engineTurns := t.engineTurns[s := Sending],
            requests := t.requests[token := Send(s, t.live.value)])
  }

  predicate SendSucceeds(t: Table, token: Token, valid: bool)
    requires token in t.requests && t.requests[token].Send?
  {
    var r := t.requests[token];
    && valid && Admitted(t, token, r.generation) && Current(t, r.session, token)
    && r.session in t.engineTurns && t.engineTurns[r.session].Sending?
  }

  /** The failure handler of a send. It aborts the engine's turn of the session whoever that turn belongs to. */
  function FailSend(t: Table, token: Token): Table
    requires token in t.requests && t.requests[token].Send?
  {
    var r := t.requests[token];
    var settled := SettleTurnPermissions(t, r.session, token);
    settled.(engineTurns := if t.live == Some(r.generation) then t.engineTurns - {r.session} else t.engineTurns,
             turns := if Current(t, r.session, token) then t.turns - {r.session} else t.turns,
             requests := t.requests - {token})
  }

  function FinishSend(t: Table, token: Token, valid: bool, boundary: Boundary): Table {
    if token !in t.requests || !t.requests[token].Send? then t
    else if !SendSucceeds(t, token, valid) then FailSend(t, token)
    else
      var s := t.requests[token].session;
      t.(turns := t.turns[s := t.turns[s].(boundary := Some(boundary))],
         engineTurns := t.engineTurns[s := Armed(boundary)],
         requests := t.requests - {token}, log := t.log + [ArmedTurn(token)])
  }

  function StartStop(t: Table, token: Token, s: SessionId): Table {
    if token !in t.leases || token in t.requests then t
    else t.(stopping := t.stopping[s := token],
            requests := t.requests[token := Stop(s, None, if s in t.turns then Some(t.turns[s]) else None)])
  }

  function Bind(t: Table, token: Token): Table {
    if token !in t.requests || !t.requests[token].Stop? || t.requests[token].bound.Some? || token !in t.leases then t
    else t.(requests := t.requests[token := t.requests[token].(bound := t.live)])
  }

  /** What `settleAcknowledgedStop` answers: the captured turn is gone, by this stop or by its own terminal event. */
  predicate StopSettles(t: Table, r: Request)
    requires r.Stop? && r.bound.Some?
  {
    if r.captured.None? then r.session !in t.turns
    else if Current(t, r.session, r.captured.value.token) then true
    else r.session !in t.turns && (r.bound.value, r.captured.value.token) in t.won
  }

  function DropStopping(t: Table, s: SessionId, token: Token): Table {
    if s in t.stopping && t.stopping[s] == token then t.(stopping := t.stopping - {s}) else t
  }

  predicate StopAcknowledged(t: Table, token: Token, valid: bool)
    requires token in t.requests && t.requests[token].Stop?
  {
    var r := t.requests[token];
    && valid && r.bound.Some? && Admitted(t, token, r.bound.value)
    && r.session in t.stopping && t.stopping[r.session] == token && StopSettles(t, r)
  }

  /** Whether an acknowledged stop itself ends the turn it captured. */
  predicate StopEndsTurn(t: Table, token: Token, valid: bool)
    requires token in t.requests && t.requests[token].Stop?
  {
    var r := t.requests[token];
    StopAcknowledged(t, token, valid) && r.captured.Some? && Current(t, r.session, r.captured.value.token)
  }

  function EndByStop(t: Table, token: Token, valid: bool): Table
    requires token in t.requests && t.requests[token].Stop?
  {
    if StopEndsTurn(t, token, valid) then EndTurn(t, t.requests[token].session) else t
  }

  function FinishStop(t: Table, token: Token, valid: bool): Table {
    if token !in t.requests || !t.requests[token].Stop? then t
    else
      var r := t.requests[token];
      var after := EndByStop(t, token, valid);
      var ended := if StopEndsTurn(t, token, valid) then Some(r.captured.value.token) else None;
      var logged := if StopAcknowledged(t, token, valid) then after.(log := t.log + [SettledStop(token, ended)])
          else after;
      DropStopping(logged, r.session, token).(requests := t.requests - {token})
  }

  function StartSubscribe(t: Table, token: Token, s: SessionId): Table {
    if token !in t.leases || token in t.requests || t.live.None? || s in t.topics then t
    else t.(topics := t.topics[s := token], requests := t.requests[token := Subscribe(s, t.live.value)])
  }

  function FinishSubscribe(t: Table, token: Token, valid: bool): Table {
    if token !in t.requests || !t.requests[token].Subscribe? then t
    else
      var r := t.requests[token];
      var mine := r.session in t.topics && t.topics[r.session] == token;
      t.(topics := if mine then t.topics - {r.session} else t.topics,
         log := if valid && mine && Admitted(t, token, r.generation) then t.log + [Subscribed(token)] else t.log,
         requests := t.requests - {token})
  }

  function StartReleaseTurn(t: Table, token: Token, s: SessionId, socket: Socket, boundary: Boundary): Table {
    if token !in t.leases || token in t.requests || t.live.None? || s !in t.turns
       || t.turns[s].socket != Some(socket) || t.turns[s].boundary != Some(boundary)
    then t
    else
      SettleTurnPermissions(t, s, t.turns[s].token).(
        turns := t.turns[s := t.turns[s].(releasing := true)],
        requests := t.requests[token := ReleaseTurn(s, t.live.value, t.turns[s].token, socket, boundary)])
  }

  /**
   The drain before an exact release returns only once its engine has no server request, so no permission, of the
   session open.
   */
  predicate Drained(t: Table, s: SessionId) { forall id <- t.pending :: t.pending[id].session != s }

  function FinishRelease(t: Table, token: Token): Table {
    if token !in t.requests || !t.requests[token].ReleaseTurn?
        || (t.live == Some(t.requests[token].generation) && !Drained(t, t.requests[token].session))
    then t
    else
      var r := t.requests[token];
      var done := t.(requests := t.requests - {token});
      if !Current(t, r.session, r.turnToken) then done
      else if Admitted(t, token, r.generation) && t.turns[r.session].socket == Some(r.socket)
              && t.turns[r.session].boundary == Some(r.boundary)
      then done.(turns := t.turns - {r.session}, engineTurns := t.engineTurns - {r.session})
      else done.(turns := t.turns[r.session := t.turns[r.session].(releasing := false)])
  }

  // -------------------------------------------------------------------- runs

  function Apply(t: Table, step: Step): Table {
    match step
    case Connect(exact) =>
      t.(writable := t.writable + {t.next}, exactRelease := if exact then t.exactRelease + {t.next} else t.exactRelease,
         next := t.next + 1)
    case EngineLive => if t.live.Some? then t else t.(live := Some(t.next), next := t.next + 1)
    case EngineLost => if t.live.None? then t else LoseEngine(t)
    case Grant => t.(leases := t.leases + {t.next}, next := t.next + 1)
    case DropLease(token) => t.(leases := t.leases - {token})
    case BeginSend(token, s, socket) => StartSend(t, token, s, socket)
    case AnswerSend(token, valid, boundary) => FinishSend(t, token, valid, boundary)
    case BeginStop(token, s) => StartStop(t, token, s)
    case BindStop(token) => Bind(t, token)
    case AnswerStop(token, valid) => FinishStop(t, token, valid)
    case BeginSubscribe(token, s) => StartSubscribe(t, token, s)
    case AnswerSubscribe(token, valid) => FinishSubscribe(t, token, valid)
    case BeginReleaseTurn(token, s, socket, boundary) => StartReleaseTurn(t, token, s, socket, boundary)
    case FinishReleaseTurn(token) => FinishRelease(t, token)
    case Terminal(s) => OnTerminal(t, s)
    case RequestPermission(s) => AskPermission(t, s)
    case AnswerPermission(id, socket) => if id in t.pending
        && t.pending[id].socket == socket then Answer(t, {id}) else t
    case ExpirePermission(id) => if id in t.pending then Answer(t, {id}) else t
    case CloseSocket(socket) => Close(t, socket)
    case BrokerCloses => Answer(t, t.pending.Keys)
  }

  function Run(t: Table, steps: seq<Step>): Table
    decreases |steps|
  {
    if steps == [] then t else Run(Apply(t, steps[0]), steps[1..])
  }
}
