/** The broker's engine fields updated in place, and the read and stop requests served through them. */
module ProtocolHosts {
  import opened Options
  import opened Generations

  datatype Acquired = Live(engine: Engine) | Waiting(attempt: Attempt) | Retiring

  /** A read's reply frame: a result or an error, each with the serving generation it carries, if any. */
  datatype ReadReply = ReadResult(generation: Option<Stamp>) | ReadError(generation: Option<Stamp>)
  datatype StopReply = StopResult(generation: Option<Stamp>) | StopError

  /** What the engine answers: a valid result, an error of its own, or nothing usable. */
  datatype Answer = Result | PluginError | Lost

  /** `e` was live at some moment up to `h`; whatever engine or stamp `h` shows is `e`'s or newer. */
  ghost predicate NotBefore(h: Host, e: Engine) {
    && e.stamp < h.next
    && (h.protocol.Some? ==> h.protocol.value == e || h.protocol.value.stamp > e.stamp)
    && (h.protocolGeneration.Some? ==> h.protocolGeneration.value >= e.stamp)
  }

  lemma NotBeforeLater(h: Host, later: Host, e: Engine)
    requires NotBefore(h, e) && Since(h, later)
    ensures NotBefore(later, e)
  {}

  class ProtocolHost {
    var protocol: Option<Engine>
    var protocolGeneration: Option<Stamp>
    var protocolPromise: Option<Attempt>
    var retired: Option<Retired>
    var closing: bool
    var closingOn: Option<Attempt>
    ghost var running: set<Attempt>
    ghost var rejected: set<Attempt>
    ghost var born: set<Engine>
    ghost var closed: set<Engine>
    var next: nat

    ghost function State(): Host
      reads this
    {
      Host(protocol, protocolGeneration, protocolPromise, retired, closing, closingOn, running, rejected, born,
           closed, next)
    }

    constructor ()
      ensures State() == NEW_HOST
    {
      protocol, protocolGeneration, protocolPromise, retired := None, None, None, None;
      closing, closingOn, next := false, None, 0;
      running, rejected, born, closed := {}, {}, {}, {};
    }

    method GetProtocol() returns (r: Acquired)
      modifies this
      ensures State() == Get(old(State()))
      ensures r == if old(protocol).Some? then Live(old(protocol).value) else if old(retired).Some? then Retiring
                   else Waiting(protocolPromise.value)
      ensures r.Waiting? ==> protocolPromise.Some?
    {
      if protocol.Some? { return Live(protocol.value); }
      if retired.Some? { return Retiring; }
      if protocolPromise.None? {
        protocolPromise := Some(next);
        running := running + {next};
        next := next + 1;
      }
      r := Waiting(protocolPromise.value);
    }

    /**
     The continuation of `initializeProtocolGeneration` once its process is spawned; `setupThrows` is the setup's
     fault.
     */
    method InitializeSpawned(attempt: Attempt, setupThrows: bool) returns (initialized: bool)
      requires attempt in running
      modifies this
      ensures State() == if setupThrows then FailSetup(old(State()), attempt) else GoLive(old(State()), attempt)
      ensures initialized <==> !setupThrows && !old(closing) && old(retired).None?
      ensures initialized ==> protocol.Some? && protocolGeneration == Some(protocol.value.stamp)
    {
      if closing || retired.Some? { return false; }
      protocol := Some(Engine(attempt, next));
      protocolGeneration := Some(next);
      next := next + 1;
      if setupThrows {
        protocol := None;
        return false;
      }
      born := born + {protocol.value};
      running := running - {attempt};
      initialized := true;
    }

    method ClearProtocolGeneration(engine: Engine)
      modifies this
      ensures State() == ClearGeneration(old(State()), engine)
      ensures old(protocol) == Some(engine) && old(retired).None? ==>
                  protocol.None? && protocolGeneration.None? && retired == Some(Retired(engine, Pending))
    {
      if retired.Some? && retired.value.engine == engine { return; }
      if protocol != Some(engine) { return; }
      if retired.Some? { return; }
      retired := Some(Retired(engine, Pending));
      protocol, protocolGeneration, protocolPromise := None, None, None;
    }

    method SettleRetiredProtocolGeneration(engine: Engine, clean: bool)
      requires retired == Some(Retired(engine, Pending))
      modifies this
      ensures State() == SettleClose(old(State()), clean)
      ensures clean ==> retired.None? && engine in closed
      ensures !clean ==> retired == Some(Retired(engine, Failed)) && closed == old(closed)
    {
      if clean {
        closed := closed + {engine};
        retired := None;
      } else {
        retired := Some(Retired(engine, Failed));
      }
    }

    /** Everything other handlers, timers and processes do to the engine while one handler awaits. */
    method Await()
      requires Inv(State())
      modifies this
      ensures exists steps :: State() == Run(old(State()), steps)
      ensures Inv(State()) && Since(old(State()), State())
    {
      assert State() == Run(State(), []);
    }

    /** What became of a request at its engine, and whether its session's lease still stands afterwards. */
    method Answered() returns (answer: Answer, admitted: bool)
    {
      answer, admitted := *, *;
    }

    /**
     A `session/read` forwarded upstream. Both its result and its error frame are stamped in the same turn that
     proves the serving engine still current, so a stamp on the reply is the server's own. A result is always stamped,
     and an error exactly if it is the engine's own and the engine is still current.
     */
    method ServeRead() returns (r: ReadReply, ghost server: Option<Engine>, ghost answer: Answer, ghost admitted: bool)
      requires Inv(State())
      modifies this
      ensures Inv(State()) && Since(old(State()), State())
      ensures r.generation.Some? ==>
                && server.Some? && server.value.stamp == r.generation.value && server.value in born
                && NotBefore(State(), server.value)
                && forall e :: NotBefore(old(State()), e) ==> server.value == e || server.value.stamp > e.stamp
      ensures r.ReadResult? <==> server.Some? && answer.Result? && admitted && protocol == server
      ensures r.generation.Some? <==> server.Some? && protocol == server && (r.ReadResult? || answer.PluginError?)
    {
      server, answer, admitted := None, Lost, false;
      Await();
      if protocol.None? { return ReadError(None), None, answer, admitted; }
      var bound := protocol.value;
      ghost var before := State();
      Await();
      var answered, stands := Answered();
      server, answer, admitted := Some(bound), answered, stands;
      var stamp := if protocol == Some(bound) then protocolGeneration else None;
      if answered.Result? && stands && protocol == Some(bound) {
        r := ReadResult(stamp);
      } else {
        r := ReadError(if answered.PluginError? then stamp else None);
      }
    }

    /**
     A `session/stop` forwarded upstream. It is acknowledged by an engine proven current, but stamped only after the
     stopped session's subscriptions are cleaned up, with whatever generation is current by then.
     */
    method ServeStop()
      returns (r: StopReply, ghost server: Option<Engine>, ghost acknowledged: Host, ghost answer: Answer,
               ghost admitted: bool)
      requires Inv(State())
      modifies this
      ensures Inv(State()) && Since(old(State()), State())
      ensures r.StopResult? ==>
                && server.Some? && server.value in born && NotBefore(State(), server.value)
                && (forall e :: NotBefore(old(State()), e) ==> server.value == e || server.value.stamp > e.stamp)
                && r.generation == protocolGeneration
                && (r.generation.Some? ==> r.generation.value >= server.value.stamp)
      ensures Since(old(State()), acknowledged) && Since(acknowledged, State())
      ensures r.StopResult? <==> server.Some? && answer.Result? && admitted && acknowledged.protocol == server
    {
      server, acknowledged, answer, admitted := None, State(), Lost, false;
      Await();
      acknowledged := State();
      if protocol.None? { return StopError, None, acknowledged, answer, admitted; }
      var bound := protocol.value;
      Await();
      var answered, stands := Answered();
      server, acknowledged, answer, admitted := Some(bound), State(), answered, stands;
      if !answered.Result? || !stands || protocol != Some(bound) {
        return StopError, server, acknowledged, answer, admitted;
      }
      assert NotBefore(State(), bound);
      Await();
      NotBeforeLater(acknowledged, State(), bound);
      r := StopResult(protocolGeneration);
    }
  }
}
