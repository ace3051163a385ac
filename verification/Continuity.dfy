/**
 The companion's attempt to settle a stopped Rescue without a report, against the broker's serving-generation stamps.
 */
module Continuity {
  import opened Options
  import opened Generations
  import opened ProtocolHosts

  datatype Classification = Pending | Succeeded | EngineFailed | Interrupted

  /**
   What was learned of the remote turn: nothing was asked, no channel, no readable answer, or a classified snapshot.
   */
  datatype Evidence =
    | NoRemote
    | Unavailable
    | Unreadable
    | Snapshot(classification: Classification, active: bool, attributable: bool)

  datatype StopOutcome = Acknowledged(sameGeneration: bool) | PreExistingTerminal | Unacknowledged

  /** How the cleanup of a marked runner ended; `Unfinished` stands for every outcome that only retains. */
  datatype Cleanup = Settled | Unmarked | Unproven | Skipped | Unfinished

  datatype Decision =
    | Retain | SettleUnavailable | PublishSucceeded | PublishFailed | PublishCancelled | AskNoReport | Stop

  // ------------------------------------------------------------- the election

  predicate AllowsSettlement(cleanup: Cleanup) { !cleanup.Unfinished? }

  function Allowed(cleanup: Cleanup, decision: Decision): Decision {
    if AllowsSettlement(cleanup) then decision else Retain
  }

  /** The joined read decides alone, unless it leaves an exact stop to be attempted. */
  function BeforeStop(joined: Evidence, cleanup: Cleanup): Decision {
    match joined
    case NoRemote => Retain
    case Unavailable => Allowed(cleanup, SettleUnavailable)
    case Unreadable => Stop
    case Snapshot(Succeeded, _, _) => Allowed(cleanup, PublishSucceeded)
    case Snapshot(EngineFailed, _, _) => Allowed(cleanup, PublishFailed)
    case Snapshot(Interrupted, _, _) => Allowed(cleanup, PublishCancelled)
    case Snapshot(Pending, _, attributable) => if attributable then Stop else Retain
  }

  /** The order of decisions after a stop: natural success, an interruption, a qualified acknowledgement, the guard. */
  function AfterStop(acknowledged: bool, qualified: bool, reread: Evidence, cleanup: Cleanup): Decision {
    if reread.NoRemote? then Retain
    else if reread.Unavailable? then Allowed(cleanup, SettleUnavailable)
    else if reread.Unreadable? && !qualified then Retain
    else if reread.Snapshot? && reread.classification.Succeeded? then Allowed(cleanup, PublishSucceeded)
    else if reread.Snapshot? && (reread.classification.Interrupted? || reread.classification.EngineFailed?) then
      if !acknowledged && !reread.classification.Interrupted? then Retain else Allowed(cleanup, PublishCancelled)
    else if qualified && (reread.Unreadable? || (reread.attributable && !reread.active)) then
      if cleanup.Settled? || cleanup.Unmarked? then AskNoReport else Retain
    else Retain
  }

  /** The reread speaks neither of an outcome of its own nor against the stopped turn. */
  predicate Reportless(reread: Evidence) {
    reread.Unreadable? || reread == Snapshot(Classification.Pending, false, true)
  }

  /**
   A publication without a report is asked for on exactly this evidence; each other outcome has precedence over it.
   */
  lemma NoReportAskedIff(acknowledged: bool, qualified: bool, reread: Evidence, cleanup: Cleanup)
    ensures AfterStop(acknowledged, qualified, reread, cleanup) == AskNoReport <==>
            qualified && Reportless(reread) && (cleanup.Settled? || cleanup.Unmarked?)
  {
    if reread.Snapshot? {
      match reread.classification
      case Pending =>
      case Succeeded =>
      case EngineFailed =>
      case Interrupted =>
    }
  }

  /** An outcome is published exactly for the snapshot that shows it, and never against a cleanup that only retains. */
  lemma OutcomesPublishedIff(acknowledged: bool, qualified: bool, evidence: Evidence, cleanup: Cleanup)
    ensures var before := BeforeStop(evidence, cleanup);
            && (before == Stop <==> evidence.Unreadable? || Awaited(evidence))
            && (before == PublishSucceeded <==> Shows(evidence, Succeeded) && cleanup != Unfinished)
            && (before == PublishFailed <==> Shows(evidence, EngineFailed) && cleanup != Unfinished)
            && (before == PublishCancelled <==> Shows(evidence, Interrupted) && cleanup != Unfinished)
            && (before == SettleUnavailable <==> evidence.Unavailable? && cleanup != Unfinished)
            && before != AskNoReport
    ensures var after := AfterStop(acknowledged, qualified, evidence, cleanup);
            && (after == PublishSucceeded <==> Shows(evidence, Succeeded) && cleanup != Unfinished)
            && (after == PublishCancelled <==>
                  && (Shows(evidence, Interrupted) || (Shows(evidence, EngineFailed) && acknowledged))
                  && cleanup != Unfinished)
            && (after == SettleUnavailable <==> evidence.Unavailable? && cleanup != Unfinished)
            && after != PublishFailed && after != Stop
  {
    if evidence.Snapshot? {
      match evidence.classification
      case Pending =>
      case Succeeded =>
      case EngineFailed =>
      case Interrupted =>
    }
  }

  predicate Shows(evidence: Evidence, classification: Classification) {
    evidence.Snapshot? && evidence.classification == classification
  }

  /** An unfinished turn that the snapshot attributes to the job. */
  predicate Awaited(evidence: Evidence) { Shows(evidence, Classification.Pending) && evidence.attributable }

  /** Everything one attempt learned, in order; what it did not get to is as if nothing had been learned. */
  datatype Course = Course(joined: Evidence, stale: bool, outcome: StopOutcome, reread: Evidence, cleanup: Cleanup,
                           abandoned: bool)

  /** The courses on which a publication without a report is asked for. */
  predicate Asks(c: Course) {
    && Awaited(c.joined) && !c.stale && c.outcome == Acknowledged(true)
    && Reportless(c.reread) && (c.cleanup.Settled? || c.cleanup.Unmarked?) && !c.abandoned
  }

  /** The read just before the stop shows that the turn is over: the stop is not sent. */
  predicate ShowsOutcome(preStop: ReadReply, found: Evidence) {
    preStop.ReadResult? && (Shows(found, Succeeded) || Shows(found, EngineFailed))
  }

  /** It shows a turn that is not the job's, or comes from another engine than the joined read. */
  predicate SpeaksAgainst(preStop: ReadReply, found: Evidence, upstream: Option<Stamp>) {
    && preStop.ReadResult? && found.Snapshot?
    && (!found.attributable || (preStop.generation.Some? && preStop.generation != upstream))
  }

  class ManagementAttempt {
    const host: ProtocolHost
    var upstream: Option<Stamp>
    var rereadGeneration: Option<Stamp>

    constructor (host: ProtocolHost)
      ensures this.host == host && upstream == None && rereadGeneration == None
    {
      this.host := host;
      upstream, rereadGeneration := None, None;
    }

    /** A recorded stamp, if any, is that of the engine which served the call. */
    ghost predicate StampOf(recorded: Option<Stamp>, server: Option<Engine>)
      reads host
    {
      recorded.Some? ==> server.Some? && server.value.stamp == recorded.value && server.value in host.born
    }

    /**
     A read over the control client: a result that is no snapshot of the session, or comes too late, is an error
     without a stamp. `served` is what the broker sent.
     */
    method ReadRemote() returns (reply: ReadReply, ghost server: Option<Engine>, ghost served: ReadReply)
      requires Inv(host.State())
      modifies host
      ensures Inv(host.State()) && Since(old(host.State()), host.State())
      ensures reply == served || reply == ReadError(None)
      ensures reply.generation.Some? ==>
                && server.Some? && server.value.stamp == reply.generation.value && server.value in host.born
                && NotBefore(host.State(), server.value)
                && forall e :: NotBefore(old(host.State()), e) ==> server.value == e || server.value.stamp > e.stamp
    {
      var raw;
      ghost var answer, admitted;
      raw, server, answer, admitted := host.ServeRead();
      served := raw;
      var usable: bool := *;
      reply := if usable then raw else ReadError(None);
    }

    /** The joined read of this attempt: exactly a readable snapshot's own stamp is recorded. */
    method LoadRemoteEvidence()
      returns (evidence: Evidence, ghost server: Option<Engine>, ghost reply: Option<ReadReply>)
      requires Inv(host.State()) && upstream == None
      modifies host, this`upstream
      ensures Inv(host.State())
      ensures StampOf(upstream, server) && (upstream.Some? ==> NotBefore(host.State(), server.value))
      ensures evidence.Snapshot? <==> reply.Some? && reply.value.ReadResult?
      ensures upstream == if evidence.Snapshot? then reply.value.generation else None
    {
      server, reply := None, None;
      var connected: bool := *;
      if !connected {
        evidence := Unopened();
        return;
      }
      var read;
      ghost var served;
      read, server, served := ReadRemote();
      reply := Some(read);
      if read.ReadError? {
        var unavailable: bool := *;
        return if unavailable then Unavailable else Unreadable, server, reply;
      }
      evidence := ReadSnapshot();
      upstream := read.generation;
      ghost var seen := host.State();
      host.Await();
      if server.Some? && NotBefore(seen, server.value) { NotBeforeLater(seen, host.State(), server.value); }
    }

    /** Without a control client there is nothing remote to ask, or no way to ask it. */
    method Unopened() returns (evidence: Evidence)
      ensures !evidence.Snapshot?
    {
      evidence := *;
      if evidence.Snapshot? { evidence := NoRemote; }
    }

    /**
     What a readable snapshot says of the job's turn is arbitrary here, but a classified turn is its own and is over.
     */
    method ReadSnapshot() returns (evidence: Evidence)
      ensures evidence.Snapshot?
      ensures !evidence.classification.Pending? ==> evidence.attributable && !evidence.active
    {
      var classification: Classification, active: bool, attributable: bool := *, *, *;
      if classification.Pending? { return Snapshot(Classification.Pending, active, attributable); }
      evidence := Snapshot(classification, false, true);
    }

    /**
     The stop: attested as the same generation exactly when it answers with the joined read's stamp and the read before
     it did not speak against that.
     */
    method StopExactTurn()
      returns (outcome: StopOutcome, ghost server: Option<Engine>, ghost preStop: ReadReply, ghost found: Evidence,
               ghost stopped: StopReply)
      requires Inv(host.State())
      modifies host
      ensures Inv(host.State()) && Since(old(host.State()), host.State())
      ensures outcome.Acknowledged? ==> server.Some? && NotBefore(host.State(), server.value)
      ensures outcome.Acknowledged? ==>
                forall e :: NotBefore(old(host.State()), e) ==> server.value == e || server.value.stamp > e.stamp
      ensures outcome == Acknowledged(true) ==> upstream.Some? && upstream.value >= server.value.stamp
      ensures outcome.PreExistingTerminal? <==> ShowsOutcome(preStop, found)
      ensures outcome.Acknowledged? <==> !ShowsOutcome(preStop, found) && stopped.StopResult?
      ensures outcome == Acknowledged(true) <==>
                && !ShowsOutcome(preStop, found) && !SpeaksAgainst(preStop, found, upstream)
                && upstream.Some? && stopped == StopResult(upstream)
    {
      server, stopped := None, StopError;
      var over, upstreamContinuous;
      over, upstreamContinuous, preStop, found := ReadBeforeStop();
      if over { return PreExistingTerminal, None, preStop, found, stopped; }
      ghost var before := host.State();
      outcome, server, stopped := SendStop(upstreamContinuous);
      forall e | NotBefore(old(host.State()), e) ensures NotBefore(before, e) {
        NotBeforeLater(old(host.State()), before, e);
      }
    }

    /** The read before the stop: whether the turn was over already, and whether continuity can still be attested. */
    method ReadBeforeStop()
      returns (over: bool, upstreamContinuous: bool, ghost preStop: ReadReply, ghost found: Evidence)
      requires Inv(host.State())
      modifies host
      ensures Inv(host.State()) && Since(old(host.State()), host.State())
      ensures preStop.ReadResult? ==> found.Snapshot?
      ensures over <==> ShowsOutcome(preStop, found)
      ensures !over ==> (upstreamContinuous <==> upstream.Some? && !SpeaksAgainst(preStop, found, upstream))
    {
      over, upstreamContinuous, found := false, upstream.Some?, Unreadable;
      var reply, _, _ := ReadRemote();
      preStop := reply;
      if reply.ReadResult? {
        var evidence := ReadSnapshot();
        found := evidence;
        if evidence.classification.Succeeded? || evidence.classification.EngineFailed? {
          return true, false, preStop, found;
        }
        if !evidence.attributable { upstreamContinuous := false; }
        if reply.generation.Some? && reply.generation != upstream { upstreamContinuous := false; }
      }
    }

    method SendStop(upstreamContinuous: bool)
      returns (outcome: StopOutcome, ghost server: Option<Engine>, ghost reply: StopReply)
      requires Inv(host.State()) && (upstreamContinuous ==> upstream.Some?)
      modifies host
      ensures Inv(host.State()) && Since(old(host.State()), host.State())
      ensures outcome == if reply.StopError? then Unacknowledged
                         else Acknowledged(upstreamContinuous && reply.generation == upstream)
      ensures outcome.Acknowledged? ==> server.Some? && NotBefore(host.State(), server.value)
      ensures outcome.Acknowledged? ==>
                forall e :: NotBefore(old(host.State()), e) ==> server.value == e || server.value.stamp > e.stamp
      ensures outcome == Acknowledged(true) ==> upstream.Some? && upstream.value >= server.value.stamp
    {
      var stopped;
      ghost var acknowledged, answer, admitted;
      stopped, server, acknowledged, answer, admitted := host.ServeStop();
      reply := stopped;
      if stopped.StopError? { return Unacknowledged, None, reply; }
      outcome := Acknowledged(upstreamContinuous && stopped.generation.Some? && stopped.generation == upstream);
    }

    /** The reread records the stamp of its own reply, also when that reply is a correlated error. */
    method RereadRemote() returns (evidence: Evidence, ghost server: Option<Engine>, ghost reply: ReadReply)
      requires Inv(host.State())
      modifies host, this`rereadGeneration
      ensures Inv(host.State()) && Since(old(host.State()), host.State())
      ensures StampOf(rereadGeneration, server) && (evidence.Unreadable? || evidence.Snapshot?)
      ensures rereadGeneration == reply.generation && (evidence.Snapshot? <==> reply.ReadResult?)
      ensures rereadGeneration.Some? ==>
                forall e :: NotBefore(old(host.State()), e) ==> server.value == e || server.value.stamp > e.stamp
    {
      var read;
      ghost var served;
      read, server, served := ReadRemote();
      reply, rereadGeneration := read, read.generation;
      if read.ReadError? { return Unreadable, server, reply; }
      evidence := ReadSnapshot();
    }

    /** The no-report publication goes through exactly when both reads were stamped and one engine served them. */
    method PublishNoReport(ghost joined: Option<Engine>, ghost reread: Option<Engine>) returns (published: bool)
      requires Inv(host.State()) && StampOf(upstream, joined) && StampOf(rereadGeneration, reread)
      ensures published <==> upstream.Some? && rereadGeneration.Some? && joined == reread
    {
      published := rereadGeneration.Some? && rereadGeneration == upstream;
    }

    /**
     One whole attempt, with the broker free to replace its engine at every await. A publication without a report
     happens
     only if one engine served the joined read, the stop and the reread. It happens exactly when the election asks for
     it,
     the reread is stamped, and its server is the joined read's; the election asks only for an attested stop of a turn
     that the joined read had attributed, after a reread that shows no outcome of its own.
     */
    method Attempt()
      returns (published: bool, ghost course: Course,
               ghost joinedBy: Option<Engine>, ghost stoppedBy: Option<Engine>, ghost rereadBy: Option<Engine>)
      requires Inv(host.State()) && upstream == None
      modifies host, this
      ensures Inv(host.State())
      ensures published ==> joinedBy.Some? && joinedBy == stoppedBy == rereadBy
      ensures published <==> Asks(course) && rereadGeneration.Some? && joinedBy == rereadBy
    {
      published, joinedBy, stoppedBy, rereadBy := false, None, None, None;
      course := Course(NoRemote, true, Unacknowledged, NoRemote, Unfinished, true);
      var joined;
      ghost var joinedReply, rereadReply;
      joined, joinedBy, joinedReply := LoadRemoteEvidence();
      var cleanup: Cleanup, stale: bool := *, *;
      course := course.(joined := joined, stale := stale);
      OutcomesPublishedIff(false, false, joined, cleanup);
      if BeforeStop(joined, cleanup) != Stop || stale { return; }
      var outcome, servedBy, _, _, _ := StopExactTurn();
      stoppedBy := servedBy;
      course := course.(outcome := outcome);
      if outcome.PreExistingTerminal? { return; }
      var qualified := joined.Snapshot? && joined.attributable && outcome == Acknowledged(true);
      ghost var stoppedAt := host.State();
      host.Await();
      if qualified { NotBeforeLater(stoppedAt, host.State(), stoppedBy.value); }
      var evidence, abandoned;
      evidence, rereadBy, rereadReply := RereadRemote();
      abandoned, cleanup := *, *;
      course := course.(reread := evidence, cleanup := cleanup, abandoned := abandoned);
      var decision := AfterStop(outcome.Acknowledged?, qualified, evidence, cleanup);
      NoReportAskedIff(outcome.Acknowledged?, qualified, evidence, cleanup);
      if decision != AskNoReport || abandoned { return; }
      published := PublishNoReport(joinedBy, rereadBy);
    }
  }

  // -------------------------------------------------- the argument, on any run

  /**
   The engine `a` serves the joined read in `h0`; after any steps `b` serves the stop, and after any further steps the
   stop is stamped. The stamp equals the joined read's exactly when `a` stayed live all along, and then `a` served the
   stop.
   */
  lemma SameStampMeansUninterrupted(h0: Host, toStop: seq<Step>, toStamp: seq<Step>, a: Engine, b: Engine)
    requires Inv(h0) && h0.protocol == Some(a) && Run(h0, toStop).protocol == Some(b)
    ensures Run(h0, toStop + toStamp).protocolGeneration == Some(a.stamp) <==>
                Run(h0, toStop + toStamp).protocol == Some(a)
    ensures Run(h0, toStop + toStamp).protocolGeneration == Some(a.stamp) ==> a == b
  {
    var end := Run(h0, toStop + toStamp);
    GenerationsNeverReturn(h0, toStop + toStamp);
    BornStays(h0, toStop + toStamp, a);
    if end.protocolGeneration == Some(a.stamp) {
      LiveThroughout(h0, toStop, toStamp, a);
    }
  }

  lemma {:induction false} BornStays(h: Host, steps: seq<Step>, e: Engine)
    requires e in h.born
    ensures e in Run(h, steps).born
    decreases |steps|
  {
    if steps != [] { BornStays(Apply(h, steps[0]), steps[1..], e); }
  }

  /**
   A stop can carry a stamp newer than the engine that served it: comparing it with its server would prove nothing.
   */
  lemma StopStampCanBeNewer()
    ensures exists h, toStamp, b: Engine ::
              Inv(h) && h.protocol == Some(b) && Run(h, toStamp).protocolGeneration.Some?
              && Run(h, toStamp).protocolGeneration.value > b.stamp
  {
    var start := [GetProtocol, Spawned(0)];
    var h := Run(NEW_HOST, start);
    RunKeeps(NEW_HOST, start);
    var b := Engine(0, 1);
    assert h == Apply(Apply(NEW_HOST, GetProtocol), Spawned(0)) by {
      assert start[1..] == [Spawned(0)] && start[1..][1..] == [];
    }
    var toStamp := [Clear(b), CloseSettled(true), GetProtocol, Spawned(2)];
    var h1 := Apply(h, Clear(b));
    var h2 := Apply(h1, CloseSettled(true));
    var h3 := Apply(h2, GetProtocol);
    var h4 := Apply(h3, Spawned(2));
    assert toStamp[1..] == [CloseSettled(true), GetProtocol, Spawned(2)];
    assert toStamp[1..][1..] == [GetProtocol, Spawned(2)];
    assert toStamp[1..][1..][1..] == [Spawned(2)];
    calc {
      Run(h, toStamp);
      Run(h1, toStamp[1..]);
      Run(h2, toStamp[1..][1..]);
      Run(h3, toStamp[1..][1..][1..]);
      h4;
    }
    assert h4.protocolGeneration == Some(3);
  }
}
