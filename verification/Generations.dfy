/**
 The life of the upstream engine behind one broker: started on demand, live under its own stamp, retired,
 and replaced only after a clean close. Every handler interleaving is a sequence of these steps.
 */
module Generations {
  import opened Options

  type Attempt = nat
  type Stamp = nat

  /** One engine process that went live, with the stamp minted for it. */
  datatype Engine = Engine(id: Attempt, stamp: Stamp)
  datatype CloseStatus = Pending | Failed
  datatype Retired = Retired(engine: Engine, status: CloseStatus)

  /**
   `protocol`, `protocolGeneration`, `protocolPromise` and `retired` are the broker's fields. `running` holds the
   initialisations still at work, `rejected` those that failed, `born` and `closed` the engines that went live and
   those that closed cleanly; `next` is fresh. `closingOn` is the start that the broker's close waits for.
   */
  datatype Host = Host(
    protocol: Option<Engine>, protocolGeneration: Option<Stamp>, protocolPromise: Option<Attempt>,
        retired: Option<Retired>,
    closing: bool, closingOn: Option<Attempt>, running: set<Attempt>, rejected: set<Attempt>, born: set<Engine>,
        closed: set<Engine>, next: nat)

  const NEW_HOST := Host(None, None, None, None, false, None, {}, {}, {}, {}, 0)

  datatype Step =
    | GetProtocol
    | Spawned(attempt: Attempt)
    | SetupThrew(attempt: Attempt)
    | SpawnFailed(attempt: Attempt)
    | ForgetAttempt(attempt: Attempt)
    | Clear(engine: Engine)
    | CloseSettled(clean: bool)
    | BeginClosing
    | FinishClosing

  /** A caller asks for the engine: the live one, or a shared attempt, or a refusal while one is retiring. */
  function Get(h: Host): Host {
    if h.protocol.Some? || h.retired.Some? || h.protocolPromise.Some? then h
    else h.(protocolPromise := Some(h.next), running := h.running + {h.next}, next := h.next + 1)
  }

  /**
   A spawned process is refused while the broker closes or another engine retires; its close ends with `SpawnFailed`.
   */
  predicate MayGoLive(h: Host, a: Attempt) { a in h.running && !h.closing && h.retired.None? }

  function GoLive(h: Host, a: Attempt): Host {
    if !MayGoLive(h, a) then h
    else
      var engine := Engine(a, h.next);
      h.(protocol := Some(engine), protocolGeneration := Some(h.next), running := h.running - {a},
         born := h.born + {engine}, next := h.next + 1)
  }

  /** The engine's setup threw after its stamp was minted: it never serves, but the stamp field keeps the value. */
  function FailSetup(h: Host, a: Attempt): Host {
    if !MayGoLive(h, a) then h else h.(protocol := None, protocolGeneration := Some(h.next), next := h.next + 1)
  }

  function Reject(h: Host, a: Attempt): Host {
    if a !in h.running then h else h.(running := h.running - {a}, rejected := h.rejected + {a})
  }

  function Forget(h: Host, a: Attempt): Host {
    if a in h.rejected && h.protocolPromise == Some(a) then h.(protocolPromise := None) else h
  }

  function ClearGeneration(h: Host, engine: Engine): Host {
    if h.protocol != Some(engine) || h.retired.Some? then h
    else h.(protocol := None, protocolGeneration := None, protocolPromise := None,
            retired := Some(Retired(engine, Pending)))
  }

  function SettleClose(h: Host, clean: bool): Host {
    if h.retired.None? || h.retired.value.status.Failed? then h
    else if clean then h.(retired := None, closed := h.closed + {h.retired.value.engine})
    else h.(retired := Some(h.retired.value.(status := Failed)))
  }

  function StartClosing(h: Host): Host {
    if h.closing then h
    else if h.protocol.Some? then ClearGeneration(h.(closing := true), h.protocol.value)
    else h.(closing := true, closingOn := if h.retired.Some? then None else h.protocolPromise)
  }

  /** The close is over once the start it waits for and the retired engine, if any, have settled. */
  function EndClosing(h: Host): Host {
    if !h.closing || (h.closingOn.Some? && h.closingOn.value in h.running)
        || (h.retired.Some? && h.retired.value.status.Pending?) then h
    else h.(protocol := None, protocolGeneration := None, protocolPromise := None)
  }

  function Apply(h: Host, step: Step): Host {
    match step
    case GetProtocol => Get(h)
    case Spawned(a) => GoLive(h, a)
    case SetupThrew(a) => FailSetup(h, a)
    case SpawnFailed(a) => Reject(h, a)
    case ForgetAttempt(a) => Forget(h, a)
    case Clear(engine) => ClearGeneration(h, engine)
    case CloseSettled(clean) => SettleClose(h, clean)
    case BeginClosing => StartClosing(h)
    case FinishClosing => EndClosing(h)
  }

  function Run(h: Host, steps: seq<Step>): Host
    decreases |steps|
  {
    if steps == [] then h else Run(Apply(h, steps[0]), steps[1..])
  }

  // ------------------------------------------------------------- the invariant

  ghost predicate Starting(h: Host) { h.protocolPromise.Some? && h.protocol.None? }

  /** At most one of starting, live and retiring; while not closing, at most one process exists at all. */
  ghost predicate AtMostOneEngine(h: Host) {
    && !(h.protocol.Some? && h.retired.Some?)
    && !(Starting(h) && h.retired.Some?)
    && (h.protocol.Some? || h.retired.Some? ==> h.running == {})
    && (!h.closing ==> forall a <- h.running :: h.protocolPromise == Some(a))
    && (h.closing ==> h.protocol.None?)
  }

  /**
   A live engine carries the stamp minted for it, and every engine that ever lived is either live, or retiring, or
   closed.
   */
  ghost predicate Stamped(h: Host) {
    && (h.protocol.Some? ==> h.protocolGeneration == Some(h.protocol.value.stamp) && h.protocol.value in h.born)
    && (h.protocol.Some? ==> h.protocolPromise.Some? && h.protocolPromise.value !in h.rejected)
    && (h.retired.Some? ==> h.retired.value.engine in h.born && h.retired.value.engine !in h.closed)
    && (h.protocol.Some? ==> h.protocol.value !in h.closed)
    && h.closed <= h.born
    && (forall e <- h.born ::
        e in h.closed || h.protocol == Some(e) || (h.retired.Some? && h.retired.value.engine == e))
    && (forall e, f | e in h.born && f in h.born :: e.stamp == f.stamp ==> e == f)
    && (forall e <- h.born :: h.protocolGeneration == Some(e.stamp) ==> h.protocol == Some(e))
  }

  ghost predicate Drawn(h: Host) {
    && (forall a <- h.running :: a < h.next && a !in h.rejected)
    && (forall a <- h.rejected :: a < h.next)
    && (h.protocolPromise.Some? ==> h.protocolPromise.value < h.next)
    && (forall e <- h.born :: e.stamp < h.next && e.id < h.next)
    && (h.protocolGeneration.Some? ==> h.protocolGeneration.value < h.next)
  }

  ghost predicate Inv(h: Host) { AtMostOneEngine(h) && Stamped(h) && Drawn(h) }

  lemma GetKeeps(h: Host)
    requires Inv(h)
    ensures Inv(Get(h))
  {}

  lemma GoLiveKeeps(h: Host, a: Attempt)
    requires Inv(h)
    ensures Inv(GoLive(h, a))
  {}

  lemma FailSetupKeeps(h: Host, a: Attempt)
    requires Inv(h)
    ensures Inv(FailSetup(h, a))
  {}

  lemma RejectKeeps(h: Host, a: Attempt)
    requires Inv(h)
    ensures Inv(Reject(h, a))
  {}

  lemma ForgetKeeps(h: Host, a: Attempt)
    requires Inv(h)
    ensures Inv(Forget(h, a))
  {}

  lemma ClearKeeps(h: Host, engine: Engine)
    requires Inv(h)
    ensures Inv(ClearGeneration(h, engine))
  {}

  lemma SettleCloseKeeps(h: Host, clean: bool)
    requires Inv(h)
    ensures Inv(SettleClose(h, clean))
  {}

  lemma StartClosingKeeps(h: Host)
    requires Inv(h)
    ensures Inv(StartClosing(h))
  {}

  lemma EndClosingKeeps(h: Host)
    requires Inv(h)
    ensures Inv(EndClosing(h))
  {}

  lemma ApplyKeeps(h: Host, step: Step)
    requires Inv(h)
    ensures Inv(Apply(h, step))
  {
    match step
    case GetProtocol => GetKeeps(h);
    case Spawned(a) => GoLiveKeeps(h, a);
    case SetupThrew(a) => FailSetupKeeps(h, a);
    case SpawnFailed(a) => RejectKeeps(h, a);
    case ForgetAttempt(a) => ForgetKeeps(h, a);
    case Clear(engine) => ClearKeeps(h, engine);
    case CloseSettled(clean) => SettleCloseKeeps(h, clean);
    case BeginClosing => StartClosingKeeps(h);
    case FinishClosing => EndClosingKeeps(h);
  }

  lemma {:induction false} RunKeeps(h: Host, steps: seq<Step>)
    requires Inv(h)
    ensures Inv(Run(h, steps))
    decreases |steps|
  {
    if steps != [] {
      ApplyKeeps(h, steps[0]);
      RunKeeps(Apply(h, steps[0]), steps[1..]);
    }
  }

  /** In every reachable state at most one engine is starting, live or retiring, and a live one has its own stamp. */
  lemma OneEngine(steps: seq<Step>)
    ensures var h := Run(NEW_HOST, steps); AtMostOneEngine(h) && Stamped(h)
  {
    RunKeeps(NEW_HOST, steps);
  }

  /** A new engine starts only when every engine that ever lived has closed cleanly. */
  lemma ReplacementNeedsCleanClose(steps: seq<Step>, step: Step, a: Attempt)
    requires a in Apply(Run(NEW_HOST, steps), step).running && a !in Run(NEW_HOST, steps).running
    ensures var h := Run(NEW_HOST, steps); h.born <= h.closed && h.protocol.None? && h.retired.None?
  {
    RunKeeps(NEW_HOST, steps);
  }

  /** The retired engine whose close has not settled yet. */
  predicate Retiring(h: Host, engine: Engine) { h.retired == Some(Retired(engine, Pending)) }

  /** Nothing starts, serves or closes here any more. */
  ghost predicate Blocked(h: Host, engine: Engine, born: set<Engine>) {
    && h.retired == Some(Retired(engine, Failed)) && engine !in h.closed
    && h.protocol.None? && h.running == {} && h.born == born
  }

  lemma {:induction false} BlockedForGood(h: Host, steps: seq<Step>, engine: Engine, born: set<Engine>)
    requires Inv(h) && Blocked(h, engine, born)
    ensures Blocked(Run(h, steps), engine, born)
    decreases |steps|
  {
    if steps != [] {
      ApplyKeeps(h, steps[0]);
      BlockedForGood(Apply(h, steps[0]), steps[1..], engine, born);
    }
  }

  /**
   From any reachable state with a retired engine: once its close has failed, no engine starts or serves, whatever
   happens next, and that engine never counts as closed.
   */
  lemma FailedCloseBlocks(steps: seq<Step>, engine: Engine, more: seq<Step>)
    requires Retiring(Run(NEW_HOST, steps), engine)
    ensures var later := Run(Apply(Run(NEW_HOST, steps), CloseSettled(false)), more);
            && later.protocol.None? && later.running == {} && later.born == Run(NEW_HOST, steps).born
            && engine !in later.closed && later.retired == Some(Retired(engine, Failed))
  {
    var h := Run(NEW_HOST, steps);
    RunKeeps(NEW_HOST, steps);
    ApplyKeeps(h, CloseSettled(false));
    BlockedForGood(Apply(h, CloseSettled(false)), more, engine, h.born);
  }

  /** Once it has closed cleanly, it counts as closed and the next caller starts a replacement. */
  lemma CleanCloseFrees(steps: seq<Step>, engine: Engine)
    requires Retiring(Run(NEW_HOST, steps), engine)
    ensures var h := Run(NEW_HOST, steps); var freed := Apply(h, CloseSettled(true));
            && freed.retired.None? && freed.closed == h.closed + {engine} && freed.born == freed.closed
            && Apply(freed, GetProtocol).running == {freed.next}
  {
    RunKeeps(NEW_HOST, steps);
    ApplyKeeps(Run(NEW_HOST, steps), CloseSettled(true));
  }

  /** Nothing but a clean close of the retired engine makes an engine count as closed. */
  lemma ClosesByStep(h: Host, step: Step, engine: Engine)
    ensures engine in Apply(h, step).closed && engine !in h.closed ==>
              Retiring(h, engine) && step == CloseSettled(true)
  {}

  lemma {:induction false} ClosedInRun(h: Host, steps: seq<Step>, engine: Engine) returns (i: nat)
    requires engine in Run(h, steps).closed && engine !in h.closed
    ensures i < |steps| && steps[i] == CloseSettled(true) && Retiring(Run(h, steps[..i]), engine)
    decreases |steps|
  {
    var next := Apply(h, steps[0]);
    if engine in next.closed {
      i := 0;
      ClosesByStep(h, steps[0], engine);
      assert steps[..0] == [];
    } else {
      i := ClosedInRun(next, steps[1..], engine);
      i := i + 1;
      assert steps[..i][0] == steps[0] && steps[..i][1..] == steps[1..][..i - 1];
    }
  }

  // --------------------------------------- what each step does, and when

  /** An attempt starts exactly when the engine is asked for and none is starting, live or retired. */
  lemma StartsIff(steps: seq<Step>, step: Step)
    ensures var h := Run(NEW_HOST, steps); var g := Apply(h, step);
            && (exists a :: a in g.running && a !in h.running) <==>
               step.GetProtocol? && h.protocolPromise.None? && h.protocol.None? && h.retired.None?
    ensures var h := Run(NEW_HOST, steps); var g := Apply(h, step);
            forall a | a in g.running && a !in h.running ::
              a !in h.rejected && (forall e <- h.born :: e.id != a) && g.protocolPromise == Some(a)
  {
    RunKeeps(NEW_HOST, steps);
    var h := Run(NEW_HOST, steps);
    if step.GetProtocol? && h.protocolPromise.None? && h.protocol.None? && h.retired.None? {
      assert h.next in Apply(h, step).running && h.next !in h.running;
    }
  }

  /** An engine goes live exactly when its attempt is at work, the broker is not closing and none is retired. */
  lemma GoesLiveIff(steps: seq<Step>, step: Step, engine: Engine)
    ensures var h := Run(NEW_HOST, steps); var g := Apply(h, step);
            (g.protocol == Some(engine) && h.protocol != Some(engine)) <==>
              && step == Spawned(engine.id) && engine.id in h.running && !h.closing && h.retired.None?
              && engine.stamp == h.next
    ensures var h := Run(NEW_HOST, steps); var g := Apply(h, step);
            g.protocol == Some(engine) && h.protocol != Some(engine) ==>
              && g.protocolGeneration == Some(engine.stamp) && g.born == h.born + {engine} && engine !in h.born
              && engine.id !in g.running && (forall e <- h.born :: e.stamp < engine.stamp)
  {
    RunKeeps(NEW_HOST, steps);
  }

  /** An engine stops being live exactly when it is cleared or the broker closes; it is then retired, unsettled. */
  lemma RetiresIff(steps: seq<Step>, step: Step, engine: Engine)
    requires Run(NEW_HOST, steps).protocol == Some(engine)
    ensures var h := Run(NEW_HOST, steps); var g := Apply(h, step);
            && (g.protocol != Some(engine) <==> step == Clear(engine) || step == BeginClosing)
            && (g.protocol != Some(engine) ==>
                  g.protocol.None? && g.protocolGeneration.None? && g.protocolPromise.None? && Retiring(g, engine))
            && (g.protocol == Some(engine) ==> g.protocolGeneration == Some(engine.stamp) && g.retired.None?)
  {
    RunKeeps(NEW_HOST, steps);
  }

  /** An attempt ends exactly when it goes live or fails, and only its own failure lets the next caller start anew. */
  lemma AttemptEndsIff(steps: seq<Step>, step: Step, a: Attempt)
    requires a in Run(NEW_HOST, steps).running
    ensures var h := Run(NEW_HOST, steps); var g := Apply(h, step);
            && (a !in g.running <==>
                  step == SpawnFailed(a) || (step == Spawned(a) && !h.closing && h.retired.None?))
            && (a in g.rejected <==> step == SpawnFailed(a))
            && (step == SpawnFailed(a) ==> Apply(g, ForgetAttempt(a)).protocolPromise != Some(a))
            && (!h.closing && g.protocol.None? ==> g.protocolPromise == Some(a))
  {
    RunKeeps(NEW_HOST, steps);
  }

  /** The close is over: the start it waited for, if any, has settled, and so has the retired engine, if any. */
  predicate CloseEnds(h: Host, step: Step) {
    && step.FinishClosing? && h.closing && (h.closingOn.Some? ==> h.closingOn.value !in h.running)
    && (h.retired.Some? ==> h.retired.value.status.Failed?)
  }

  /** The shared attempt is forgotten exactly with its own failure, its engine's retirement, or the end of the close. */
  lemma PromiseDropsIff(steps: seq<Step>, step: Step, a: Attempt)
    requires Run(NEW_HOST, steps).protocolPromise == Some(a)
    ensures var h := Run(NEW_HOST, steps);
            Apply(h, step).protocolPromise != Some(a) <==>
              || (step == ForgetAttempt(a) && a in h.rejected)
              || (h.protocol.Some? && (step == Clear(h.protocol.value) || step == BeginClosing))
              || CloseEnds(h, step)
  {
    RunKeeps(NEW_HOST, steps);
  }

  /** The stamp shown moves exactly when a spawned engine is set up, the engine retires, or the close ends. */
  lemma StampMovesIff(steps: seq<Step>, step: Step)
    ensures var h := Run(NEW_HOST, steps); var g := Apply(h, step);
            g.protocolGeneration != h.protocolGeneration <==>
              || ((step.Spawned? || step.SetupThrew?) && step.attempt in h.running && !h.closing && h.retired.None?)
              || (h.protocol.Some? && (step == Clear(h.protocol.value) || step == BeginClosing))
              || (CloseEnds(h, step) && h.protocolGeneration.Some?)
    ensures var h := Run(NEW_HOST, steps); var g := Apply(h, step);
            step.SetupThrew? && g.protocolGeneration != h.protocolGeneration ==>
              && g.protocolGeneration.Some? && (forall e <- g.born :: e.stamp != g.protocolGeneration.value)
              && g.protocol.None? && g.born == h.born
  {
    RunKeeps(NEW_HOST, steps);
  }

  /** Closing begins once, and waits for the start shared at that moment unless an engine is live or retired. */
  lemma ClosingBegins(steps: seq<Step>, step: Step)
    ensures var h := Run(NEW_HOST, steps); var g := Apply(h, step);
            && (g.closing <==> h.closing || step == BeginClosing)
            && (h.closing ==> g.closingOn == h.closingOn)
            && (g.closing && !h.closing ==>
                  g.closingOn == if h.protocol.Some? || h.retired.Some? then None else h.protocolPromise)
  {
    RunKeeps(NEW_HOST, steps);
    ClosingOnNone(NEW_HOST, steps);
  }

  lemma {:induction false} ClosingOnNone(h: Host, steps: seq<Step>)
    requires Inv(h) && (!h.closing ==> h.closingOn.None?)
    ensures var later := Run(h, steps); !later.closing ==> later.closingOn.None?
    decreases |steps|
  {
    if steps != [] {
      ApplyKeeps(h, steps[0]);
      ClosingOnNone(Apply(h, steps[0]), steps[1..]);
    }
  }

  /** Two starts overlap only while the broker closes, and then neither engine can go live. */
  lemma OverlapOnlyWhileClosing(steps: seq<Step>, a: Attempt, b: Attempt)
    requires var h := Run(NEW_HOST, steps); a in h.running && b in h.running && a != b
    ensures var h := Run(NEW_HOST, steps); h.closing && !MayGoLive(h, a) && !MayGoLive(h, b)
  {
    RunKeeps(NEW_HOST, steps);
  }

  /**
   In any reachable state, a step makes a second start just when the engine is asked for while a forgotten start still
   runs.
   */
  lemma SecondStartIff(steps: seq<Step>, step: Step)
    ensures var h := Run(NEW_HOST, steps);
            h.running != {} && !(Apply(h, step).running <= h.running) <==>
            step.GetProtocol? && h.protocolPromise.None? && h.protocol.None? && h.retired.None? && h.running != {}
  {
    RunKeeps(NEW_HOST, steps);
    var h := Run(NEW_HOST, steps);
    assert h.next !in h.running;
  }

  /**
   They do overlap there: the start that the close waited for fails, a waiting handler starts another, the end of the
   close forgets that one, and the next handler starts a third.
   */
  lemma StartsCanOverlap()
    ensures exists steps :: Run(NEW_HOST, steps).running == {1, 2}
  {
    var failing := [GetProtocol, BeginClosing, SpawnFailed(0), ForgetAttempt(0)];
    var again := [GetProtocol, FinishClosing, GetProtocol];
    var h := Apply(Apply(Apply(Apply(NEW_HOST, GetProtocol), BeginClosing), SpawnFailed(0)), ForgetAttempt(0));
    assert failing[1..] == [BeginClosing, SpawnFailed(0), ForgetAttempt(0)]
           && failing[1..][1..] == [SpawnFailed(0), ForgetAttempt(0)]
        && failing[1..][1..][1..] == [ForgetAttempt(0)];
    assert Run(NEW_HOST, failing) == h;
    assert h.running == {} && h.protocolPromise.None? && h.next == 1 && h.closing && h.closingOn == Some(0)
           && h.retired.None?;
    assert again[1..] == [FinishClosing, GetProtocol] && again[1..][1..] == [GetProtocol];
    var h2 := Apply(Apply(h, GetProtocol), FinishClosing);
    assert h2.running == {1} && h2.protocolPromise.None?;
    assert Run(h, again) == Apply(h2, GetProtocol);
    RunConcat(NEW_HOST, failing, again);
    assert Run(NEW_HOST, failing + again).running == {1, 2};
  }

  // ---------------------------------------------------- generations never return

  /** What holds of any state `later` than `h`: what it shows is either still what `h` showed, or was minted since. */
  ghost predicate Since(h: Host, later: Host) {
    && h.next <= later.next && h.born <= later.born
    && (later.protocol.Some? ==> later.protocol == h.protocol || later.protocol.value.stamp >= h.next)
    && (later.protocolGeneration.Some? ==>
          later.protocolGeneration == h.protocolGeneration || later.protocolGeneration.value >= h.next)
  }

  lemma StepIsSince(h: Host, step: Step)
    ensures Since(h, Apply(h, step))
  {}

  lemma SinceIsTransitive(a: Host, b: Host, c: Host)
    requires Since(a, b) && Since(b, c)
    ensures Since(a, c)
  {}

  lemma {:induction false} GenerationsNeverReturn(h: Host, steps: seq<Step>)
    requires Inv(h)
    ensures Inv(Run(h, steps)) && Since(h, Run(h, steps))
    decreases |steps|
  {
    if steps != [] {
      ApplyKeeps(h, steps[0]);
      StepIsSince(h, steps[0]);
      GenerationsNeverReturn(Apply(h, steps[0]), steps[1..]);
      SinceIsTransitive(h, Apply(h, steps[0]), Run(h, steps));
    }
  }

  lemma {:induction false} RunConcat(h: Host, a: seq<Step>, b: seq<Step>)
    ensures Run(h, a + b) == Run(Run(h, a), b)
    decreases |a|
  {
    if a == [] {
      assert a + b == b;
    } else {
      assert (a + b)[1..] == a[1..] + b;
      RunConcat(Apply(h, a[0]), a[1..], b);
    }
  }

  /** An engine live at both ends of a run was live all along it. */
  lemma LiveThroughout(h: Host, a: seq<Step>, b: seq<Step>, engine: Engine)
    requires Inv(h) && h.protocol == Some(engine) && Run(h, a + b).protocol == Some(engine)
    ensures Run(h, a).protocol == Some(engine)
  {
    RunConcat(h, a, b);
    GenerationsNeverReturn(h, a);
    GenerationsNeverReturn(Run(h, a), b);
    assert engine.stamp < h.next;
  }
}
