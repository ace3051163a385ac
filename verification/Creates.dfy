/** What can become of a write to the durable store. */
module Fates {
  /** It succeeded, or it reported a failure after or before taking effect. */
  datatype Fate = Done | Landed | Lost
}

/**
 A `session/create` from its upstream answer to its end, as a state machine over the store: what the request does
 between two awaits is one step, and so is whatever other handlers and processes do to the store meanwhile.
 */
module Creates {
  import opened OwnerImage
  import opened Fates

  datatype End = Owned | Refused | Failed

  /** `before` is the map read under the lock; `Lapsed` is a recorded create whose standing turned out to be gone. */
  datatype Phase =
    | Answered | Admitted | Locked(before: Owners) | Wrote(before: Owners, write: Fate) | Recorded(before: Owners)
        | Lapsed(before: Owners)
    | Ended(end: End)

  /**
   `standing` is `commitCurrent`: engine, owner request, session lease and commit token are all still this request's.
   */
  datatype Create = Create(session: SessionId, owner: OwnerId, requireNew: bool, standing: bool, disk: Owners,
                           phase: Phase)

  datatype Step =
    | Cancel
    | Others(owners: Owners)
    | Check
    | Lock(readable: bool)
    | Write(fate: Fate)
    | Conclude(fate: Fate, readable: bool)
    | ReleaseFails
    | Confirm
    | Withdraw(readable: bool, fate: Fate, rereadable: bool, unlocked: bool)

  predicate Holds(owners: Owners, s: SessionId, o: OwnerId) { s in owners && owners[s] == o }

  /** The lock excludes everyone else from the store. */
  predicate Exclusive(c: Create) { c.phase.Locked? || c.phase.Wrote? }

  /** `held` with the session's entry as it was in `before`. */
  function Undone(held: Owners, before: Owners, s: SessionId): Owners {
    if s in before then held[s := before[s]] else held - {s}
  }

  function After(c: Create, before: Owners): Owners { before[c.session := c.owner] }

  /** The end of the write: a request that lost its standing rolls the store back; an ambiguous write is read back. */
  function ConcludeWrite(c: Create, rollback: Fate, readable: bool): Create
    requires c.phase.Wrote?
  {
    var before := c.phase.before;
    if !c.standing then
      var disk := if rollback.Lost? then c.disk else before;
      c.(disk := disk, phase := Ended(if rollback.Done? || (readable && disk == before) then Refused else Failed))
    else if c.phase.write.Done? || (readable && c.disk == After(c, before)) then c.(phase := Recorded(before))
    else c.(phase := Ended(Failed))
  }

  /** The withdrawal of a recorded create, under a fresh lock; it also fails when that lock's release does. */
  function WithdrawRecord(c: Create, readable: bool, fate: Fate, rereadable: bool, unlocked: bool): Create
    requires c.phase.Lapsed?
  {
    var before := c.phase.before;
    if !readable then c.(phase := Ended(Failed))
    else if SameEntry(c.disk, before, c.session) then c.(phase := Ended(if unlocked then Refused else Failed))
    else if !Holds(c.disk, c.session, c.owner) then c.(phase := Ended(Failed))
    else
      var disk := if fate.Lost? then c.disk else Undone(c.disk, before, c.session);
      c.(disk := disk, phase := Ended(if unlocked
                                      && (fate.Done? || (rereadable && !fate.Lost?)) then Refused else Failed))
  }

  function Apply(c: Create, step: Step): Create {
    match (step, c.phase)
    case (Cancel, _) => c.(standing := false)
    case (Others(owners), _) => if Exclusive(c) then c else c.(disk := owners)
    case (Check, Answered) => c.(phase := if c.standing then Admitted else Ended(Refused))
    case (Lock(readable), Admitted) =>
      if !readable then c.(phase := Ended(Failed))
      else if c.session in c.disk && (c.requireNew || c.disk[c.session] != c.owner) then c.(phase := Ended(Refused))
      else c.(phase := Locked(c.disk))
    case (Write(fate), Locked(before)) =>
      if !c.standing then c.(phase := Ended(Refused))
      else c.(disk := if fate.Lost? then c.disk else After(c, before), phase := Wrote(before, fate))
    case (Conclude(fate, readable), Wrote(_, _)) => ConcludeWrite(c, fate, readable)
    case (ReleaseFails, Recorded(_)) => c.(phase := Ended(Failed))
    case (Confirm, Recorded(before)) => c.(phase := if c.standing then Ended(Owned) else Lapsed(before))
    case (Withdraw(readable, fate, rereadable, unlocked), Lapsed(_)) => WithdrawRecord(c, readable, fate, rereadable,
        unlocked)
    case _ => c
  }

  function Run(c: Create, steps: seq<Step>): Create
    decreases |steps|
  {
    if steps == [] then c else Run(Apply(c, steps[0]), steps[1..])
  }

  lemma {:induction false} RunConcat(c: Create, a: seq<Step>, b: seq<Step>)
    ensures Run(c, a + b) == Run(Run(c, a), b)
    decreases |a|
  {
    if a == [] {
      assert a + b == b;
    } else {
      assert (a + b)[1..] == a[1..] + b;
      RunConcat(Apply(c, a[0]), a[1..], b);
    }
  }

  /** One more step at the end of a run. */
  lemma RunThen(c: Create, steps: seq<Step>, step: Step)
    ensures Run(c, steps + [step]) == Apply(Run(c, steps), step)
  {
    RunConcat(c, steps, [step]);
    assert Run(Apply(Run(c, steps), step), []) == Apply(Run(c, steps), step);
  }

  // ------------------------------------------------------------ late answers

  /** Nothing was written yet. */
  predicate Unwritten(c: Create) { c.phase.Answered? || c.phase.Admitted? || c.phase.Locked? }

  /** A state no step of the request itself can write from, nor own the session from. */
  predicate Barred(c: Create) { !c.standing && (Unwritten(c) || (c.phase.Ended? && !c.phase.end.Owned?)) }

  predicate OwnWrite(c: Create, step: Step) { !step.Others? && Apply(c, step).disk != c.disk }

  /** A request whose standing is gone before its write never writes, and never owns, whatever happens. */
  lemma {:induction false} LateNeverWrites(c: Create, steps: seq<Step>, i: nat)
    requires Barred(c) && i < |steps|
    ensures Barred(Run(c, steps)) && !OwnWrite(Run(c, steps[..i]), steps[i])
    decreases |steps|
  {
    var next := Apply(c, steps[0]);
    assert Barred(next);
    if i > 0 {
      LateNeverWrites(next, steps[1..], i - 1);
      assert steps[..i][0] == steps[0] && steps[..i][1..] == steps[1..][..i - 1];
    } else {
      assert steps[..0] == [];
      if |steps| > 1 { LateNeverWrites(next, steps[1..], 0); }
    }
  }

  /** A create ends owning only where it stands. */
  lemma OwnedMeansStanding(c: Create, step: Step)
    requires !c.phase.Ended? && Apply(c, step).phase == Ended(Owned)
    ensures c.standing && step.Confirm? && c.phase.Recorded?
  {}

  // ------------------------------------------------- when the record stays

  /** Under the lock the store is what the create made of it. */
  ghost predicate Consistent(c: Create) {
    && (c.phase.Locked? ==> c.disk == c.phase.before)
    && (c.phase.Wrote? ==> c.disk == if c.phase.write.Lost? then c.phase.before else After(c, c.phase.before))
    && (c.phase.Locked? || c.phase.Wrote? || c.phase.Recorded? || c.phase.Lapsed? ==>
          c.session in c.phase.before ==> !c.requireNew && c.phase.before[c.session] == c.owner)
  }

  lemma StepConsistent(c: Create, step: Step)
    requires Consistent(c)
    ensures Consistent(Apply(c, step)) && Apply(c, step).session == c.session && Apply(c, step).owner == c.owner
  {
    match step
    case Cancel =>
    case Others(_) =>
    case Check =>
    case Lock(_) =>
    case Write(_) =>
    case Conclude(_, _) =>
    case ReleaseFails =>
    case Confirm =>
    case Withdraw(_, _, _, _) =>
  }

  lemma {:induction false} RunConsistent(c: Create, steps: seq<Step>)
    requires Consistent(c)
    ensures Consistent(Run(c, steps)) && Run(c, steps).session == c.session && Run(c, steps).owner == c.owner
    decreases |steps|
  {
    if steps != [] {
      StepConsistent(c, steps[0]);
      RunConsistent(Apply(c, steps[0]), steps[1..]);
    }
  }

  /** The store as everyone else left it, and whether anyone else wrote it after the create did. */
  datatype Writers = Writers(foreign: Owners, since: bool)

  function Watch(c: Create, w: Writers, step: Step): Writers {
    if step.Others? && !Exclusive(c) then Writers(step.owners, true)
    else if step.Write? && c.phase.Locked? then w.(since := false)
    else w
  }

  function WatchRun(c: Create, w: Writers, steps: seq<Step>): Writers
    decreases |steps|
  {
    if steps == [] then w else WatchRun(Apply(c, steps[0]), Watch(c, w, steps[0]), steps[1..])
  }

  /** What the store holds when nobody but this create and the others wrote it. */
  ghost predicate Watched(c: Create, w: Writers) {
    && (Unwritten(c) ==> c.disk == w.foreign)
    && (c.phase.Wrote? ==> !w.since)
    && (c.phase.Recorded? ==> c.disk == if w.since then w.foreign else After(c, c.phase.before))
    && (c.phase.Lapsed? ==> c.disk == if w.since then w.foreign else After(c, c.phase.before))
  }

  lemma StepWatched(c: Create, w: Writers, step: Step)
    requires Consistent(c) && Watched(c, w)
    ensures Watched(Apply(c, step), Watch(c, w, step))
  {
    match step
    case Cancel =>
    case Others(_) =>
    case Check =>
    case Lock(_) =>
    case Write(_) =>
    case Conclude(_, _) =>
    case ReleaseFails =>
    case Confirm =>
    case Withdraw(_, _, _, _) =>
  }

  lemma {:induction false} RunWatched(c: Create, w: Writers, steps: seq<Step>)
    requires Consistent(c) && Watched(c, w)
    ensures Watched(Run(c, steps), WatchRun(c, w, steps))
    decreases |steps|
  {
    if steps != [] {
      StepConsistent(c, steps[0]);
      StepWatched(c, w, steps[0]);
      RunWatched(Apply(c, steps[0]), Watch(c, w, steps[0]), steps[1..]);
    }
  }

  /** A written record is still there unless another writer came after it and left the session to someone else. */
  predicate LeftByOthers(c: Create, w: Writers) { w.since ==> Holds(w.foreign, c.session, c.owner) }

  /**
   What leaves the owner of a late create with the session, by where the create ends. Before its write only others can
   have. Afterwards it is a rollback without effect, a lock that could not be released, or a withdrawal that could not
   lock the store or write it; and nobody else may have removed the record meanwhile.
   */
  predicate RecordStays(c: Create, w: Writers, step: Step) {
    match (c.phase, step)
    case (Wrote(before, write), Conclude(rollback, _)) => Holds(before, c.session, c.owner)
        || (!write.Lost? && rollback.Lost?)
    case (Recorded(_), ReleaseFails) => LeftByOthers(c, w)
    case (Lapsed(before), Withdraw(readable, fate, _, _)) =>
      LeftByOthers(c, w) && (Holds(before, c.session, c.owner) || !readable || fate.Lost?)
    case _ => Holds(w.foreign, c.session, c.owner)
  }

  /** Where a create without standing ends, its owner is left with the session exactly when that is so. */
  lemma LateRecordStaysIff(start: Create, steps: seq<Step>, step: Step)
    requires start.phase.Answered?
    requires var c := Run(start, steps); !c.standing && !c.phase.Ended? && Apply(c, step).phase.Ended?
    ensures var c := Run(start, steps);
            Holds(Apply(c, step).disk, start.session, start.owner)
            <==> RecordStays(c, WatchRun(start, Writers(start.disk, false), steps), step)
  {
    RunConsistent(start, steps);
    RunWatched(start, Writers(start.disk, false), steps);
  }

  const RECORD: seq<Step> := [Check, Lock(true), Write(Done), Conclude(Done, true)]
  const LAPSE: seq<Step> := [Cancel, Confirm, Withdraw(false, Done, true, true)]

  lemma RecordRuns(c: Create)
    requires c.phase.Answered? && c.standing && c.disk == map[]
    ensures Run(c, RECORD) == c.(disk := map[c.session := c.owner], phase := Recorded(map[]))
  {
    FourSteps(c, Check, Lock(true), Write(Done), Conclude(Done, true));
    var locked := Apply(Apply(c, Check), Lock(true));
    assert locked == c.(phase := Locked(map[]));
    assert Apply(locked, Write(Done)) == c.(disk := map[c.session := c.owner], phase := Wrote(map[], Done));
  }

  lemma LapseRuns(c: Create)
    requires c.phase.Recorded?
    ensures Run(c, LAPSE) == c.(standing := false, phase := Ended(Failed))
  {
    ThreeSteps(c, Cancel, Confirm, Withdraw(false, Done, true, true));
  }

  /** It can be so: the request is cancelled once its record is written, and the withdrawal cannot take the lock. */
  lemma LateRecordCanStay(s: SessionId, o: OwnerId, requireNew: bool)
    ensures var c := Run(Create(s, o, requireNew, true, map[], Answered), RECORD + LAPSE);
            c.phase == Ended(Failed) && !c.standing && Holds(c.disk, s, o)
  {
    var start := Create(s, o, requireNew, true, map[], Answered);
    RunConcat(start, RECORD, LAPSE);
    RecordRuns(start);
    LapseRuns(Run(start, RECORD));
  }

  /** Or it is cancelled while its commit's lock fails to be released: no rollback and no withdrawal is even tried. */
  lemma LateRecordCanStayUnreleased(s: SessionId, o: OwnerId, requireNew: bool)
    ensures var c := Run(Create(s, o, requireNew, true, map[], Answered), RECORD + [Cancel, ReleaseFails]);
            c.phase == Ended(Failed) && !c.standing && Holds(c.disk, s, o)
  {
    var start := Create(s, o, requireNew, true, map[], Answered);
    RunConcat(start, RECORD, [Cancel, ReleaseFails]);
    RecordRuns(start);
    var c := Run(start, RECORD);
    RunThen(c, [], Cancel);
    RunThen(c, [Cancel], ReleaseFails);
    assert [Cancel] + [ReleaseFails] == [Cancel, ReleaseFails];
  }

  lemma ThreeSteps(c: Create, x: Step, y: Step, z: Step)
    ensures Run(c, [x, y, z]) == Apply(Apply(Apply(c, x), y), z)
  {
    RunThen(c, [], x);
    RunThen(c, [x], y);
    RunThen(c, [x, y], z);
    assert [] + [x] == [x] && [x] + [y] == [x, y] && [x, y] + [z] == [x, y, z];
  }

  lemma FourSteps(c: Create, w: Step, x: Step, y: Step, z: Step)
    ensures Run(c, [w, x, y, z]) == Apply(Apply(Apply(Apply(c, w), x), y), z)
  {
    ThreeSteps(c, w, x, y);
    RunThen(c, [w, x, y], z);
    assert [w, x, y] + [z] == [w, x, y, z];
  }
}
