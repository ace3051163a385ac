/**
 SessionEnd's settlement protocol: which obligations were reconciled, when the durable receipt may be settled, and which
 workspaces' broker owners may be released, all before one shared deadline.
 */
module SessionEnds {
  import opened Options
  import opened WorkerPools

  type Workspace = string

  datatype Status = Active | Cancelling | Terminal
  datatype Job = Job(status: Status, stopIntent: bool, markedRunner: bool)
  datatype Kind = Unstated | NoActiveJob | RunnerCleanupPending | RetainedWritableGuard | Other
  datatype Outcome = Outcome(kind: Kind, job: Option<Job>)

  datatype Receipt = Receipt(epoch: nat, updatedAt: nat)
  datatype Obligation = Obligation(workspace: Workspace, readOnly: bool)

  /**
   Terminal, or a cancelling guard that holds an exact stop intent. A bare record of a marked runner proves nothing.
   */
  predicate EndedObligationSettled(o: Outcome) {
    if o.kind.NoActiveJob? then true
    else if o.kind.RunnerCleanupPending? then false
    else if o.job.None? then true
    else if o.kind.Unstated? && o.job.value.status.Terminal? && o.job.value.markedRunner then false
    else if o.job.value.status.Terminal? then true
    else o.job.value.status.Cancelling? && o.job.value.stopIntent
  }

  /** Which evidence discharges an obligation, by what is known of its job. */
  lemma DischargeEvidence(kind: Kind, status: Status, stopIntent: bool, markedRunner: bool)
    ensures var job := Job(status, stopIntent, markedRunner);
            var settled := EndedObligationSettled(Outcome(kind, Some(job)));
            && (kind == NoActiveJob ==> settled)
            && (kind == RunnerCleanupPending ==> !settled)
            && (kind != NoActiveJob && status == Active ==> !settled)
            && (kind != NoActiveJob && kind != RunnerCleanupPending && status == Cancelling ==>
                (settled <==> stopIntent))
            && (kind == Unstated && status == Terminal ==> (settled <==> !markedRunner))
            && (kind == RetainedWritableGuard && status == Terminal ==> settled)
            && (kind == Other && status == Terminal ==> settled)
    ensures EndedObligationSettled(Outcome(kind, None)) <==> kind != RunnerCleanupPending
  {
    match kind
    case Unstated =>
    case NoActiveJob =>
    case RunnerCleanupPending =>
    case RetainedWritableGuard =>
    case Other =>
  }

  /** How a reconciled obligation ended: by its outcome, or by what a reread of its job showed. */
  datatype Verdict = ByOutcome(outcome: Outcome) | ByReread(job: Option<Job>) | JobMissing | Unproven

  predicate Discharges(v: Verdict) {
    match v
    case ByOutcome(outcome) => EndedObligationSettled(outcome)
    case ByReread(job) => EndedObligationSettled(Outcome(Unstated, job))
    case JobMissing => true
    case Unproven => false
  }

  /** The only ending that leaves the workspace's owner releasable. */
  predicate LeavesReleasable(v: Verdict) {
    v.ByOutcome? && EndedObligationSettled(v.outcome) && !v.outcome.kind.RetainedWritableGuard?
  }

  /** A verdict, and whether the remote stage was aborted by the time it was reached. */
  datatype Ending = Ending(verdict: Verdict, aborted: bool)

  /** What a reread of a failed obligation's job answers. */
  datatype Reread = Read(job: Option<Job>) | NotFound | Failed

  function VerdictOf(answer: Reread): Verdict {
    match answer
    case Read(job) => ByReread(job)
    case NotFound => JobMissing
    case Failed => Unproven
  }

  /** What the fence's calls answered for a late obligation: nothing where a call threw or was not made. */
  datatype LateAnswers = LateAnswers(delegated: Option<Option<Job>>, settled: Option<Outcome>)

  predicate MarkedRunner(job: Option<Job>) { job.Some? && job.value.markedRunner }

  /** Durably stopped with no runner claim left to clean up, or settled by the bounded duty. */
  predicate LateDischarged(a: LateAnswers) {
    && a.delegated.Some?
    && (|| (EndedObligationSettled(Outcome(Unstated, a.delegated.value)) && !MarkedRunner(a.delegated.value))
        || (a.settled.Some? && EndedObligationSettled(a.settled.value)))
  }

  /** When a late obligation needs no settlement of its own, and when an ending leaves an owner releasable. */
  lemma LateEvidence(job: Option<Job>, settled: Option<Outcome>)
    ensures var stopped := job.Some? && (job.value.status == Terminal
                                         || (job.value.status == Cancelling && job.value.stopIntent));
            LateDischarged(LateAnswers(Some(job), settled)) <==>
              || job.None? || (stopped && !job.value.markedRunner)
              || (settled.Some? && EndedObligationSettled(settled.value))
    ensures !LateDischarged(LateAnswers(None, settled))
  {}

  lemma EndingEvidence(outcome: Outcome, answer: Reread)
    ensures LeavesReleasable(ByOutcome(outcome)) <==>
            EndedObligationSettled(outcome) && outcome.kind != RetainedWritableGuard
    ensures Discharges(ByOutcome(outcome)) <==> EndedObligationSettled(outcome)
    ensures Discharges(VerdictOf(answer)) <==>
            match answer
            case NotFound => true
            case Failed => false
            case Read(None) => true
            case Read(Some(job)) =>
              if job.status == Terminal then !job.markedRunner else job.status == Cancelling && job.stopIntent
    ensures !LeavesReleasable(VerdictOf(answer))
  {
    if answer.Read? && answer.job.Some? {
      match answer.job.value.status
      case Active =>
      case Cancelling =>
      case Terminal =>
    }
  }

  /** `late` is what the rescan found, if it did not fail. */
  datatype Fence = Fence(clean: bool, deferred: set<Workspace>, late: Option<seq<Obligation>>,
                         answers: seq<LateAnswers>)

  /** Clean if every late obligation was discharged; it defers exactly the workspaces of the others, or all of them. */
  ghost predicate FenceSound(f: Fence, known: seq<Workspace>) {
    if f.late.None? then !f.clean && forall w :: w in f.deferred <==> w in known
    else
      && |f.answers| == |f.late.value|
      && (f.clean <==> forall i :: 0 <= i < |f.answers| ==> LateDischarged(f.answers[i]))
      && forall w :: w in f.deferred <==>
           exists i :: 0 <= i < |f.answers| && !LateDischarged(f.answers[i]) && f.late.value[i].workspace == w
  }

  lemma FenceGrows(f: Fence, known: seq<Workspace>, late: Obligation, answer: LateAnswers)
    requires f.late.Some? && FenceSound(f, known)
    ensures var ok := LateDischarged(answer);
            FenceSound(Fence(f.clean && ok, if ok then f.deferred else f.deferred + {late.workspace},
                             Some(f.late.value + [late]), f.answers + [answer]), known)
  {
    var ok := LateDischarged(answer);
    var deferred := if ok then f.deferred else f.deferred + {late.workspace};
    var g := Fence(f.clean && ok, deferred, Some(f.late.value + [late]), f.answers + [answer]);
    forall w ensures w in g.deferred <==>
        exists i :: 0 <= i < |g.answers| && !LateDischarged(g.answers[i]) && g.late.value[i].workspace == w {
      if w in f.deferred {
        var i :| 0 <= i < |f.answers| && !LateDischarged(f.answers[i]) && f.late.value[i].workspace == w;
        assert !LateDischarged(g.answers[i]) && g.late.value[i].workspace == w;
      } else if w in g.deferred {
        assert g.late.value[|f.answers|].workspace == w && !LateDischarged(g.answers[|f.answers|]);
      }
      if exists i :: 0 <= i < |g.answers| && !LateDischarged(g.answers[i]) && g.late.value[i].workspace == w {
        var i :| 0 <= i < |g.answers| && !LateDischarged(g.answers[i]) && g.late.value[i].workspace == w;
        if i < |f.answers| { assert !LateDischarged(f.answers[i]) && f.late.value[i].workspace == w; }
      }
    }
    if g.clean {
      forall i | 0 <= i < |g.answers| ensures LateDischarged(g.answers[i]) { if i < |f.answers| { assert g.answers[i]
          == f.answers[i]; } }
    } else if !f.clean {
      var i :| 0 <= i < |f.answers| && !LateDischarged(f.answers[i]);
      assert !LateDischarged(g.answers[i]);
    } else {
      assert !LateDischarged(g.answers[|f.answers|]);
    }
  }

  /** What reading the session's recorded start answers: it failed, there is none, or here it is. */
  datatype Start = StartFailed | NotRecorded | Recorded

  /** A call of the fence for a late obligation, with its answer; nothing when it threw. */
  datatype LateCall = Delegation(delegated: Option<Option<Job>>) | Settlement(settled: Option<Outcome>)

  /** A job of the ending session: whether it has ended, and whether it belongs to the receipt's own epoch. */
  datatype Listed = Listed(ended: bool, ownEpoch: bool)
  /** What a foreign-epoch check finds at a workspace: none there, no readable job state, or these jobs. */
  datatype Look = Absent | Unreadable | Jobs(jobs: seq<Listed>)

  /** An active job of another epoch is there, or its absence cannot be shown. */
  predicate Foreign(look: Look) {
    look.Jobs? ==> exists job | job in look.jobs :: !job.ended && !job.ownEpoch
  }

  /** The check made under the workspace's lock; a session without a receipt has no epoch to check for. */
  datatype Check = NotMade | NoEpoch | Thrown | Looked(look: Look)

  predicate Clear(check: Check) { check.NoEpoch? || (check.Looked? && !Foreign(check.look)) }

  /** An owner release that was attempted, with the check before it. */
  datatype Release = Release(workspace: Workspace, check: Check)

  const SETTLING := 2
  const DELEGATING := 1
  const REREADING := 0

  const LOCKING := 2
  const RECHECKING := 1

  const CONCURRENCY := 2

  predicate Settles(answer: Option<Outcome>) { answer.Some? && EndedObligationSettled(answer.value) }

  /** A failed obligation is marked at once, before anything else is awaited. */
  ghost predicate MarkedIn(p: Pool, marked: set<nat>) {
    && (forall i <- marked :: i < p.next)
    && (forall w | 0 <= w < |p.workers| && p.workers[w].Busy? ::
        p.workers[w].left < SETTLING <==> p.workers[w].index in marked)
  }

  /** An obligation past its settlement call was not settled by it. */
  ghost predicate AnsweredIn(p: Pool, settlements: map<nat, Option<Outcome>>) {
    forall w | 0 <= w < |p.workers| && p.workers[w].Busy? && p.workers[w].left < SETTLING ::
      p.workers[w].index in settlements && !Settles(settlements[p.workers[w].index])
  }

  /** A step within an operation leaves every other worker's obligation as it was. */
  lemma OperationStep(p: Pool, step: Step, marked: set<nat>, marked': set<nat>,
                      settlements: map<nat, Option<Outcome>>, settlements': map<nat, Option<Outcome>>)
    requires Sound(p) && MarkedIn(p, marked) && AnsweredIn(p, settlements)
    requires step.worker < |p.workers| && p.workers[step.worker].Busy?
    requires step.Finish? || (step.Advance? && step.left < p.workers[step.worker].left && step.left < SETTLING)
    requires var i := p.workers[step.worker].index;
             && (marked' == marked || marked' == marked + {i})
             && (forall j <- settlements | j != i :: j in settlements' && settlements'[j] == settlements[j])
             && (step.Advance? ==> i in marked' && i in settlements' && !Settles(settlements'[i]))
    ensures var q := Apply(p, step); MarkedIn(q, marked') && AnsweredIn(q, settlements')
    ensures Apply(p, step).finished == p.finished + if step.Finish? then {p.workers[step.worker].index} else {}
    ensures StoppedEarly(Apply(p, step)) ==> StoppedEarly(p)
  {
    var q := Apply(p, step);
    assert forall v | 0 <= v < |p.workers| && v != step.worker
           && p.workers[v].Busy? :: p.workers[v].index != p.workers[step.worker].index;
    assert forall v | 0 <= v < |p.workers| && v != step.worker :: q.workers[v] == p.workers[v];
    if StoppedEarly(q) {
      var v :| 0 <= v < |q.workers| && q.workers[v].Stopped?;
      assert p.workers[v].Stopped?;
    }
  }

  class SessionEnd {
    var knownWorkspaces: seq<Workspace>
    var identityScopeComplete: bool
    var receipt: Option<Receipt>
    var hintsPersisted: bool
    var allDelegated: bool
    var scheduledObligations: nat
    var releaseUnsafe: set<Workspace>
    /** The remote stage's timer and the hook deadline. Both stay set once set. */
    var remoteFired: bool
    var exhausted: bool
    /**
     Whether the remote timer, due well before the hook deadline, is known to fire before anyone sees the deadline
     pass.
     */
    const prompt: bool

    // What happened, for the specification.
    ghost var found: Option<seq<Obligation>>
    ghost var starts: seq<nat>
    ghost var settlements: map<nat, Option<Outcome>>
    ghost var rereads: map<nat, Reread>
    ghost var endings: map<nat, Ending>
    ghost var fenceTooLate: bool
    ghost var fence: Option<Fence>
    ghost var foreign: Option<set<Workspace>>
    /** What the first foreign check and the checks under the locks saw, and where a lock or a check failed. */
    ghost var firstLooks: seq<(Workspace, Look)>
    ghost var relooks: set<(Workspace, Look)>
    ghost var unlocked: set<Workspace>
    ghost var thrown: set<Workspace>
    ghost var released: seq<Release>
    /** Obligations that failed or kept their guard. */
    ghost var marked: set<nat>
    ghost var settleAttempt: Option<Receipt>
    /** What the hook's own calls answered, where they were made: nothing within when they threw. */
    ghost var start: Option<Start>
    ghost var publication: Option<Option<Receipt>>
    ghost var scope: Option<Option<seq<Workspace>>>
    ghost var merge: Option<Option<Option<Receipt>>>
    ghost var rescan: Option<Option<seq<Obligation>>>
    ghost var lateCalls: seq<LateCall>
    ghost var identityAnswer: Option<bool>
    ghost var identityCleaned: bool
    ghost var genericCleaned: bool

    constructor (prompt: bool)
      ensures Fresh() && this.prompt == prompt
    {
      this.prompt := prompt;
      knownWorkspaces, identityScopeComplete, receipt, hintsPersisted := [], false, None, true;
      allDelegated, scheduledObligations, releaseUnsafe, remoteFired, exhausted := true, 0, {}, false, false;
      found, starts, endings, fence, foreign, released, settleAttempt := None, [], map[], None, None, [], None;
      identityCleaned, genericCleaned, marked := false, false, {};
      settlements, rereads, fenceTooLate := map[], map[], false;
      firstLooks, relooks, unlocked, thrown := [], {}, {}, {};
      start, publication, scope, merge, rescan, lateCalls, identityAnswer := None, None, None, None, None, [], None;
    }

    ghost predicate Fresh()
      reads this
    {
      && allDelegated && scheduledObligations == 0 && releaseUnsafe == {} && hintsPersisted && receipt.None?
      && found.None? && starts == [] && endings == map[] && fence.None? && foreign.None? && released == []
         && settleAttempt.None? && marked == {} && firstLooks == [] && relooks == {} && unlocked == {} && thrown == {}
      && !identityCleaned && !genericCleaned
      && start.None? && publication.None? && scope.None? && merge.None? && rescan.None? && lateCalls == []
      && identityAnswer.None?
    }

    predicate Aborted()
      reads this`remoteFired, this`exhausted
    {
      RemoteAborted() || exhausted
    }

    predicate RemoteAborted()
      reads this`remoteFired, this`exhausted
    {
      remoteFired || (prompt && exhausted)
    }

    /** Time passes: the shared abort is monotone. */
    method Await()
      modifies this`remoteFired, this`exhausted
      ensures (old(RemoteAborted()) ==> RemoteAborted()) && (old(exhausted) ==> exhausted)
    {
      var a: bool, b: bool := *, *;
      remoteFired, exhausted := remoteFired || a, exhausted || b;
    }

    // ------------------------------------------------- stage 5: reconciling

    static ghost function Workspaces(obligations: seq<Obligation>, ids: set<nat>): set<Workspace> {
      set i | i in ids && i < |obligations| :: obligations[i].workspace
    }

    ghost predicate SettledAtOnce(i: nat)
      reads this`settlements
    {
      i in settlements && Settles(settlements[i])
    }

    /** An ending is what the settlement call answered if that settles it, and otherwise what the reread showed. */
    ghost predicate Evidenced(i: nat)
      reads this`endings, this`settlements, this`rereads
    {
      && i in endings && i in settlements
      && if SettledAtOnce(i) then endings[i].verdict == ByOutcome(settlements[i].value)
         else i in rereads && endings[i].verdict == VerdictOf(rereads[i])
    }

    ghost predicate AllEvidenced()
      reads this`endings, this`settlements, this`rereads
    {
      forall i <- endings :: Evidenced(i)
    }

    /** What the endings so far have done to the two decisions, and nothing else has. */
    ghost predicate Accounted(obligations: seq<Obligation>, delegatedBefore: bool, unsafeBefore: set<Workspace>)
      reads this`allDelegated, this`releaseUnsafe, this`endings, this`marked
    {
      && releaseUnsafe == unsafeBefore + Workspaces(obligations, marked)
      && (forall i <- endings :: i < |obligations| && (LeavesReleasable(endings[i].verdict) <==> i !in marked))
      && (allDelegated <==>
            && delegatedBefore
            && forall i <- endings :: Discharges(endings[i].verdict) && !endings[i].aborted)
    }

    /** The pool and the hook's own counts agree, and only the abort stops a worker short. */
    ghost predicate Counted(p: Pool, obligations: seq<Obligation>)
      reads this`scheduledObligations, this`starts, this`endings, this`remoteFired, this`exhausted
    {
      && Sound(p) && p.size == |obligations| && scheduledObligations == p.next && starts == UpTo(0, p.next)
      && (forall i :: i in endings <==> i in p.finished)
      && (StoppedEarly(p) ==> Aborted())
    }

    ghost predicate MarkedAtOnce(p: Pool)
      reads this`marked
    {
      MarkedIn(p, marked)
    }

    ghost predicate Answered(p: Pool)
      reads this`settlements
    {
      AnsweredIn(p, settlements)
    }

    /** The end of one obligation's operation, after its last await. */
    method End(obligations: seq<Obligation>, i: nat, verdict: Verdict, ghost delegatedBefore: bool,
               ghost unsafeBefore: set<Workspace>)
      requires AllEvidenced() && Accounted(obligations, delegatedBefore, unsafeBefore)
      requires i < |obligations| && i !in endings && i in settlements
      requires if SettledAtOnce(i) then verdict == ByOutcome(settlements[i].value)
               else i in rereads && verdict == VerdictOf(rereads[i])
      requires LeavesReleasable(verdict) <==> i !in marked
      modifies this`allDelegated, this`endings
      ensures AllEvidenced() && Accounted(obligations, delegatedBefore, unsafeBefore)
      ensures endings == old(endings)[i := Ending(verdict, RemoteAborted())]
    {
      assert forall j <- endings :: Evidenced(j);
      RecordEnding(obligations, i, verdict, delegatedBefore, unsafeBefore);
      assert forall j <- endings :: Evidenced(j) by {
        assert forall j <- old(endings) :: j in endings && endings[j] == old(endings)[j];
      }
    }

    method RecordEnding(obligations: seq<Obligation>, i: nat, verdict: Verdict, ghost delegatedBefore: bool,
                        ghost unsafeBefore: set<Workspace>)
      requires Accounted(obligations, delegatedBefore, unsafeBefore) && i < |obligations| && i !in endings
      requires LeavesReleasable(verdict) <==> i !in marked
      modifies this`allDelegated, this`endings
      ensures Accounted(obligations, delegatedBefore, unsafeBefore)
      ensures endings == old(endings)[i := Ending(verdict, RemoteAborted())]
    {
      if !Discharges(verdict) { allDelegated := false; }
      if RemoteAborted() { allDelegated := false; }
      endings := endings[i := Ending(verdict, RemoteAborted())];
      assert forall j <- old(endings) :: j in endings && endings[j] == old(endings)[j];
      assert endings[i] == Ending(verdict, RemoteAborted());
    }

    /** Makes an obligation's workspace unsafe to release. */
    method Mark(obligations: seq<Obligation>, i: nat, ghost delegatedBefore: bool, ghost unsafeBefore: set<Workspace>)
      requires Accounted(obligations, delegatedBefore, unsafeBefore) && i < |obligations| && i !in endings
      modifies this`releaseUnsafe, this`marked
      ensures Accounted(obligations, delegatedBefore, unsafeBefore) && marked == old(marked) + {i}
    {
      releaseUnsafe := releaseUnsafe + {obligations[i].workspace};
      marked := marked + {i};
    }

    /** The settlement of one obligation: what it answers, or that it threw. */
    method Settle(i: nat) returns (outcome: Option<Outcome>)
      requires AllEvidenced() && i !in endings
      modifies this`settlements
      ensures AllEvidenced() && settlements == old(settlements)[i := outcome]
    {
      outcome := *;
      settlements := settlements[i := outcome];
      assert forall j <- endings :: old(Evidenced(j)) && Evidenced(j);
    }

    method ReadJob(i: nat) returns (answer: Reread)
      requires AllEvidenced() && i !in endings
      modifies this`rereads
      ensures AllEvidenced() && rereads == old(rereads)[i := answer]
    {
      answer := *;
      rereads := rereads[i := answer];
      assert forall j <- endings :: old(Evidenced(j)) && Evidenced(j);
    }

    /**
     After the settlement call: its answer ends the obligation if it settles it; all but a clean settlement mark it.
     */
    method AfterSettling(obligations: seq<Obligation>, i: nat, ghost delegatedBefore: bool,
                         ghost unsafeBefore: set<Workspace>)
      returns (finished: bool, left: nat)
      requires AllEvidenced() && Accounted(obligations, delegatedBefore, unsafeBefore) && i < |obligations|
               && i !in endings && i !in marked
      modifies this`allDelegated, this`endings, this`releaseUnsafe, this`marked, this`settlements
      ensures AllEvidenced() && Accounted(obligations, delegatedBefore, unsafeBefore)
      ensures settlements.Keys == old(settlements).Keys + {i}
              && forall j <- old(settlements) :: j == i || settlements[j] == old(settlements)[j]
      ensures finished <==> SettledAtOnce(i)
      ensures marked == if finished
              && !settlements[i].value.kind.RetainedWritableGuard? then old(marked) else old(marked) + {i}
      ensures endings.Keys == if finished then old(endings).Keys + {i} else old(endings).Keys
      ensures !finished ==> left == if obligations[i].readOnly || RemoteAborted() || exhausted then REREADING
                                    else DELEGATING
      ensures left < SETTLING
    {
      var outcome := Settle(i);
      if outcome.Some? && outcome.value.kind.RetainedWritableGuard? {
        Mark(obligations, i, delegatedBefore, unsafeBefore);
      }
      finished := outcome.Some? && EndedObligationSettled(outcome.value);
      if finished {
        End(obligations, i, ByOutcome(outcome.value), delegatedBefore, unsafeBefore);
        return true, REREADING;
      }
      Mark(obligations, i, delegatedBefore, unsafeBefore);
      left := if !obligations[i].readOnly && !RemoteAborted() && !exhausted then DELEGATING else REREADING;
    }

    /**
     After the reread of a failed obligation's job: only a discharged record or a proven missing job discharges it.
     */
    method AfterReread(obligations: seq<Obligation>, i: nat, ghost delegatedBefore: bool,
                       ghost unsafeBefore: set<Workspace>)
      requires AllEvidenced() && Accounted(obligations, delegatedBefore, unsafeBefore) && i < |obligations|
               && i !in endings
      requires i in marked && i in settlements && !SettledAtOnce(i)
      modifies this`allDelegated, this`endings, this`rereads
      ensures AllEvidenced() && Accounted(obligations, delegatedBefore, unsafeBefore)
      ensures i in rereads && endings == old(endings)[i := Ending(VerdictOf(rereads[i]), RemoteAborted())]
    {
      var answer := ReadJob(i);
      End(obligations, i, VerdictOf(answer), delegatedBefore, unsafeBefore);
    }

    /** A busy worker from an await to its next. */
    method ContinueOperation(obligations: seq<Obligation>, p: Pool, w: nat, ghost delegatedBefore: bool,
                             ghost unsafeBefore: set<Workspace>)
      returns (step: Step)
      requires w < |p.workers| && p.workers[w].Busy?
      requires AllEvidenced() && Answered(p) && MarkedAtOnce(p) && Counted(p, obligations)
               && Accounted(obligations, delegatedBefore, unsafeBefore)
      modifies this`allDelegated, this`releaseUnsafe, this`endings, this`marked, this`settlements, this`rereads
      ensures AllEvidenced() && Accounted(obligations, delegatedBefore, unsafeBefore)
      ensures marked == old(marked) || marked == old(marked) + {p.workers[w].index}
      ensures step == Finish(w)
              || (step.Advance? && step.worker == w && step.left < p.workers[w].left && step.left < SETTLING)
      ensures endings.Keys == old(endings).Keys + if step.Finish? then {p.workers[w].index} else {}
      ensures step.Advance? ==>
                && p.workers[w].index in marked && p.workers[w].index in settlements
                && !SettledAtOnce(p.workers[w].index)
      ensures forall j <- old(settlements) | j != p.workers[w].index ::
                j in settlements && settlements[j] == old(settlements)[j]
    {
      var i, left := p.workers[w].index, p.workers[w].left;
      if left >= SETTLING {
        var finished, next := AfterSettling(obligations, i, delegatedBefore, unsafeBefore);
        step := if finished then Finish(w) else Advance(w, next);
      } else if left == DELEGATING {
        step := Advance(w, REREADING);
      } else {
        AfterReread(obligations, i, delegatedBefore, unsafeBefore);
        step := Finish(w);
      }
    }

    /** A waiting worker starts the next obligation, or stops. */
    method StartNext(obligations: seq<Obligation>, p: Pool, w: nat) returns (q: Pool)
      requires w < |p.workers| && p.workers[w].Waiting? && Counted(p, obligations) && Answered(p) && MarkedAtOnce(p)
      modifies this`scheduledObligations, this`starts
      ensures |q.workers| == |p.workers| && Nearer(q, p) && Counted(q, obligations) && Answered(q) && MarkedAtOnce(q)
    {
      var step := Take(w, Aborted(), SETTLING);
      StepWorks(p, step);
      ApplySound(p, step);
      q := Apply(p, step);
      if p.next < p.size && !Aborted() {
        scheduledObligations := scheduledObligations + 1;
        starts := starts + [p.next];
        assert starts == UpTo(0, q.next);
      }
    }

    method Continue(obligations: seq<Obligation>, p: Pool, w: nat, ghost delegatedBefore: bool,
                    ghost unsafeBefore: set<Workspace>)
      returns (q: Pool)
      requires w < |p.workers| && p.workers[w].Busy?
      requires AllEvidenced() && Answered(p) && MarkedAtOnce(p) && Counted(p, obligations)
               && Accounted(obligations, delegatedBefore, unsafeBefore)
      modifies this`allDelegated, this`releaseUnsafe, this`endings, this`marked, this`settlements, this`rereads
      ensures |q.workers| == |p.workers| && Nearer(q, p)
      ensures AllEvidenced() && Answered(q) && MarkedAtOnce(q) && Counted(q, obligations)
              && Accounted(obligations, delegatedBefore, unsafeBefore)
    {
      var step := ContinueOperation(obligations, p, w, delegatedBefore, unsafeBefore);
      StepWorks(p, step);
      ApplySound(p, step);
      q := Apply(p, step);
      OperationStep(p, step, old(marked), marked, old(settlements), settlements);
      assert forall i :: i in endings <==> i in q.finished;
    }

    method ReconcileStep(obligations: seq<Obligation>, p: Pool, w: nat, ghost delegatedBefore: bool,
                         ghost unsafeBefore: set<Workspace>)
      returns (q: Pool)
      requires w < |p.workers| && !p.workers[w].Stopped?
      requires AllEvidenced() && Answered(p) && MarkedAtOnce(p) && Counted(p, obligations)
               && Accounted(obligations, delegatedBefore, unsafeBefore)
      modifies this`scheduledObligations, this`starts, this`allDelegated, this`releaseUnsafe, this`endings, this`marked,
               this`settlements, this`rereads, this`remoteFired, this`exhausted
      ensures |q.workers| == |p.workers| && Nearer(q, p)
      ensures AllEvidenced() && Answered(q) && MarkedAtOnce(q) && Counted(q, obligations)
              && Accounted(obligations, delegatedBefore, unsafeBefore)
    {
      Await();
      if p.workers[w].Waiting? { q := StartNext(obligations, p, w); }
      else { q := Continue(obligations, p, w, delegatedBefore, unsafeBefore); }
    }

    /** Stage 5: two workers reconcile the obligations in order until none is left or the shared deadline passes. */
    method ReconcileObligations(obligations: seq<Obligation>)
      requires scheduledObligations == 0 && starts == [] && endings == map[] && marked == {}
      modifies this`scheduledObligations, this`starts, this`allDelegated, this`releaseUnsafe, this`endings, this`marked,
               this`settlements, this`rereads, this`remoteFired, this`exhausted
      ensures AllEvidenced() && Accounted(obligations, old(allDelegated), old(releaseUnsafe))
      ensures starts == UpTo(0, scheduledObligations) && forall i: nat :: i in endings <==> i < scheduledObligations
      ensures forall i <- marked :: i in endings
      ensures scheduledObligations <= |obligations| && (scheduledObligations < |obligations| ==> Aborted())
    {
      ghost var delegatedBefore, unsafeBefore := allDelegated, releaseUnsafe;
      var p := Open(|obligations|, CONCURRENCY);
      OpenSound(|obligations|, CONCURRENCY);
      while !Done(p)
        invariant AllEvidenced() && Answered(p) && MarkedAtOnce(p) && Counted(p, obligations)
                  && Accounted(obligations, delegatedBefore, unsafeBefore)
        invariant |p.workers| == if CONCURRENCY <= |obligations| then CONCURRENCY else |obligations|
        decreases Left(p), Ranks(p.workers)
      {
        var w: nat :| w < |p.workers| && !p.workers[w].Stopped?;
        p := ReconcileStep(obligations, p, w, delegatedBefore, unsafeBefore);
      }
      DoneFinishesAll(p);
      if |p.workers| > 0 { assert p.workers[0].Stopped?; }
    }

    // ------------------------------------------------------ stage 5b: fence

    method Delegate(late: Obligation) returns (delegated: Option<Option<Job>>)
      modifies this`lateCalls
      ensures lateCalls == old(lateCalls) + [Delegation(delegated)]
    {
      delegated := *;
      lateCalls := lateCalls + [Delegation(delegated)];
    }

    method SettleLate(late: Obligation) returns (settled: Option<Outcome>)
      modifies this`lateCalls
      ensures lateCalls == old(lateCalls) + [Settlement(settled)]
    {
      settled := *;
      lateCalls := lateCalls + [Settlement(settled)];
    }

    /** A delegation that leaves nothing to settle: durably stopped, with no runner claim to clean up. */
    static predicate StoppedUnmarked(delegated: Option<Option<Job>>) {
      delegated.Some? && EndedObligationSettled(Outcome(Unstated, delegated.value)) && !MarkedRunner(delegated.value)
    }

    /** A late obligation: delegation first, while there is time, then at most one bounded settlement of it. */
    method FenceOne(late: Obligation) returns (discharged: bool, ghost answers: LateAnswers)
      modifies this`remoteFired, this`exhausted, this`lateCalls
      ensures (old(exhausted) ==> exhausted) && (old(RemoteAborted()) ==> RemoteAborted())
      ensures discharged <==> LateDischarged(answers)
      ensures old(exhausted) ==> answers == LateAnswers(None, None) && lateCalls == old(lateCalls)
      ensures !old(exhausted) ==>
                || lateCalls == old(lateCalls) + [Delegation(answers.delegated), Settlement(answers.settled)]
                || (lateCalls == old(lateCalls) + [Delegation(answers.delegated)] && answers.settled.None?)
      ensures !old(exhausted) && lateCalls == old(lateCalls) + [Delegation(answers.delegated)] ==>
                answers.delegated.None? || StoppedUnmarked(answers.delegated) || late.readOnly || exhausted
      ensures late.readOnly ==> answers.settled.None?
    {
      answers := LateAnswers(None, None);
      if exhausted { return false, answers; }
      Await();
      var delegated := Delegate(late);
      answers := LateAnswers(delegated, None);
      if !delegated.Some? { return false, answers; }
      if EndedObligationSettled(Outcome(Unstated, delegated.value)) && !MarkedRunner(delegated.value) {
        return true, answers;
      }
      if exhausted || late.readOnly { return false, answers; }
      Await();
      var settled := SettleLate(late);
      answers := LateAnswers(delegated, settled);
      discharged := settled.Some? && EndedObligationSettled(settled.value);
    }

    method Rescan() returns (scanned: Option<seq<Obligation>>)
      modifies this`rescan
      ensures rescan == Some(scanned)
    {
      scanned := *;
      rescan := Some(scanned);
    }

    /** Rescans for obligations that raced stage 5. A scan that failed names no workspace, so it defers them all. */
    method RunDischargeFence()
        returns (clean: bool, deferred: set<Workspace>, ghost late: Option<seq<Obligation>>,
                 ghost answers: seq<LateAnswers>)
      modifies this`remoteFired, this`exhausted, this`lateCalls, this`rescan
      ensures (old(exhausted) ==> exhausted) && (old(RemoteAborted()) ==> RemoteAborted())
      ensures rescan == Some(late)
      ensures FenceSound(Fence(clean, deferred, late, answers), knownWorkspaces)
    {
      Await();
      var scanned := Rescan();
      late, answers := scanned, [];
      if !scanned.Some? { return false, (set w | w in knownWorkspaces), None, answers; }
      var obligations := scanned.value;
      clean, deferred := true, {};
      for i := 0 to |obligations|
        invariant (old(exhausted) ==> exhausted) && (old(RemoteAborted()) ==> RemoteAborted())
        invariant |answers| == i && rescan == Some(Some(obligations))
        invariant FenceSound(Fence(clean, deferred, Some(obligations[..i]), answers), knownWorkspaces)
      {
        var ok;
        ghost var answer;
        ok, answer := FenceOne(obligations[i]);
        FenceGrows(Fence(clean, deferred, Some(obligations[..i]), answers), knownWorkspaces, obligations[i], answer);
        assert obligations[..i + 1] == obligations[..i] + [obligations[i]];
        answers := answers + [answer];
        if !ok { clean, deferred := false, deferred + {obligations[i].workspace}; }
      }
      assert obligations[..|obligations|] == obligations;
    }

    // ------------------------------------------- stage 6: releasing owners

    /** What the check before a release has to show: no epoch to check for, or no active job of another one. */
    ghost predicate ClearedBy(w: Workspace, check: Check)
      reads this`relooks, this`receipt
    {
      && Clear(check)
      && (if check.NoEpoch? then receipt.None? else check.Looked? && (w, check.look) in relooks)
    }

    /** A release is justified by the check made under its lock, for a workspace no evidence held back. */
    ghost predicate Justified(was: seq<Release>, candidates: seq<Workspace>)
      reads this`released, this`relooks, this`receipt, this`identityScopeComplete
    {
      && was <= released
      && forall k :: |was| <= k < |released| ==>
           && released[k].workspace in candidates
           && (identityScopeComplete ==> ClearedBy(released[k].workspace, released[k].check))
    }

    /** The workspace's lock could not be taken, or the check under it threw or found an active job of another epoch. */
    static ghost predicate GivenUp(w: Workspace, unlocked: set<Workspace>, thrown: set<Workspace>,
                                   relooks: set<(Workspace, Look)>) {
      w in unlocked || w in thrown || exists look :: (w, look) in relooks && Foreign(look)
    }

    static ghost predicate Tried(w: Workspace, released: seq<Release>) {
      exists k :: 0 <= k < |released| && released[k].workspace == w
    }

    /** The workspace's release was attempted, or given up for a reason of its own. */
    ghost predicate Settled(w: Workspace)
      reads this`released, this`unlocked, this`thrown, this`relooks
    {
      GivenUp(w, unlocked, thrown, relooks) || Tried(w, released)
    }

    lemma SettledStays(w: Workspace, before: seq<Release>, unlockedBefore: set<Workspace>, thrownBefore: set<Workspace>,
                       relooksBefore: set<(Workspace, Look)>)
      requires before <= released && unlockedBefore <= unlocked && thrownBefore <= thrown && relooksBefore <= relooks
      requires GivenUp(w, unlockedBefore, thrownBefore, relooksBefore) || Tried(w, before)
      ensures Settled(w)
    {
      if Tried(w, before) {
        var k :| 0 <= k < |before| && before[k].workspace == w;
        assert released[k].workspace == w;
      }
    }

    /**
     Every candidate whose operation ended is settled, unless the abort was seen; only the abort stops a worker short.
     */
    ghost predicate Attempted(candidates: seq<Workspace>, p: Pool)
      reads this`released, this`unlocked, this`thrown, this`relooks, this`remoteFired, this`exhausted
    {
      && Sound(p) && p.size == |candidates| && (StoppedEarly(p) ==> RemoteAborted() || exhausted)
      && forall i <- p.finished :: i < |candidates| && (RemoteAborted() || exhausted || Settled(candidates[i]))
    }

    /** What a foreign-epoch check finds when it looks at one workspace, in the first pass or under the lock. */
    method LookAt(w: Workspace, ghost first: bool) returns (look: Look)
      modifies this`firstLooks, this`relooks
      ensures firstLooks == old(firstLooks) + if first then [(w, look)] else []
      ensures relooks == old(relooks) + if first then {} else {(w, look)}
    {
      look := *;
      if first { firstLooks := firstLooks + [(w, look)]; } else { relooks := relooks + {(w, look)}; }
    }

    /** One round of `activeForeignEpochWorkspaces`: an absent or unreadable workspace counts as foreign. */
    method ForeignAt(w: Workspace, ghost first: bool) returns (isForeign: bool, ghost look: Look)
      modifies this`firstLooks, this`relooks
      ensures isForeign <==> Foreign(look)
      ensures isForeign <==>
                || look.Absent? || look.Unreadable?
                || exists k :: 0 <= k < |look.jobs| && !look.jobs[k].ended && !look.jobs[k].ownEpoch
      ensures firstLooks == old(firstLooks) + if first then [(w, look)] else []
      ensures relooks == old(relooks) + if first then {} else {(w, look)}
    {
      var seen := LookAt(w, first);
      look := seen;
      if !seen.Jobs? { return true, look; }
      isForeign := false;
      for i := 0 to |seen.jobs|
        invariant !isForeign && forall k :: 0 <= k < i ==> seen.jobs[k].ended || seen.jobs[k].ownEpoch
      {
        if seen.jobs[i].ended { continue; }
        if !seen.jobs[i].ownEpoch {
          isForeign := true;
          break;
        }
      }
    }

    method TakeLock(w: Workspace) returns (locked: bool)
      modifies this`unlocked
      ensures unlocked == old(unlocked) + if locked then {} else {w}
    {
      locked := *;
      if !locked { unlocked := unlocked + {w}; }
    }

    /** The check's own small budget can run out before it looks. */
    method BudgetRunsOut(w: Workspace) returns (out: bool)
      modifies this`thrown
      ensures thrown == old(thrown) + if out then {w} else {}
    {
      out := *;
      if out { thrown := thrown + {w}; }
    }

    /** The check under the workspace's lock: nothing when it threw. Without a receipt there is no foreign epoch. */
    method RecheckForeign(w: Workspace) returns (foreignNow: Option<bool>, ghost check: Check)
      modifies this`thrown, this`firstLooks, this`relooks
      ensures firstLooks == old(firstLooks) && old(relooks) <= relooks && old(thrown) <= thrown
      ensures foreignNow == Some(false) <==> ClearedBy(w, check)
      ensures foreignNow == Some(false) <==>
                || receipt.None?
                || (check.Looked? && check.look.Jobs?
                    && forall k :: 0 <= k < |check.look.jobs| ==>
                         check.look.jobs[k].ended || check.look.jobs[k].ownEpoch)
      ensures foreignNow != Some(false) ==> GivenUp(w, unlocked, thrown, relooks)
    {
      if receipt.None? { return Some(false), NoEpoch; }
      var out := BudgetRunsOut(w);
      if out { return None, Thrown; }
      var isForeign;
      ghost var look;
      isForeign, look := ForeignAt(w, false);
      foreignNow, check := Some(isForeign), Looked(look);
    }

    /** Under the workspace's lock: check again for a foreign epoch's active job, and release only if there is none. */
    method RecheckAndRelease(candidates: seq<Workspace>, i: nat, ghost was: seq<Release>)
      requires i < |candidates| && Justified(was, candidates)
      modifies this`released, this`thrown, this`firstLooks, this`relooks
      ensures Justified(was, candidates) && firstLooks == old(firstLooks)
      ensures old(released) <= released && old(thrown) <= thrown && old(relooks) <= relooks
      ensures Settled(candidates[i])
    {
      ghost var check := NotMade;
      if identityScopeComplete {
        var foreignNow;
        foreignNow, check := RecheckForeign(candidates[i]);
        if foreignNow != Some(false) { return; }
      }
      released := released + [Release(candidates[i], check)];
      assert released[|released| - 1].workspace == candidates[i];
    }

    /**
     A busy worker's operation: the abort is looked at once, then the lock is waited for, then the recheck decides.
     */
    method ContinueRelease(candidates: seq<Workspace>, p: Pool, w: nat, ghost was: seq<Release>) returns (step: Step)
      requires w < |p.workers| && p.workers[w].Busy? && Sound(p) && p.size == |candidates| && Justified(was, candidates)
      modifies this`released, this`unlocked, this`thrown, this`firstLooks, this`relooks
      ensures Justified(was, candidates) && firstLooks == old(firstLooks) && old(released) <= released
      ensures old(unlocked) <= unlocked && old(thrown) <= thrown && old(relooks) <= relooks
      ensures step == Finish(w) || (step == Advance(w, RECHECKING) && p.workers[w].left >= LOCKING)
      ensures step.Finish? ==> Aborted() || Settled(candidates[p.workers[w].index])
    {
      var i := p.workers[w].index;
      step := Finish(w);
      if p.workers[w].left < LOCKING {
        RecheckAndRelease(candidates, i, was);
      } else if !Aborted() {
        var locked := TakeLock(candidates[i]);
        if locked { step := Advance(w, RECHECKING); }
      }
    }

    method ReleaseStep(candidates: seq<Workspace>, p: Pool, w: nat, ghost was: seq<Release>) returns (q: Pool)
      requires w < |p.workers| && !p.workers[w].Stopped? && Attempted(candidates, p) && Justified(was, candidates)
      modifies this`released, this`unlocked, this`thrown, this`firstLooks, this`relooks, this`remoteFired,
               this`exhausted
      ensures Attempted(candidates, q) && |q.workers| == |p.workers| && Nearer(q, p) && Justified(was, candidates)
      ensures firstLooks == old(firstLooks)
      ensures old(Aborted()) ==> Aborted() && q.next == p.next
      ensures old(Aborted()) && p.next == 0 ==> released == old(released)
    {
      Await();
      var step: Step;
      if p.workers[w].Waiting? {
        step := Take(w, Aborted(), LOCKING);
      } else {
        ghost var before, unlockedBefore, thrownBefore, relooksBefore := released, unlocked, thrown, relooks;
        step := ContinueRelease(candidates, p, w, was);
        forall i | i in p.finished && !Aborted() ensures Settled(candidates[i]) {
          SettledStays(candidates[i], before, unlockedBefore, thrownBefore, relooksBefore);
        }
      }
      StepWorks(p, step);
      ApplySound(p, step);
      q := Apply(p, step);
    }

    /** Two workers release the candidates' owners; an abort seen before the first releases none. */
    method ReleaseOwners(candidates: seq<Workspace>)
      modifies this`released, this`unlocked, this`thrown, this`firstLooks, this`relooks, this`remoteFired,
               this`exhausted
      ensures Justified(old(released), candidates) && firstLooks == old(firstLooks)
      ensures old(Aborted()) ==> released == old(released)
      ensures !Aborted() ==> forall i :: 0 <= i < |candidates| ==> Settled(candidates[i])
    {
      var p := Open(|candidates|, CONCURRENCY);
      OpenSound(|candidates|, CONCURRENCY);
      ghost var aborted := Aborted();
      while !Done(p)
        invariant Attempted(candidates, p) && Justified(old(released), candidates) && firstLooks == old(firstLooks)
        invariant |p.workers| == if CONCURRENCY <= |candidates| then CONCURRENCY else |candidates|
        invariant aborted ==> Aborted() && p.next == 0 && released == old(released)
        decreases Left(p), Ranks(p.workers)
      {
        var w: nat :| w < |p.workers| && !p.workers[w].Stopped?;
        p := ReleaseStep(candidates, p, w, old(released));
      }
      DoneFinishesAll(p);
      if |p.workers| > 0 { assert p.workers[0].Stopped?; }
    }

    // ------------------------------------------------------------ the flow

    /** Every discovered obligation was started once, in order, ended discharged, and was not overtaken by the abort. */
    ghost predicate AllDischarged()
      reads this`found, this`scheduledObligations, this`starts, this`endings
    {
      && found.Some? && scheduledObligations == |found.value| && starts == UpTo(0, |found.value|)
      && forall i: nat :: i < |found.value| ==> i in endings && Discharges(endings[i].verdict) && !endings[i].aborted
    }

    ghost predicate FenceClean()
      reads this`fence
    {
      fence.Some? ==> fence.value.clean
    }

    method ReadStart() returns (answer: Start)
      modifies this`start
      ensures start == Some(answer)
    {
      answer := *;
      start := Some(answer);
    }

    method PublishSessionEnd() returns (published: Option<Receipt>)
      modifies this`publication, this`remoteFired, this`exhausted
      ensures publication == Some(published)
    {
      Await();
      published := *;
      publication := Some(published);
    }

    method EnumerateScope() returns (known: Option<seq<Workspace>>)
      modifies this`scope, this`remoteFired, this`exhausted
      ensures scope == Some(known)
    {
      Await();
      known := *;
      scope := Some(known);
    }

    method MergeHints() returns (merged: Option<Option<Receipt>>)
      modifies this`merge, this`remoteFired, this`exhausted
      ensures merge == Some(merged)
    {
      Await();
      merged := *;
      merge := Some(merged);
    }

    /**
     Stages 1 to 3: the receipt first, then the workspace scope, then the scope as hints on the receipt. A failing start
     or publication ends the hook; a failing merge only leaves the hints unpersisted.
     */
    method PublishReceiptAndScope(ambient: Workspace) returns (proceed: bool)
      requires allDelegated && releaseUnsafe == {} && hintsPersisted && receipt.None?
      requires start.None? && publication.None? && scope.None? && merge.None?
      modifies this`receipt, this`knownWorkspaces, this`identityScopeComplete, this`hintsPersisted, this`allDelegated,
               this`releaseUnsafe, this`start, this`publication, this`scope, this`merge,
               this`remoteFired, this`exhausted
      ensures start.Some? && (publication.Some? <==> start == Some(Recorded))
      ensures proceed <==> start != Some(StartFailed) && publication != Some(None)
      ensures proceed ==> scope.Some? && identityScopeComplete == scope.value.Some?
      ensures proceed ==> knownWorkspaces == if scope.value.Some? then scope.value.value else [ambient]
      ensures proceed ==> (merge.Some? <==> publication.Some? && identityScopeComplete)
      ensures proceed ==> (hintsPersisted <==> merge != Some(None))
      ensures proceed ==> receipt == match merge
                                     case Some(Some(Some(merged))) => Some(merged)
                                     case _ => if publication.Some? then publication.value else None
      ensures proceed ==> allDelegated == identityScopeComplete
      ensures proceed ==> releaseUnsafe == if identityScopeComplete then {} else set w | w in knownWorkspaces
    {
      var started := ReadStart();
      if started.StartFailed? { return false; }
      if started.Recorded? {
        var published := PublishSessionEnd();
        if !published.Some? { return false; }
        receipt := published;
      }
      var known := EnumerateScope();
      identityScopeComplete := known.Some?;
      knownWorkspaces := if known.Some? then known.value else [ambient];
      if receipt.Some? && identityScopeComplete {
        var merged := MergeHints();
        if !merged.Some? { hintsPersisted := false; }
        else if merged.value.Some? { receipt := merged.value; }
      }
      if !identityScopeComplete {
        allDelegated := false;
        releaseUnsafe := set w | w in knownWorkspaces;
      }
      proceed := true;
    }

    /** An obligation of this workspace ended without leaving its owner releasable. */
    ghost predicate FailedAt(w: Workspace)
      reads this`found, this`endings
    {
      && found.Some?
      && exists i: nat ::
           i < |found.value| && i in endings && found.value[i].workspace == w && !LeavesReleasable(endings[i].verdict)
    }

    /** What the stages before the release hold against a workspace. */
    ghost predicate HeldBack(w: Workspace)
      reads this`found, this`endings, this`identityScopeComplete, this`knownWorkspaces, this`fence
    {
      (!identityScopeComplete && w in knownWorkspaces) || FailedAt(w) || (fence.Some? && w in fence.value.deferred)
    }

    /** What stages 4 and 5 leave to stage 6. */
    ghost predicate Reconciled()
      reads this`allDelegated, this`identityScopeComplete, this`knownWorkspaces, this`releaseUnsafe,
            this`scheduledObligations, this`starts,
            this`found, this`endings, this`fence, this`remoteFired, this`exhausted
    {
      && (allDelegated ==> identityScopeComplete && AllDischarged() && FenceClean())
      && (found.Some? && identityScopeComplete && AllDischarged() && FenceClean() ==> allDelegated)
      && (found.Some? ==> scheduledObligations <= |found.value| && starts == UpTo(0, scheduledObligations))
      && (found.Some? && scheduledObligations < |found.value| ==> Aborted())
      && (forall i: nat :: i in endings <==> i < scheduledObligations)
      && (forall w :: w in releaseUnsafe <==> HeldBack(w))
    }

    lemma FailedAreMarked(obligations: seq<Obligation>)
      requires found == Some(obligations)
      requires forall i <- endings :: i < |obligations| && (LeavesReleasable(endings[i].verdict) <==> i !in marked)
      requires forall i <- marked :: i in endings
      ensures forall w :: FailedAt(w) <==> w in Workspaces(obligations, marked)
    {}

    method Discover() returns (obligations: Option<seq<Obligation>>)
      modifies this`found, this`remoteFired, this`exhausted
      ensures found == obligations
    {
      Await();
      obligations := *;
      found := obligations;
    }

    /** Stages 4 and 5: discover, reconcile, fence. */
    method DiscoverAndReconcile() returns (discovered: bool)
      requires scheduledObligations == 0 && starts == [] && endings == map[] && marked == {} && found.None?
               && fence.None?
      requires allDelegated == identityScopeComplete
      requires releaseUnsafe == if identityScopeComplete then {} else set w | w in knownWorkspaces
      modifies this`scheduledObligations, this`starts, this`allDelegated, this`releaseUnsafe, this`endings, this`marked,
               this`settlements, this`rereads, this`remoteFired, this`exhausted, this`found, this`fence,
               this`fenceTooLate, this`lateCalls, this`rescan
      ensures AllEvidenced() && Reconciled() && discovered == found.Some?
      ensures fence.Some? ==> rescan == Some(fence.value.late)
      ensures fence.Some? ==> FenceSound(fence.value, knownWorkspaces)
      ensures !discovered ==> !allDelegated
      ensures receipt.Some? && allDelegated ==> (fence.Some? <==> !fenceTooLate)
      ensures discovered && fenceTooLate ==> exhausted
    {
      var obligations := Discover();
      discovered := obligations.Some?;
      if !discovered { allDelegated := false; return; }
      ReconcileFound(obligations.value);
      FenceStage();
    }

    method ReconcileFound(obligations: seq<Obligation>)
      requires found == Some(obligations)
      requires scheduledObligations == 0 && starts == [] && endings == map[] && marked == {} && fence.None?
      requires allDelegated == identityScopeComplete
      requires releaseUnsafe == if identityScopeComplete then {} else set w | w in knownWorkspaces
      modifies this`scheduledObligations, this`starts, this`allDelegated, this`releaseUnsafe, this`endings, this`marked,
               this`settlements, this`rereads, this`remoteFired, this`exhausted
      ensures AllEvidenced() && Reconciled()
    {
      ghost var delegatedBefore, unsafeBefore := allDelegated, releaseUnsafe;
      ReconcileObligations(obligations);
      FailedAreMarked(obligations);
      EndReconciling(obligations, delegatedBefore, unsafeBefore);
    }

    /** Unscheduled obligations keep the receipt pending. */
    method EndReconciling(obligations: seq<Obligation>, ghost delegatedBefore: bool, ghost unsafeBefore: set<Workspace>)
      requires found == Some(obligations) && fence.None? && delegatedBefore == identityScopeComplete
      requires unsafeBefore == if identityScopeComplete then {} else set w | w in knownWorkspaces
      requires Accounted(obligations, delegatedBefore, unsafeBefore)
      requires starts == UpTo(0, scheduledObligations) && forall i: nat :: i in endings <==> i < scheduledObligations
      requires scheduledObligations <= |obligations| && (scheduledObligations < |obligations| ==> Aborted())
      requires forall w :: FailedAt(w) <==> w in Workspaces(obligations, marked)
      modifies this`allDelegated
      ensures Reconciled()
    {
      if scheduledObligations < |obligations| { allDelegated := false; }
    }

    /** The fence runs only for a receipt that could be settled, and while there is time. */
    method FenceStage()
      requires Reconciled() && fence.None?
      modifies this`allDelegated, this`releaseUnsafe, this`remoteFired, this`exhausted, this`fence, this`fenceTooLate,
               this`lateCalls, this`rescan
      ensures Reconciled()
      ensures fenceTooLate == old(exhausted) && (fenceTooLate ==> exhausted)
      ensures fence.Some? <==> receipt.Some? && old(allDelegated) && !old(exhausted)
      ensures allDelegated == (old(allDelegated) && FenceClean())
      ensures fence.Some? ==> FenceSound(fence.value, knownWorkspaces) && rescan == Some(fence.value.late)
    {
      fenceTooLate := exhausted;
      if receipt.Some? && allDelegated && !exhausted { RunFence(); }
    }

    method RunFence()
      requires Reconciled() && fence.None? && allDelegated
      modifies this`allDelegated, this`releaseUnsafe, this`remoteFired, this`exhausted, this`fence, this`lateCalls,
               this`rescan
      ensures Reconciled() && fence.Some? && allDelegated == FenceClean() && rescan == Some(fence.value.late)
      ensures FenceSound(fence.value, knownWorkspaces)
    {
      ghost var unsafeBefore := releaseUnsafe;
      assert forall w :: w in unsafeBefore <==> (!identityScopeComplete && w in knownWorkspaces) || FailedAt(w);
      var clean, deferred, late, answers := RunDischargeFence();
      fence := Some(Fence(clean, deferred, late, answers));
      releaseUnsafe := releaseUnsafe + deferred;
      if !clean { allDelegated := false; }
    }

    /** The first foreign check has looked at the workspace. */
    ghost predicate FirstLooked(w: Workspace)
      reads this`firstLooks
    {
      exists k :: 0 <= k < |firstLooks| && firstLooks[k].0 == w
    }

    /** It saw an active job of another epoch there, or could not tell. */
    ghost predicate FirstForeign(w: Workspace)
      reads this`firstLooks
    {
      exists k :: 0 <= k < |firstLooks| && firstLooks[k].0 == w && Foreign(firstLooks[k].1)
    }

    /** What has to be known of a workspace before its owner's release is attempted. */
    ghost predicate Releasable(r: Release)
      reads this
    {
      && identityScopeComplete && r.workspace in knownWorkspaces && ClearedBy(r.workspace, r.check)
      && foreign.Some? && (receipt.Some? ==> FirstLooked(r.workspace)) && !FirstForeign(r.workspace)
      && (fence.Some? ==> r.workspace !in fence.value.deferred)
      && found.Some? && scheduledObligations == |found.value|
      && forall i: nat ::
           i < |found.value| && found.value[i].workspace == r.workspace ==>
             i in endings && LeavesReleasable(endings[i].verdict)
    }

    static function Candidates(known: seq<Workspace>, unsafe: set<Workspace>): (candidates: seq<Workspace>)
      ensures forall w :: w in candidates <==> w in known && w !in unsafe
    {
      if known == [] then [] else (if known[0] in unsafe then [] else [known[0]]) + Candidates(known[1..], unsafe)
    }

    /**
     The first foreign-epoch check: `aborted` is what it saw of the remote stage at each workspace, and it throws at
     the first abort. Otherwise it finds exactly the workspaces at which one of its looks was foreign.
     */
    method ScanForeign() returns (found: Option<set<Workspace>>, ghost aborted: seq<bool>)
      requires firstLooks == []
      modifies this`remoteFired, this`exhausted, this`firstLooks, this`relooks
      ensures (old(RemoteAborted()) ==> RemoteAborted()) && (old(exhausted) ==> exhausted) && relooks == old(relooks)
      ensures found.None? ==> receipt.Some? && RemoteAborted()
      ensures found.None? <==> exists k :: 0 <= k < |aborted| && aborted[k]
      ensures forall k :: 0 <= k < |aborted| - 1 ==> !aborted[k]
      ensures receipt.Some? && found.Some? ==>
                && |aborted| == |firstLooks| == |knownWorkspaces|
                && forall k :: 0 <= k < |firstLooks| ==> firstLooks[k].0 == knownWorkspaces[k]
      ensures found.Some? ==> forall w :: w in found.value <==> FirstForeign(w)
      ensures receipt.Some? && knownWorkspaces != [] ==> |aborted| > 0 && aborted[0] == old(RemoteAborted())
      ensures receipt.None? ==> found == Some({}) && firstLooks == []
    {
      var foreigners: set<Workspace> := {};
      aborted := [];
      if receipt.None? { return Some(foreigners), aborted; }
      for i := 0 to |knownWorkspaces|
        invariant (old(RemoteAborted()) ==> RemoteAborted()) && (old(exhausted) ==> exhausted)
        invariant |aborted| == |firstLooks| == i && relooks == old(relooks) && (forall k :: 0 <= k < i ==> !aborted[k])
        invariant if i == 0 then RemoteAborted() == old(RemoteAborted()) else aborted[0] == old(RemoteAborted())
        invariant forall k :: 0 <= k < i ==> firstLooks[k].0 == knownWorkspaces[k]
        invariant forall w :: w in foreigners <==> FirstForeign(w)
      {
        aborted := aborted + [RemoteAborted()];
        if RemoteAborted() {
          assert aborted[i];
          return None, aborted;
        }
        Await();
        foreigners := ScanOne(knownWorkspaces[i], foreigners);
      }
      found := Some(foreigners);
    }

    method ScanOne(w: Workspace, foreigners: set<Workspace>) returns (found: set<Workspace>)
      requires forall x :: x in foreigners <==> FirstForeign(x)
      modifies this`firstLooks, this`relooks
      ensures |firstLooks| == |old(firstLooks)| + 1 && old(firstLooks) <= firstLooks && relooks == old(relooks)
      ensures firstLooks[|firstLooks| - 1].0 == w
      ensures forall x :: x in found <==> FirstForeign(x)
    {
      ghost var before := firstLooks;
      var isForeign;
      ghost var look;
      isForeign, look := ForeignAt(w, true);
      found := if isForeign then foreigners + {w} else foreigners;
      forall x ensures x in found <==> FirstForeign(x) {
        if x in foreigners {
          var k :| 0 <= k < |before| && before[k].0 == x && Foreign(before[k].1);
          assert firstLooks[k].0 == x && Foreign(firstLooks[k].1);
        }
        if FirstForeign(x) {
          var k :| 0 <= k < |firstLooks| && firstLooks[k].0 == x && Foreign(firstLooks[k].1);
          assert k < |before| ==> before[k] == firstLooks[k];
        }
        assert firstLooks[|before|] == (w, look);
      }
    }

    /** Stage 6: the first foreign-epoch check, then the releases it and every earlier stage leave possible. */
    method CheckAndRelease()
      requires Reconciled() && found.Some? && foreign.None? && released == [] && firstLooks == []
      modifies this`allDelegated, this`releaseUnsafe, this`released, this`unlocked, this`thrown, this`firstLooks,
               this`relooks, this`foreign,
               this`remoteFired, this`exhausted
      ensures allDelegated == (old(allDelegated) && (identityScopeComplete ==> foreign.Some?))
      ensures foreign.Some? ==> identityScopeComplete
      ensures receipt.Some? && identityScopeComplete && knownWorkspaces != [] && old(RemoteAborted()) ==> foreign.None?
      ensures forall r <- released :: Releasable(r)
      ensures old(Aborted()) ==> released == []
      ensures foreign.Some? && !Aborted() ==>
                  forall w <- knownWorkspaces :: HeldBack(w) || FirstForeign(w) || Settled(w)
    {
      var checked: Option<set<Workspace>> := Some({});
      if identityScopeComplete {
        ghost var aborted;
        checked, aborted := ScanForeign();
        if checked.None? { allDelegated := false; return; }
        foreign := checked;
        releaseUnsafe := releaseUnsafe + checked.value;
      }
      ReleaseSafe(checked.value);
    }

    method ReleaseSafe(ghost foreigners: set<Workspace>)
      requires forall w :: w in releaseUnsafe <==> HeldBack(w) || w in foreigners
      requires identityScopeComplete ==>
                 && (forall w :: w in foreigners <==> FirstForeign(w))
                 && (receipt.Some? ==> forall w <- knownWorkspaces :: FirstLooked(w))
      requires if identityScopeComplete then foreign == Some(foreigners) else foreign.None? && foreigners == {}
      requires found.Some? && released == [] && scheduledObligations <= |found.value|
               && starts == UpTo(0, scheduledObligations)
      requires (scheduledObligations < |found.value| ==> Aborted())
               && forall i: nat :: i in endings <==> i < scheduledObligations
      modifies this`released, this`unlocked, this`thrown, this`firstLooks, this`relooks, this`remoteFired,
               this`exhausted
      ensures forall r <- released :: Releasable(r)
      ensures old(Aborted()) ==> released == []
      ensures foreign.Some? && !Aborted() ==>
                  forall w <- knownWorkspaces :: HeldBack(w) || FirstForeign(w) || Settled(w)
    {
      var candidates := Candidates(knownWorkspaces, releaseUnsafe);
      assert !identityScopeComplete ==>
                 candidates == [] by { if candidates != [] { assert candidates[0] in candidates; } }
      ReleaseOwners(candidates);
      if foreign.Some? && !Aborted() {
        forall w <- knownWorkspaces ensures HeldBack(w) || FirstForeign(w) || Settled(w) {
          if w !in releaseUnsafe {
            assert w in candidates;
            var i :| 0 <= i < |candidates| && candidates[i] == w;
            assert Settled(candidates[i]);
          }
        }
      }
    }

    method CleanIdentity() returns (cleaned: bool)
      modifies this`identityAnswer
      ensures identityAnswer == Some(cleaned)
    {
      cleaned := *;
      identityAnswer := Some(cleaned);
    }

    /** Stage 9, and the receipt's settlement before it. */
    method SettleAndClean()
      requires settleAttempt.None? && !identityCleaned && !genericCleaned && identityAnswer.None?
      modifies this`settleAttempt, this`identityCleaned, this`genericCleaned, this`identityAnswer
      ensures settleAttempt == if allDelegated then receipt else None
      ensures identityAnswer.Some? <==> receipt.None? || (identityScopeComplete && hintsPersisted)
      ensures identityCleaned <==> identityAnswer == Some(true)
      ensures genericCleaned <==> identityCleaned
    {
      if receipt.Some? && allDelegated { settleAttempt := receipt; }
      var deferred := receipt.Some? && (!identityScopeComplete || !hintsPersisted);
      if !deferred {
        var cleaned := CleanIdentity();
        identityCleaned := cleaned;
        deferred := !cleaned;
      }
      if !deferred { genericCleaned := true; }
    }

    ghost predicate Unstarted()
      reads this
    {
      && scheduledObligations == 0 && starts == [] && endings == map[] && marked == {} && found.None? && fence.None?
      && foreign.None? && released == [] && firstLooks == []
      && allDelegated == identityScopeComplete
      && releaseUnsafe == if identityScopeComplete then {} else set w | w in knownWorkspaces
    }

    /** Stages 4 to 6. */
    method ReconcileAndRelease()
      requires Unstarted()
      modifies this`scheduledObligations, this`starts, this`allDelegated, this`releaseUnsafe, this`endings, this`marked,
               this`settlements, this`rereads, this`remoteFired, this`exhausted, this`found, this`fence,
               this`fenceTooLate, this`lateCalls, this`rescan, this`released, this`unlocked, this`thrown,
               this`firstLooks, this`relooks, this`foreign
      ensures receipt.Some? && allDelegated <==>
              receipt.Some? && identityScopeComplete && AllDischarged() && FenceClean() && foreign.Some?
      ensures receipt.Some? && allDelegated ==> (fence.Some? <==> !fenceTooLate)
      ensures receipt.Some? && allDelegated && prompt && knownWorkspaces != [] ==> fence.Some?
      ensures AllEvidenced() && (fence.Some? ==> FenceSound(fence.value, knownWorkspaces))
      ensures fence.Some? ==> rescan == Some(fence.value.late)
      ensures forall r <- released :: Releasable(r)
      ensures found.Some? && scheduledObligations < |found.value| ==> released == []
      ensures foreign.Some? && !Aborted() ==>
                  forall w <- knownWorkspaces :: HeldBack(w) || FirstForeign(w) || Settled(w)
    {
      var discovered := DiscoverAndReconcile();
      if discovered { CheckAndRelease(); }
    }

    /** Everything up to the settlement, unless the hook fails before its scope is known. */
    method RunStages(ambient: Workspace) returns (proceed: bool)
      requires Fresh()
      modifies this
      ensures settleAttempt.None? && !identityCleaned && !genericCleaned && identityAnswer.None?
      ensures proceed <==> start != Some(StartFailed) && publication != Some(None)
      ensures proceed && receipt.Some? && allDelegated <==>
              receipt.Some? && identityScopeComplete && AllDischarged() && FenceClean() && foreign.Some?
      ensures proceed && receipt.Some? && allDelegated ==> (fence.Some? <==> !fenceTooLate)
      ensures proceed && receipt.Some? && allDelegated && prompt && knownWorkspaces != [] ==> fence.Some?
      ensures AllEvidenced() && (fence.Some? ==> FenceSound(fence.value, knownWorkspaces))
      ensures fence.Some? ==> rescan == Some(fence.value.late)
      ensures proceed ==> (hintsPersisted <==> merge != Some(None))
      ensures forall r <- released :: Releasable(r)
      ensures found.Some? && scheduledObligations < |found.value| ==> released == []
      ensures foreign.Some? && !Aborted() ==>
                  forall w <- knownWorkspaces :: HeldBack(w) || FirstForeign(w) || Settled(w)
    {
      proceed := PublishReceiptAndScope(ambient);
      if !proceed { return; }
      ReconcileAndRelease();
    }

    /**
     The whole hook, for every discovery, outcome and abort. The receipt's settlement is attempted exactly when the
     evidence is complete, and no owner is released without the evidence for its workspace.
     */
    method Run(ambient: Workspace)
      requires Fresh()
      modifies this
      ensures settleAttempt.Some? <==>
              receipt.Some? && identityScopeComplete && AllDischarged() && FenceClean() && foreign.Some?
      ensures settleAttempt.Some? ==> settleAttempt == receipt
      ensures settleAttempt.Some? ==> (fence.Some? <==> !fenceTooLate)
      ensures settleAttempt.Some? && prompt && knownWorkspaces != [] ==> fence.Some?
      ensures fence.Some? ==> FenceSound(fence.value, knownWorkspaces)
      ensures AllEvidenced()
      ensures forall r <- released :: Releasable(r)
      ensures found.Some? && scheduledObligations < |found.value| ==> released == []
      ensures foreign.Some? && !Aborted() ==>
                  forall w <- knownWorkspaces :: HeldBack(w) || FirstForeign(w) || Settled(w)
      ensures fence.Some? ==> rescan == Some(fence.value.late)
      ensures identityAnswer.Some? <==>
                && start != Some(StartFailed) && publication != Some(None)
                && (receipt.None? || (identityScopeComplete && merge != Some(None)))
      ensures (identityCleaned <==> identityAnswer == Some(true)) && (genericCleaned <==> identityCleaned)
    {
      var proceed := RunStages(ambient);
      if proceed { SettleAndClean(); }
    }
  }
}
