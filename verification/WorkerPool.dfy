/** The bounded worker pool: workers that interleave at every await and advance one shared index. */
module WorkerPools {
  /** How many more awaits the operation a worker runs can still have. */
  datatype Worker = Waiting | Busy(index: nat, left: nat) | Stopped

  /** `finished` is the set of values whose operation returned. */
  datatype Pool = Pool(size: nat, next: nat, workers: seq<Worker>, finished: set<nat>)

  datatype Step = Take(worker: nat, aborted: bool, awaits: nat) | Advance(worker: nat, left: nat) | Finish(worker: nat)

  function Open(size: nat, concurrency: nat): Pool {
    Pool(size, 0, seq(if concurrency <= size then concurrency else size, i => Waiting), {})
  }

  /**
   One worker's run up to its next await. A waiting worker stops for good when nothing is left or the pool is aborted.
   */
  function Apply(p: Pool, step: Step): Pool {
    if step.worker >= |p.workers| then p
    else
      match (step, p.workers[step.worker])
      case (Take(w, aborted, awaits), Waiting) =>
        if p.next >= p.size || aborted then p.(workers := p.workers[w := Stopped])
        else p.(workers := p.workers[w := Busy(p.next, awaits)], next := p.next + 1)
      case (Advance(w, left), Busy(i, was)) => if left < was then p.(workers := p.workers[w := Busy(i, left)]) else p
      case (Finish(w), Busy(i, _)) => p.(workers := p.workers[w := Waiting], finished := p.finished + {i})
      case _ => p
  }

  function Run(p: Pool, steps: seq<Step>): Pool
    decreases |steps|
  {
    if steps == [] then p else Run(Apply(p, steps[0]), steps[1..])
  }

  /** Every value started is finished or being worked on, by one worker only. */
  ghost predicate Sound(p: Pool) {
    && p.next <= p.size
    && (forall i <- p.finished :: i < p.next)
    && (forall w | 0 <= w < |p.workers| && p.workers[w].Busy? ::
        p.workers[w].index < p.next && p.workers[w].index !in p.finished)
    && (forall v, w | 0 <= v < w < |p.workers| && p.workers[v].Busy? && p.workers[w].Busy? ::
        p.workers[v].index != p.workers[w].index)
    && (forall i: nat | i < p.next && i !in p.finished :: BusyWith(p, i))
  }

  ghost predicate BusyWith(p: Pool, i: nat) {
    exists w :: 0 <= w < |p.workers| && p.workers[w].Busy? && p.workers[w].index == i
  }

  predicate Done(p: Pool) { forall w :: 0 <= w < |p.workers| ==> p.workers[w].Stopped? }

  lemma OpenSound(size: nat, concurrency: nat)
    ensures Sound(Open(size, concurrency))
  {}

  lemma BusyElsewhere(p: Pool, q: Pool, w: nat, i: nat)
    requires w < |p.workers| == |q.workers|
             && (forall v | 0 <= v < |p.workers| && v != w :: q.workers[v] == p.workers[v])
    requires BusyWith(p, i) && !(p.workers[w].Busy? && p.workers[w].index == i)
    ensures BusyWith(q, i)
  {
    var v :| 0 <= v < |p.workers| && p.workers[v].Busy? && p.workers[v].index == i;
    assert q.workers[v] == p.workers[v];
  }

  lemma ApplySound(p: Pool, step: Step)
    requires Sound(p)
    ensures Sound(Apply(p, step))
  {
    var q := Apply(p, step);
    if step.worker < |p.workers| {
      forall i: nat | i < q.next && i !in q.finished ensures BusyWith(q, i) {
        var w := step.worker;
        if q.workers[w].Busy? && q.workers[w].index == i {
        } else if i < p.next && i !in p.finished {
          assert BusyWith(p, i);
          BusyElsewhere(p, q, w, i);
        }
      }
    }
  }

  lemma {:induction false} RunSound(p: Pool, steps: seq<Step>)
    requires Sound(p)
    ensures Sound(Run(p, steps))
    decreases |steps|
  {
    if steps != [] {
      ApplySound(p, steps[0]);
      RunSound(Apply(p, steps[0]), steps[1..]);
    }
  }

  /** The indices a run starts, in order. */
  function Starts(p: Pool, steps: seq<Step>): seq<nat>
    decreases |steps|
  {
    if steps == [] then []
    else (if Apply(p, steps[0]).next == p.next then [] else [p.next]) + Starts(Apply(p, steps[0]), steps[1..])
  }

  function UpTo(from: nat, to: nat): seq<nat>
    requires from <= to
  {
    seq(to - from, i requires 0 <= i < to - from => from + i)
  }

  /** Whatever the interleaving, each value is started once at most, in order. */
  lemma {:induction false} StartsInOrder(p: Pool, steps: seq<Step>)
    ensures p.next <= Run(p, steps).next && Starts(p, steps) == UpTo(p.next, Run(p, steps).next)
    decreases |steps|
  {
    if steps != [] {
      StartsInOrder(Apply(p, steps[0]), steps[1..]);
    }
  }

  /** When every worker has stopped, everything started has finished. */
  lemma DoneFinishesAll(p: Pool)
    requires Sound(p) && Done(p)
    ensures forall i: nat :: i in p.finished <==> i < p.next
  {
    assert forall i: nat :: !BusyWith(p, i);
  }

  /** A worker stops short only of an aborted pool. */
  ghost predicate StoppedEarly(p: Pool) { p.next < p.size && exists w :: 0 <= w < |p.workers| && p.workers[w].Stopped? }

  predicate Aborts(steps: seq<Step>) { exists i :: 0 <= i < |steps| && steps[i].Take? && steps[i].aborted }

  /** With no abort seen, a pool with a worker that has run to its end has run every value. */
  lemma {:induction false} UnabortedRunsAll(p: Pool, steps: seq<Step>)
    requires !StoppedEarly(p) && Sound(p) && (|p.workers| > 0 || p.next == p.size)
    ensures !Aborts(steps) ==> !StoppedEarly(Run(p, steps))
    ensures !Aborts(steps) && Done(Run(p, steps)) ==> forall i: nat :: i in Run(p, steps).finished <==> i < p.size
    decreases |steps|
  {
    RunSound(p, steps);
    if steps == [] {
      if Done(p) {
        DoneFinishesAll(p);
        if |p.workers| > 0 { assert p.workers[0].Stopped?; }
      }
    } else {
      var q := Apply(p, steps[0]);
      ApplySound(p, steps[0]);
      if !Aborts(steps) {
        assert steps[0].Take? ==> !steps[0].aborted;
        assert !Aborts(steps[1..]) by { assert forall i :: 0 <= i < |steps[1..]| ==> steps[1..][i] == steps[i + 1]; }
        UnabortedRunsAll(q, steps[1..]);
      }
    }
  }

  /** An aborted pool starts nothing more, whatever its workers still finish. */
  lemma {:induction false} AbortedStartsNothing(p: Pool, steps: seq<Step>)
    requires forall i :: 0 <= i < |steps| && steps[i].Take? ==> steps[i].aborted
    ensures Run(p, steps).next == p.next && Starts(p, steps) == []
    decreases |steps|
  {
    if steps != [] {
      assert forall i :: 0 <= i < |steps[1..]| ==> steps[1..][i] == steps[i + 1];
      AbortedStartsNothing(Apply(p, steps[0]), steps[1..]);
    }
  }

  // -------------------------------------------------------------- progress

  function Rank(w: Worker): nat { match w case Stopped => 0 case Waiting => 1 case Busy(_, left) => 2 + left }

  function Ranks(workers: seq<Worker>): nat { if workers == [] then 0 else Rank(workers[0]) + Ranks(workers[1..]) }

  lemma {:induction false} RanksAt(workers: seq<Worker>, w: nat, x: Worker)
    requires w < |workers|
    ensures Ranks(workers[w := x]) + Rank(workers[w]) == Ranks(workers) + Rank(x)
  {
    if w == 0 {
      assert workers[w := x][1..] == workers[1..];
    } else {
      RanksAt(workers[1..], w - 1, x);
      assert workers[w := x][1..] == workers[1..][w - 1 := x];
    }
  }

  /** What is left to start. */
  function Left(p: Pool): nat { if p.next <= p.size then p.size - p.next else 0 }

  /** Nearer to the end: fewer values to start, or as many and less left to the workers. */
  predicate Nearer(q: Pool, p: Pool) {
    Left(q) < Left(p) || (Left(q) == Left(p) && Ranks(q.workers) < Ranks(p.workers))
  }

  /**
   Every step of a worker that has not stopped brings the pool nearer to its end, however often its operation awaits.
   */
  lemma StepWorks(p: Pool, step: Step)
    requires Sound(p) && step.worker < |p.workers|
    requires match step
             case Take(w, _, _) => p.workers[w].Waiting?
             case Advance(w, left) => p.workers[w].Busy? && left < p.workers[w].left
             case Finish(w) => p.workers[w].Busy?
    ensures Nearer(Apply(p, step), p)
  {
    RanksAt(p.workers, step.worker, Apply(p, step).workers[step.worker]);
  }
}
