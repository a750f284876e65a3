/** What the permits of the pool are for: a queued job can be started exactly while there is a permit for it. */
module StrandedJobs {
  import opened Sequences
  import opened ThreadPool

  // ----- Jobs without functions -----

  ghost predicate NeverStranded(p: Pool, steps: seq<Step>)
    requires Executable(p, steps)
    decreases steps
  {
    NoStrandedJob(p) && (steps == [] || NeverStranded(Do(p, steps[0]), steps[1..]))
  }

  /** Whenever a job without functions is added, there are more permits than queued jobs. */
  ghost predicate EmptyJobsFindRoom(p: Pool, steps: seq<Step>)
    requires Executable(p, steps)
    decreases steps
  {
    steps == [] || ((steps[0] == Push(0) ==> |p.queue| < Permits(p)) && EmptyJobsFindRoom(Do(p, steps[0]), steps[1..]))
  }

  /** Over any run, with or without such jobs: there is a permit for every queued job in every state exactly when every
      job without functions finds room. */
  lemma {:induction false} NeverStrandedIff(p: Pool, steps: seq<Step>)
    requires NoStrandedJob(p) && Executable(p, steps)
    ensures NeverStranded(p, steps) <==> EmptyJobsFindRoom(p, steps)
    decreases steps
  {
    hide Do, Enabled, NoStrandedJob;
    if steps != [] {
      StepKeepsBound(p, steps[0]);
      if NoStrandedJob(Do(p, steps[0])) { NeverStrandedIff(Do(p, steps[0]), steps[1..]); }
    }
  }

  // ----- Where permits and jobs match -----

  /** A cancelled job gives its permit back only if the semaphore has one: the others are with workers or on their
      way. */
  predicate CancelFindsPermits(p: Pool, step: Step) {
    && (step.CancelJob? && step.id in p.queue ==> p.counter >= 1)
    && (step.CancelAll? ==> p.counter >= |p.queue|)
  }

  ghost predicate CancelsFindPermits(p: Pool, steps: seq<Step>)
    requires Executable(p, steps)
    decreases steps
  {
    steps == [] || (CancelFindsPermits(p, steps[0]) && CancelsFindPermits(Do(p, steps[0]), steps[1..]))
  }

  /** There are exactly as many permits as queued jobs, in every state of the run. */
  ghost predicate AlwaysMatched(p: Pool, steps: seq<Step>)
    requires Executable(p, steps)
    decreases steps
  {
    Permits(p) == |p.queue| && (steps == [] || AlwaysMatched(Do(p, steps[0]), steps[1..]))
  }

  predicate CarriesOne(step: Step) {
    step.Push? ==> step.functions == 1
  }

  lemma StepMatchedIff(p: Pool, step: Step)
    requires Permits(p) == |p.queue| && Enabled(p, step) && CarriesOne(step)
    ensures Permits(Do(p, step)) == |Do(p, step).queue| <==> CancelFindsPermits(p, step)
  {
    hide Least, Without, IndexOf;
    if step.Acquire? { CountsAfter(p.workers, step.w, HasPermit); }
    if step.Take? { TakeCounts(p, step.w, step.prio); }
    if step.Finish? { CountsAfter(p.workers, step.w, Idle); }
  }

  /** Where every job carries one function: there is exactly one permit for each queued job throughout a run, no less
      and no more, if and only if every cancel finds the permits it takes away. */
  lemma {:induction false} AlwaysMatchedIff(p: Pool, steps: seq<Step>)
    requires Permits(p) == |p.queue| && Executable(p, steps) && forall k :: 0 <= k < |steps| ==> CarriesOne(steps[k])
    ensures AlwaysMatched(p, steps) <==> CancelsFindPermits(p, steps)
    decreases steps
  {
    hide Do, Enabled, Permits, CancelFindsPermits;
    if steps != [] {
      assert CarriesOne(steps[0]);
      StepMatchedIff(p, steps[0]);
      if CancelFindsPermits(p, steps[0]) { AlwaysMatchedIff(Do(p, steps[0]), steps[1..]); }
    }
  }

  /** Then no worker wakes up to an empty queue. */
  lemma PermitFindsJob(p: Pool, w: nat)
    requires Permits(p) == |p.queue| && w < |p.workers| && p.workers[w] == HasPermit
    ensures p.queue != []
  {
    CountsAfter(p.workers, w, Idle);
  }

  // ----- What a permit is worth -----

  predicate NoPushes(steps: seq<Step>) {
    forall k :: 0 <= k < |steps| ==> !steps[k].Push?
  }

  lemma StepSpendsPermits(p: Pool, step: Step)
    requires Enabled(p, step) && !step.Push?
    ensures var q := Do(p, step); p.started <= q.started && |q.started| + Permits(q) <= |p.started| + Permits(p)
  {
    if step.Acquire? { CountsAfter(p.workers, step.w, HasPermit); }
    if step.Take? { TakeCounts(p, step.w, step.prio); }
    if step.Finish? { CountsAfter(p.workers, step.w, Idle); }
  }

  /** Without new jobs, at most as many jobs are ever started as there are permits. */
  lemma {:induction false} StartsSpendPermits(p: Pool, steps: seq<Step>)
    requires Executable(p, steps) && NoPushes(steps)
    ensures p.started <= Run(p, steps).started && |Run(p, steps).started| <= |p.started| + Permits(p)
    decreases steps
  {
    hide Do, Enabled, Permits;
    if steps != [] {
      StepSpendsPermits(p, steps[0]);
      assert NoPushes(steps[1..]);
      StartsSpendPermits(Do(p, steps[0]), steps[1..]);
    }
  }

  /** The run adds no job and starts every job that is queued now. */
  ghost predicate StartsAll(p: Pool, steps: seq<Step>) {
    Executable(p, steps) && NoPushes(steps) && forall id :: id in p.queue ==> id in Run(p, steps).started
  }

  lemma {:induction false} Pigeonhole(queue: seq<nat>, bag: seq<nat>)
    requires Distinct(queue) && forall id :: id in queue ==> id in bag
    ensures |queue| <= |bag|
    decreases |queue|
  {
    if queue != [] {
      var i := IndexOf(bag, queue[0]);
      var rest := Without(bag, i);
      forall id | id in queue[1..] ensures id in rest {
        assert id in queue;
        var k :| 0 <= k < |bag| && bag[k] == id;
        assert rest[if k < i then k else k - 1] == id;
      }
      Pigeonhole(queue[1..], rest);
    }
  }

  lemma StartedAllHasPermits(p: Pool, steps: seq<Step>)
    requires OnePlace(p) && StartedOnce(p) && StartsAll(p, steps)
    ensures NoStrandedJob(p)
  {
    StartsSpendPermits(p, steps);
    var started := Run(p, steps).started;
    var later := started[|p.started|..];
    assert started == p.started + later;
    assert forall id :: id in p.queue ==> id !in p.started;
    Pigeonhole(p.queue, later);
  }

  // ----- With permits, every queued job can be started -----

  /** A step of a worker, or the second half of addJob. */
  predicate IsWork(step: Step) {
    step.Release? || step.Acquire? || step.Take? || step.Finish?
  }

  /** How far the pool is from an empty queue. */
  ghost predicate Closer(q: Pool, p: Pool) {
    || |q.queue| < |p.queue|
    || (|q.queue| == |p.queue| && q.pending < p.pending)
    || (|q.queue| == |p.queue| && q.pending == p.pending && q.counter < p.counter)
    || (|q.queue| == |p.queue| && q.pending == p.pending && q.counter == p.counter
        && RunningCount(q.workers) < RunningCount(p.workers))
  }

  /** The next step of a pool that works off its queue. */
  lemma Progress(p: Pool) returns (step: Step)
    requires p.workers != [] && p.queue != [] && NoStrandedJob(p)
    ensures Enabled(p, step) && IsWork(step) && NoStrandedJob(Do(p, step)) && Do(p, step).workers != []
    ensures forall id :: id in p.queue ==> id in Do(p, step).queue || id in Do(p, step).started
    ensures Closer(Do(p, step), p)
  {
    if w: nat :| w < |p.workers| && p.workers[w] == HasPermit {
      step := Take(w, id => 0);
      TakeStarts(p, w, id => 0);
    } else if p.counter == 0 {
      NoPermits(p.workers);
      step := Release(p.pending);
    } else if w: nat :| w < |p.workers| && p.workers[w] == Idle {
      step := Acquire(w);
    } else {
      assert p.workers[0].Running?;
      step := Finish(0);
      CountsAfter(p.workers, 0, Idle);
    }
    StepKeepsBound(p, step);
  }

  lemma TakeStarts(p: Pool, w: nat, prio: nat -> int)
    requires Enabled(p, Take(w, prio)) && p.queue != []
    ensures var q := Do(p, Take(w, prio));
            |q.queue| < |p.queue| && forall id :: id in p.queue ==> id in q.queue || id in q.started
  {
    var q := Do(p, Take(w, prio));
    var i := Least(p.queue, prio);
    forall id | id in p.queue ensures id in q.queue || id in q.started {
      var k :| 0 <= k < |p.queue| && p.queue[k] == id;
      if k != i { assert q.queue[if k < i then k else k - 1] == id; }
    }
  }

  lemma {:induction false} NoPermits(ws: seq<Worker>)
    requires forall w :: 0 <= w < |ws| ==> ws[w] != HasPermit
    ensures PermitCount(ws) == 0
  {
    if ws != [] { NoPermits(ws[..|ws| - 1]); }
  }

  /** From a state with a permit for every queued job, some run starts them all. */
  lemma {:induction false} WorkOff(p: Pool) returns (steps: seq<Step>)
    requires p.workers != [] && NoStrandedJob(p)
    ensures StartsAll(p, steps)
    decreases |p.queue|, p.pending, p.counter, RunningCount(p.workers)
  {
    hide Do, Enabled, NoStrandedJob;
    if p.queue == [] {
      steps := [];
    } else {
      var step := Progress(p);
      var rest := WorkOff(Do(p, step));
      steps := [step] + rest;
      assert steps[1..] == rest;
      StartsSpendPermits(Do(p, step), rest);
      assert Run(p, steps) == Run(Do(p, step), rest);
    }
  }

  /** In every state a pool with workers can reach, from any run with or without jobs without functions: the jobs that
      are queued can all still be started without adding another exactly when there is a permit for each. */
  lemma StartableIffNotStranded(threads: nat, past: seq<Step>)
    requires threads >= 1 && Executable(Initial(threads), past)
    ensures var p := Run(Initial(threads), past);
            (exists steps :: StartsAll(p, steps)) <==> NoStrandedJob(p)
  {
    hide OnePlace, StartedOnce, BooksBalance, NoStrandedJob, StartsAll;
    InitialInv(threads);
    RunKeepsConsistent(Initial(threads), past);
    var p := Run(Initial(threads), past);
    if NoStrandedJob(p) {
      var steps := WorkOff(p);
    }
    if steps :| StartsAll(p, steps) {
      StartedAllHasPermits(p, steps);
    }
  }

  /** A job without functions, added to a new pool, is not started by any run that adds no other job. */
  lemma EmptyJobNeverStarts(threads: nat, steps: seq<Step>)
    requires Executable(Do(Initial(threads), Push(0)), steps) && NoPushes(steps)
    ensures Do(Initial(threads), Push(0)).queue == [1] && Run(Do(Initial(threads), Push(0)), steps).started == []
  {
    var p := Do(Initial(threads), Push(0));
    IdleCounts(threads);
    StartsSpendPermits(p, steps);
  }
}
