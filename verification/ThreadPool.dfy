/** The priority thread pool (thread_pool/): its shared state, one step for each critical section, and what
    every interleaving keeps. Each semaphore call is one atomic step, and priorities are read as one snapshot. */
module ThreadPool {
  import opened Sequences

  datatype Worker = Idle | HasPermit | Running(job: nat)

  /** The shared tool box, the workers, and the history of jobs that finished, were cancelled or were started. */
  datatype Pool = Pool(
    queue: seq<nat>,        // ids of the queued jobs, oldest first
    pushed: nat,            // totalJobsPushed
    done: nat,              // totalJobsDone
    counter: nat,           // jobSemaphore
    pending: nat,           // permits of release calls that have not happened yet
    books: int,             // library: the reverse semaphore
    notifier: bool,
    inactive: int,          // inactiveThreads
    workers: seq<Worker>,
    finished: set<nat>,
    cancelled: set<nat>,
    started: seq<nat>)

  /** `Push(functions)` is addJob up to the end of its queue section; its release comes later. */
  datatype Step =
    | Push(functions: nat)
    | Release(n: nat)
    | Acquire(w: nat)
    | Take(w: nat, prio: nat -> int)
    | Finish(w: nat)
    | CancelJob(id: nat)
    | CancelAll

  function Initial(threads: nat): Pool {
    Pool([], 0, 0, 0, 0, 0, true, 0, seq(threads, i => Idle), {}, {}, [])
  }

  // ----- What each critical section computes -----

  /** Semaphore::increment: takes permits away, but never below zero. */
  function TakenAway(counter: nat, n: nat): nat {
    if counter > n then counter - n else 0
  }

  /** The scan of doJob: the first queued job that no other undercuts. */
  function Least(queue: seq<nat>, prio: nat -> int): (i: nat)
    requires queue != []
    ensures i < |queue|
    ensures forall k :: 0 <= k < |queue| ==> prio(queue[i]) <= prio(queue[k])
    ensures forall k :: 0 <= k < i ==> prio(queue[i]) < prio(queue[k])
  {
    if |queue| == 1 then 0
    else
      var last := |queue| - 1;
      var i := Least(queue[..last], prio);
      assert forall k :: 0 <= k < last ==> queue[..last][k] == queue[k];
      if prio(queue[last]) < prio(queue[i]) then last else i
  }

  function Without(queue: seq<nat>, i: nat): (r: seq<nat>)
    requires i < |queue|
    ensures |r| == |queue| - 1
    ensures forall k :: 0 <= k < |r| ==> r[k] == queue[if k < i then k else k + 1]
  {
    queue[..i] + queue[i + 1..]
  }

  function IndexOf(queue: seq<nat>, id: nat): (i: nat)
    ensures i <= |queue| && (i < |queue| <==> id in queue)
    ensures i < |queue| ==> queue[i] == id
  {
    if queue == [] then 0 else if queue[0] == id then 0 else 1 + IndexOf(queue[1..], id)
  }

  predicate Enabled(p: Pool, step: Step) {
    match step
    case Push(functions) => true
    case Release(n) => n <= p.pending
    case Acquire(w) => w < |p.workers| && p.workers[w] == Idle && p.counter >= 1
    case Take(w, _) => w < |p.workers| && p.workers[w] == HasPermit
    case Finish(w) => w < |p.workers| && p.workers[w].Running?
    case CancelJob(_) => true
    case CancelAll => true
  }

  function Do(p: Pool, step: Step): Pool
    requires Enabled(p, step)
  {
    match step
    case Push(functions) =>
      p.(queue := p.queue + [p.pushed + 1], pushed := p.pushed + 1, pending := p.pending + functions)
    case Release(n) => p.(counter := p.counter + n, pending := p.pending - n)
    case Acquire(w) => p.(counter := p.counter - 1, workers := p.workers[w := HasPermit])
    case Take(w, prio) =>
      if p.queue == [] then p.(workers := p.workers[w := Idle])
      else
        var i := Least(p.queue, prio);
        p.(queue := Without(p.queue, i), books := p.books + 1, notifier := false, inactive := p.inactive - 1,
           workers := p.workers[w := Running(p.queue[i])], started := p.started + [p.queue[i]])
    case Finish(w) =>
      p.(done := p.done + 1, inactive := p.inactive + 1, books := p.books - 1,
         notifier := if p.books - 1 == 0 then true else p.notifier,
         workers := p.workers[w := Idle], finished := p.finished + {p.workers[w].job})
    case CancelJob(id) =>
      if id in p.queue then
        p.(queue := Without(p.queue, IndexOf(p.queue, id)), counter := TakenAway(p.counter, 1),
           cancelled := p.cancelled + {id})
      else p
    case CancelAll =>
      p.(queue := [], counter := TakenAway(p.counter, |p.queue|), cancelled := p.cancelled + set id | id in p.queue)
  }

  // ----- What every step keeps -----

  ghost predicate IsRunning(p: Pool, id: nat) {
    exists w :: 0 <= w < |p.workers| && p.workers[w] == Running(id)
  }

  function RunningCount(ws: seq<Worker>): nat {
    if ws == [] then 0 else RunningCount(ws[..|ws| - 1]) + if ws[|ws| - 1].Running? then 1 else 0
  }

  function PermitCount(ws: seq<Worker>): nat {
    if ws == [] then 0 else PermitCount(ws[..|ws| - 1]) + if ws[|ws| - 1] == HasPermit then 1 else 0
  }

  /** Every id handed out is in exactly one of the four places, and no two workers run the same job. */
  ghost predicate OnePlace(p: Pool) {
    && Distinct(p.queue)
    && (forall w, v :: 0 <= w < v < |p.workers| && p.workers[w].Running? ==> p.workers[w] != p.workers[v])
    && (forall id: nat :: 1 <= id <= p.pushed
         <==> id in p.queue || IsRunning(p, id) || id in p.finished || id in p.cancelled)
    && (forall id: nat :: id in p.queue ==> !IsRunning(p, id) && id !in p.finished && id !in p.cancelled)
    && (forall id: nat :: IsRunning(p, id) ==> id !in p.finished && id !in p.cancelled)
    && p.finished !! p.cancelled
  }

  /** Started jobs are the running and the finished ones, each started once. */
  ghost predicate StartedOnce(p: Pool) {
    && Distinct(p.started)
    && forall id: nat :: id in p.started <==> IsRunning(p, id) || id in p.finished
  }

  ghost predicate BooksBalance(p: Pool) {
    && p.books == RunningCount(p.workers) && p.inactive == -p.books
    && (p.notifier <==> p.books == 0)
    && p.done == |p.finished|
  }

  /** The permits in the semaphore, with workers, and on their way. */
  function Permits(p: Pool): nat {
    p.counter + PermitCount(p.workers) + p.pending
  }

  /** There is a permit, in the semaphore, with a worker or on its way, for every queued job. */
  ghost predicate NoStrandedJob(p: Pool) {
    |p.queue| <= Permits(p)
  }

  /** What every step keeps, whatever the jobs carry. */
  ghost predicate Consistent(p: Pool) {
    OnePlace(p) && StartedOnce(p) && BooksBalance(p)
  }

  ghost predicate Inv(p: Pool) {
    Consistent(p) && NoStrandedJob(p)
  }

  predicate CarriesWork(step: Step) {
    step.Push? ==> step.functions >= 1
  }

  lemma {:induction false} CountsAfter(ws: seq<Worker>, w: nat, x: Worker)
    requires w < |ws|
    ensures RunningCount(ws[w := x])
              == RunningCount(ws) - (if ws[w].Running? then 1 else 0) + (if x.Running? then 1 else 0)
    ensures PermitCount(ws[w := x])
              == PermitCount(ws) - (if ws[w] == HasPermit then 1 else 0) + (if x == HasPermit then 1 else 0)
  {
    var last := |ws| - 1;
    if w < last {
      CountsAfter(ws[..last], w, x);
      assert ws[w := x][..last] == ws[..last][w := x];
    } else {
      assert ws[w := x][..last] == ws[..last];
    }
  }

  /** Who runs what after one worker changed. */
  lemma RunningAfter(p: Pool, w: nat, x: Worker)
    requires OnePlace(p) && w < |p.workers| && (x.Running? ==> !IsRunning(p, x.job))
    ensures var q := p.(workers := p.workers[w := x]);
            && (forall id: nat :: IsRunning(q, id)
                 <==> x == Running(id) || (IsRunning(p, id) && p.workers[w] != Running(id)))
            && (forall v, u :: 0 <= v < u < |q.workers| && q.workers[v].Running? ==> q.workers[v] != q.workers[u])
  {
    var q := p.(workers := p.workers[w := x]);
    forall id ensures IsRunning(q, id) <==> x == Running(id) || (IsRunning(p, id) && p.workers[w] != Running(id)) {
      if x == Running(id) { assert q.workers[w] == Running(id); }
      if IsRunning(p, id) && p.workers[w] != Running(id) {
        var v :| 0 <= v < |p.workers| && p.workers[v] == Running(id);
        assert q.workers[v] == Running(id);
      }
      if IsRunning(q, id) && x != Running(id) {
        var v :| 0 <= v < |q.workers| && q.workers[v] == Running(id);
        assert p.workers[v] == Running(id);
      }
    }
    if x.Running? { assert forall v :: 0 <= v < |p.workers| ==> p.workers[v] != x; }
  }

  /** Ids of a queue without one entry. */
  lemma WithoutIds(queue: seq<nat>, i: nat)
    requires Distinct(queue) && i < |queue|
    ensures Distinct(Without(queue, i))
    ensures forall id: nat :: id in Without(queue, i) <==> id in queue && id != queue[i]
  {
    var r := Without(queue, i);
    forall id | id in queue && id != queue[i] ensures id in r {
      var k :| 0 <= k < |queue| && queue[k] == id;
      assert r[if k < i then k else k - 1] == id;
    }
  }

  lemma PushKeepsConsistent(p: Pool, functions: nat)
    requires Consistent(p)
    ensures Consistent(Do(p, Push(functions)))
  {
    var q := Do(p, Push(functions));
    assert forall id: nat :: IsRunning(q, id) <==> IsRunning(p, id);
    assert q.pushed !in p.queue;
    assert forall id: nat :: id in q.queue <==> id in p.queue || id == q.pushed;
  }

  lemma AcquireKeepsConsistent(p: Pool, w: nat)
    requires Consistent(p) && Enabled(p, Acquire(w))
    ensures Consistent(Do(p, Acquire(w)))
  {
    RunningAfter(p, w, HasPermit);
    CountsAfter(p.workers, w, HasPermit);
    var q := p.(workers := p.workers[w := HasPermit]);
    assert forall id: nat :: IsRunning(Do(p, Acquire(w)), id) <==> IsRunning(q, id);
  }

  lemma TakeKeepsConsistent(p: Pool, w: nat, prio: nat -> int)
    requires Consistent(p) && Enabled(p, Take(w, prio))
    ensures Consistent(Do(p, Take(w, prio)))
  {
    hide Least, Without, RunningCount, PermitCount;
    var q := Do(p, Take(w, prio));
    if p.queue == [] {
      RunningAfter(p, w, Idle);
      CountsAfter(p.workers, w, Idle);
      assert forall id: nat :: IsRunning(q, id) <==> IsRunning(p.(workers := p.workers[w := Idle]), id);
    } else {
      var i := Least(p.queue, prio);
      var job := p.queue[i];
      WithoutIds(p.queue, i);
      RunningAfter(p, w, Running(job));
      CountsAfter(p.workers, w, Running(job));
      assert forall id: nat :: IsRunning(q, id) <==> IsRunning(p.(workers := p.workers[w := Running(job)]), id);
      assert q.started == p.started + [job];
      assert job !in p.started;
    }
  }

  lemma FinishKeepsConsistent(p: Pool, w: nat)
    requires Consistent(p) && Enabled(p, Finish(w))
    ensures Consistent(Do(p, Finish(w)))
  {
    var q := Do(p, Finish(w));
    var job := p.workers[w].job;
    assert IsRunning(p, job);
    RunningAfter(p, w, Idle);
    CountsAfter(p.workers, w, Idle);
    assert forall id: nat :: IsRunning(q, id) <==> IsRunning(p.(workers := p.workers[w := Idle]), id);
  }

  lemma CancelJobKeepsConsistent(p: Pool, id: nat)
    requires Consistent(p)
    ensures Consistent(Do(p, CancelJob(id)))
  {
    var q := Do(p, CancelJob(id));
    if id in p.queue {
      WithoutIds(p.queue, IndexOf(p.queue, id));
      assert forall k: nat :: IsRunning(q, k) <==> IsRunning(p, k);
    }
  }

  lemma CancelAllKeepsConsistent(p: Pool)
    requires Consistent(p)
    ensures Consistent(Do(p, CancelAll))
  {
    var q := Do(p, CancelAll);
    assert forall k: nat :: IsRunning(q, k) <==> IsRunning(p, k);
  }

  lemma ReleaseKeepsConsistent(p: Pool, n: nat)
    requires Consistent(p) && Enabled(p, Release(n))
    ensures Consistent(Do(p, Release(n)))
  {
    var q := Do(p, Release(n));
    assert forall k: nat :: IsRunning(q, k) <==> IsRunning(p, k);
  }

  lemma TakeCounts(p: Pool, w: nat, prio: nat -> int)
    requires Enabled(p, Take(w, prio))
    ensures PermitCount(Do(p, Take(w, prio)).workers) == PermitCount(p.workers) - 1
  {
    if p.queue == [] {
      CountsAfter(p.workers, w, Idle);
    } else {
      CountsAfter(p.workers, w, Running(p.queue[Least(p.queue, prio)]));
    }
  }

  /** The bound is lost only by adding a job without functions where there is no permit to spare. */
  lemma StepKeepsBound(p: Pool, step: Step)
    requires NoStrandedJob(p) && Enabled(p, step)
    ensures NoStrandedJob(Do(p, step)) <==> step != Push(0) || |p.queue| < Permits(p)
  {
    if step.Acquire? { CountsAfter(p.workers, step.w, HasPermit); }
    if step.Take? { TakeCounts(p, step.w, step.prio); }
    if step.Finish? { CountsAfter(p.workers, step.w, Idle); }
  }

  /** Every step keeps the books, the ids and the history in order. */
  lemma StepKeepsConsistent(p: Pool, step: Step)
    requires Consistent(p) && Enabled(p, step)
    ensures Consistent(Do(p, step))
  {
    hide Consistent, Do;
    match step
    case Push(functions) => PushKeepsConsistent(p, functions);
    case Release(n) => ReleaseKeepsConsistent(p, n);
    case Acquire(w) => AcquireKeepsConsistent(p, w);
    case Take(w, prio) => TakeKeepsConsistent(p, w, prio);
    case Finish(w) => FinishKeepsConsistent(p, w);
    case CancelJob(id) => CancelJobKeepsConsistent(p, id);
    case CancelAll => CancelAllKeepsConsistent(p);
  }

  /** Every step keeps the whole invariant, as long as addJob is given at least one function. */
  lemma StepKeepsInv(p: Pool, step: Step)
    requires Inv(p) && Enabled(p, step) && CarriesWork(step)
    ensures Inv(Do(p, step))
  {
    hide Consistent, Do, NoStrandedJob;
    StepKeepsConsistent(p, step);
    StepKeepsBound(p, step);
  }

  // ----- The order of the queue -----

  /** Older jobs come first: ids grow along the queue. */
  ghost predicate InOrder(queue: seq<nat>) {
    forall i, j :: 0 <= i < j < |queue| ==> queue[i] < queue[j]
  }

  lemma StepKeepsOrder(p: Pool, step: Step)
    requires Consistent(p) && Enabled(p, step) && InOrder(p.queue)
    ensures InOrder(Do(p, step).queue)
  {
    hide Least, IndexOf;
    if step.Push? {
      forall i | 0 <= i < |p.queue| ensures p.queue[i] <= p.pushed { assert p.queue[i] in p.queue; }
    }
  }

  /** Of several jobs of least priority the scan takes the one that was added first. */
  lemma LeastIsOldest(queue: seq<nat>, prio: nat -> int)
    requires queue != [] && InOrder(queue)
    ensures forall id :: id in queue ==>
              var job := queue[Least(queue, prio)]; prio(job) < prio(id) || (prio(job) == prio(id) && job <= id)
  {
    var i := Least(queue, prio);
    forall id | id in queue
      ensures prio(queue[i]) < prio(id) || (prio(queue[i]) == prio(id) && queue[i] <= id)
    {
      var k :| 0 <= k < |queue| && queue[k] == id;
    }
  }

  // ----- Whole runs -----

  ghost predicate Executable(p: Pool, steps: seq<Step>)
    decreases steps
  {
    steps == [] || (Enabled(p, steps[0]) && Executable(Do(p, steps[0]), steps[1..]))
  }

  /** Every addJob of the run is given at least one function. */
  ghost predicate Legal(p: Pool, steps: seq<Step>) {
    Executable(p, steps) && forall k :: 0 <= k < |steps| ==> CarriesWork(steps[k])
  }

  ghost function Run(p: Pool, steps: seq<Step>): Pool
    requires Executable(p, steps)
    decreases steps
  {
    if steps == [] then p else Run(Do(p, steps[0]), steps[1..])
  }

  lemma InitialInv(threads: nat)
    ensures Inv(Initial(threads))
  {
    IdleCounts(threads);
  }

  lemma {:induction false} IdleCounts(threads: nat)
    ensures var ws := seq(threads, i => Idle); RunningCount(ws) == 0 && PermitCount(ws) == 0
  {
    if threads > 0 {
      IdleCounts(threads - 1);
      assert seq(threads, i => Idle)[..threads - 1] == seq(threads - 1, i => Idle);
    }
  }

  /** Over every run the pool stays in order, and history only grows: what was cancelled stays cancelled, what was
      started stays started. */
  lemma {:induction false} RunKeepsConsistent(p: Pool, steps: seq<Step>)
    requires Consistent(p) && Executable(p, steps)
    ensures var q := Run(p, steps);
            && Consistent(q) && |q.workers| == |p.workers|
            && p.cancelled <= q.cancelled && p.finished <= q.finished && p.started <= q.started && p.pushed <= q.pushed
    decreases steps
  {
    hide Consistent, Enabled;
    if steps != [] {
      StepKeepsConsistent(p, steps[0]);
      StepKeepsHistory(p, steps[0]);
      RunKeepsConsistent(Do(p, steps[0]), steps[1..]);
    }
  }

  lemma StepKeepsHistory(p: Pool, step: Step)
    requires Enabled(p, step)
    ensures var q := Do(p, step);
            && |q.workers| == |p.workers|
            && p.cancelled <= q.cancelled && p.finished <= q.finished && p.started <= q.started && p.pushed <= q.pushed
  {}

  lemma {:induction false} RunKeepsOrder(p: Pool, steps: seq<Step>)
    requires Consistent(p) && Executable(p, steps) && InOrder(p.queue)
    ensures InOrder(Run(p, steps).queue)
    decreases steps
  {
    hide Consistent, Enabled, InOrder, Do;
    if steps != [] {
      StepKeepsConsistent(p, steps[0]);
      StepKeepsOrder(p, steps[0]);
      RunKeepsOrder(Do(p, steps[0]), steps[1..]);
    }
  }

  lemma {:induction false} RunKeepsBound(p: Pool, steps: seq<Step>)
    requires NoStrandedJob(p) && Legal(p, steps)
    ensures NoStrandedJob(Run(p, steps))
    decreases steps
  {
    hide NoStrandedJob, Enabled, Do;
    if steps != [] {
      assert CarriesWork(steps[0]);
      StepKeepsBound(p, steps[0]);
      RunKeepsBound(Do(p, steps[0]), steps[1..]);
    }
  }

  /** Every reachable state of a pool, from any number of workers and in any interleaving: each job is in exactly
      one place and was started at most once, and the books count the running jobs. If every job carries a function,
      no job is stranded. */
  lemma ReachablePools(threads: nat, steps: seq<Step>)
    requires Executable(Initial(threads), steps)
    ensures var p := Run(Initial(threads), steps);
            && OnePlace(p) && StartedOnce(p) && BooksBalance(p) && InOrder(p.queue)
            && (Legal(Initial(threads), steps) ==> NoStrandedJob(p))
  {
    InitialInv(threads);
    RunKeepsOrder(Initial(threads), steps);
    RunKeepsConsistent(Initial(threads), steps);
    if Legal(Initial(threads), steps) { RunKeepsBound(Initial(threads), steps); }
  }

  /** cancelJob reports success only for a job that has not run and never will, whatever happens afterwards. */
  lemma CancelledNeverRuns(p: Pool, id: nat, steps: seq<Step>)
    requires Consistent(p) && id in p.queue && Executable(Do(p, CancelJob(id)), steps)
    ensures id !in p.started && id !in Run(Do(p, CancelJob(id)), steps).started
  {
    StepKeepsConsistent(p, CancelJob(id));
    var q := Do(p, CancelJob(id));
    RunKeepsConsistent(q, steps);
    assert id in Run(q, steps).cancelled;
  }

  /** Where cancelJob reports failure, the job is running, is over, was cancelled before or never existed. */
  lemma CancelFailsOnlyTooLate(p: Pool, id: nat)
    requires Consistent(p) && id !in p.queue
    ensures Do(p, CancelJob(id)) == p
    ensures 1 <= id <= p.pushed ==> id in p.started || id in p.cancelled
  {}

  // ----- The objects -----

  class Semaphore {
    var counter: nat

    constructor ()
      ensures counter == 0
    {
      counter := 0;
    }

    method Release(n: nat)
      modifies this
      ensures counter == old(counter) + n
    {
      counter := counter + n;
    }

    /** Despite its name this takes permits away. */
    method Increment(n: nat)
      modifies this
      ensures counter == TakenAway(old(counter), n)
    {
      if counter > n { counter := counter - n; } else { counter := 0; }
    }

    /** The call waits until there are enough permits; this is the moment at which it takes them. */
    method Acquire(n: nat)
      requires counter >= n
      modifies this
      ensures counter == old(counter) - n
    {
      counter := counter - n;
    }
  }

  class ReverseSemaphore {
    var books: int
    var notifier: bool

    /** A waiter is let through exactly when nothing is booked. */
    ghost predicate Valid()
      reads this
    {
      books >= 0 && (notifier <==> books == 0)
    }

    constructor ()
      ensures Valid() && books == 0
    {
      books, notifier := 0, true;
    }

    method Increment(nb: nat)
      requires Valid() && nb >= 1
      modifies this
      ensures Valid() && books == old(books) + nb
    {
      books := books + nb;
      notifier := false;
    }

    method Decrement()
      requires Valid() && books >= 1
      modifies this
      ensures Valid() && books == old(books) - 1
    {
      books := books - 1;
      if books == 0 { notifier := true; }
    }
  }

  class PriorityThreadPool {
    var jobQueue: seq<nat>
    var totalJobsPushed: nat
    var totalJobsDone: nat
    var inactiveThreads: int
    const jobSemaphore: Semaphore
    const library: ReverseSemaphore

    /** The shared fields are those of the state `p`, with every release call done. */
    ghost predicate Shows(p: Pool)
      reads this, jobSemaphore, library
    {
      && jobQueue == p.queue && totalJobsPushed == p.pushed && totalJobsDone == p.done && inactiveThreads == p.inactive
      && jobSemaphore.counter == p.counter && library.books == p.books && library.notifier == p.notifier
    }

    constructor ()
      ensures fresh(jobSemaphore) && fresh(library)
      ensures forall threads: nat :: Shows(Initial(threads))
    {
      jobQueue, totalJobsPushed, totalJobsDone, inactiveThreads := [], 0, 0, 0;
      jobSemaphore := new Semaphore();
      library := new ReverseSemaphore();
    }

    /** Without interference addJob is its queue section followed by its release. */
    method AddJob(functions: nat) returns (id: nat)
      modifies this, jobSemaphore
      ensures id == old(totalJobsPushed) + 1 && jobQueue == old(jobQueue) + [id]
      ensures forall p: Pool :: old(Shows(p)) ==> Shows(Do(Do(p, Push(functions)), Release(functions)))
    {
      totalJobsPushed := totalJobsPushed + 1;
      id := totalJobsPushed;
      jobQueue := jobQueue + [id];
      jobSemaphore.Release(functions);
    }

    method CancelJob(id: nat) returns (found: bool)
      modifies this, jobSemaphore
      ensures found <==> id in old(jobQueue)
      ensures forall p: Pool :: old(Shows(p)) ==> Shows(Do(p, Step.CancelJob(id)))
    {
      var it := 0;
      while it < |jobQueue| && jobQueue[it] != id
        invariant it <= |jobQueue| && id !in jobQueue[..it]
      {
        it := it + 1;
      }
      if it < |jobQueue| {
        FirstIndex(jobQueue, id, it);
        jobQueue := Without(jobQueue, it);
        jobSemaphore.Increment(1);
        return true;
      }
      found := false;
    }

    method CancelAll()
      modifies this, jobSemaphore
      ensures forall p: Pool :: old(Shows(p)) ==> Shows(Do(p, Step.CancelAll))
    {
      var size := |jobQueue|;
      jobQueue := [];
      jobSemaphore.Increment(size);
    }

    /** The scan for the least priority; the first of several equal ones wins. */
    method LeastPriority(prio: nat -> int) returns (greater: nat)
      requires jobQueue != []
      ensures greater == Least(jobQueue, prio)
    {
      greater := 0;
      var it := 0;
      while it < |jobQueue|
        invariant it <= |jobQueue| && greater < |jobQueue|
        invariant it == 0 ==> greater == 0
        invariant it > 0 ==> greater == Least(jobQueue[..it], prio)
      {
        assert it > 0 ==> jobQueue[..it + 1][..it] == jobQueue[..it];
        if prio(jobQueue[it]) < prio(jobQueue[greater]) { greater := it; }
        it := it + 1;
      }
      assert jobQueue[..it] == jobQueue;
    }

    /** The queue section of doJob, for a worker that holds a permit. */
    method TakeJob(prio: nat -> int) returns (taken: bool, job: nat)
      requires library.Valid()
      modifies this, library
      ensures library.Valid()
      ensures taken <==> old(jobQueue) != []
      ensures taken ==> job in old(jobQueue) && forall k :: k in old(jobQueue) ==> prio(job) <= prio(k)
      ensures taken && old(InOrder(jobQueue)) ==>
                forall k :: k in old(jobQueue) ==> prio(job) < prio(k) || (prio(job) == prio(k) && job <= k)
      ensures forall p: Pool, w: nat :: old(Shows(p)) && Enabled(p, Take(w, prio)) ==>
                Shows(Do(p, Take(w, prio))) && Do(p, Take(w, prio)).workers[w] == if taken then Running(job) else Idle
    {
      hide Without, Least, TakenAway, IndexOf, InOrder;
      taken, job := false, 0;
      if jobQueue == [] { return; }
      library.Increment(1);
      inactiveThreads := inactiveThreads - 1;
      var greater := LeastPriority(prio);
      if InOrder(jobQueue) { LeastIsOldest(jobQueue, prio); }
      taken, job := true, jobQueue[greater];
      jobQueue := Without(jobQueue, greater);
    }

    /** The end of doJob, after the last function of the job. */
    method FinishJob()
      requires library.Valid() && library.books >= 1
      modifies this, library
      ensures library.Valid()
      ensures forall p: Pool, w: nat :: old(Shows(p)) && Enabled(p, Finish(w)) ==> Shows(Do(p, Finish(w)))
    {
      totalJobsDone := totalJobsDone + 1;
      inactiveThreads := inactiveThreads + 1;
      library.Decrement();
    }
  }

  lemma {:induction false} FirstIndex(queue: seq<nat>, id: nat, i: nat)
    requires i < |queue| && queue[i] == id && id !in queue[..i]
    ensures IndexOf(queue, id) == i
  {
    if i > 0 {
      assert queue[0] in queue[..i];
      assert queue[1..][..i - 1] == queue[..i][1..];
      FirstIndex(queue[1..], id, i - 1);
    }
  }
}
