/** Nobody waits in vain: from every reachable state the workers alone can deliver a chunk to each player that waits
    for it. */
module Delivery {
  import opened Requests
  import ThreadPool
  import StrandedJobs

  ghost predicate Waits(s: State, pos: ChunkPos, player: Player) {
    player in Subscribers(s.log, pos) && player !in s.gone
  }

  /** Only workers act, and releases that are on their way arrive: nobody asks, takes back or leaves. */
  predicate OnlyWork(actions: seq<Action>) {
    forall k :: 0 <= k < |actions| ==> IsWorkAction(actions[k])
  }

  predicate IsWorkAction(a: Action) {
    a.Send? || (a.PoolStep? && StrandedJobs.IsWork(a.step))
  }

  /** A delivery of the chunk to the player is in the later log and not in the earlier one. */
  ghost predicate DeliveredSince(before: seq<Event>, after: seq<Event>, pos: ChunkPos, player: Player) {
    exists k :: |before| <= k < |after| && after[k].Delivered? && after[k].pos == pos && player in after[k].players
  }

  /** The request jobs that have not sent. */
  ghost function Unsent(s: State): set<nat> {
    s.posOf.Keys - s.sent
  }

  /** The job of the chunk runs: its send reaches the player. */
  lemma SendServes(s: State, pos: ChunkPos, player: Player, w: nat)
    requires Inv(s) && Waits(s, pos, player) && pos in s.loading
    requires w < |s.pool.workers| && s.pool.workers[w] == ThreadPool.Running(s.loading[pos].job)
    ensures Possible(s, Send(w)) && DeliveredSince(s.log, Perform(s, Send(w)).log, pos, player)
  {
    hide ThreadPool.Inv, SendsAreRuns, DeliveredOnce, Inv, Subscribers;
    WaitingIsServed(s, pos, player);
    var t := Perform(s, Send(w));
    SendReaches(s, w);
    assert t.log[|s.log|].players == Reached(s.loading[pos].players, s.gone);
    EntryHas(s, pos, player);
  }

  lemma EntryHas(s: State, pos: ChunkPos, player: Player)
    requires Inv(s) && Waits(s, pos, player)
    ensures pos in s.loading && player in s.loading[pos].players
  {
    hide ThreadPool.Inv, SendsAreRuns, DeliveredOnce, EntriesAreLiveJobs, Subscribers;
  }

  /** A worker that runs a job for another chunk sends first; the player goes on waiting. */
  lemma OtherSend(s: State, pos: ChunkPos, player: Player, w: nat)
    requires Inv(s) && Waits(s, pos, player) && pos in s.loading && s.loading[pos].job in s.pool.queue
               && Possible(s, Send(w))
    ensures var t := Perform(s, Send(w));
            Waits(t, pos, player) && t.pool == s.pool && s.log <= t.log && |Unsent(t)| < |Unsent(s)|
  {
    hide ThreadPool.Inv, SendsAreRuns, DeliveredOnce, EntriesAreSubscribers, EntriesAreLiveJobs, Inv;
    var job, t := s.pool.workers[w].job, Perform(s, Send(w));
    OtherChunk(s, pos, w);
    LogGrows(s.log, t.log[|s.log|]);
    assert Unsent(t) == Unsent(s) - {job} && job in Unsent(s);
  }

  /** Two live jobs are for two chunks, so the running one is not for the chunk whose job is queued. */
  lemma OtherChunk(s: State, pos: ChunkPos, w: nat)
    requires Inv(s) && pos in s.loading && s.loading[pos].job in s.pool.queue && Possible(s, Send(w))
    ensures s.posOf[s.pool.workers[w].job] != pos
  {
    hide DeliveredOnce, EntriesAreSubscribers, ThreadPool.BooksBalance, ThreadPool.StartedOnce,
         ThreadPool.NoStrandedJob;
    var job := s.pool.workers[w].job;
    assert ThreadPool.IsRunning(s.pool, job) && Live(s, job);
    assert s.loading[pos].job != job;
  }

  lemma WorkStep(s: State, pos: ChunkPos, player: Player, step: ThreadPool.Step)
    requires Waits(s, pos, player) && ThreadPool.Enabled(s.pool, step) && StrandedJobs.IsWork(step)
    requires step.Finish? && s.pool.workers[step.w].job in s.posOf ==> s.pool.workers[step.w].job in s.sent
    ensures Possible(s, PoolStep(step))
    ensures var t := Perform(s, PoolStep(step));
            Waits(t, pos, player) && t.pool == ThreadPool.Do(s.pool, step) && t.log == s.log && Unsent(t) == Unsent(s)
  {
    hide ThreadPool.Do, ThreadPool.Enabled;
  }

  ghost predicate Nearer(t: State, s: State) {
    || (StrandedJobs.Closer(t.pool, s.pool) && Unsent(t) == Unsent(s))
    || (t.pool == s.pool && |Unsent(t)| < |Unsent(s)|)
  }

  /** The job of the chunk is queued: the next action that brings its start closer. */
  lemma Advance(s: State, pos: ChunkPos, player: Player) returns (a: Action)
    requires Inv(s) && s.pool.workers != [] && Waits(s, pos, player) && pos in s.loading
               && s.loading[pos].job in s.pool.queue
    ensures IsWorkAction(a) && Possible(s, a)
    ensures var t := Perform(s, a); Waits(t, pos, player) && t.pool.workers != [] && s.log <= t.log && Nearer(t, s)
  {
    hide ThreadPool.Do, ThreadPool.Enabled, StrandedJobs.Closer, Waits, EntriesAreLiveJobs, SendsAreRuns, DeliveredOnce,
         EntriesAreSubscribers;
    var step := StrandedJobs.Progress(s.pool);
    if step.Finish? && s.pool.workers[step.w].job in s.posOf && s.pool.workers[step.w].job !in s.sent {
      FinishRuns(s.pool, step.w);
      a := Send(step.w);
      OtherSend(s, pos, player, step.w);
    } else {
      a := PoolStep(step);
      WorkStep(s, pos, player, step);
    }
  }

  lemma FinishRuns(p: ThreadPool.Pool, w: nat)
    requires ThreadPool.Enabled(p, ThreadPool.Finish(w))
    ensures w < |p.workers| && p.workers[w].Running?
  {}

  /** Some run of the workers delivers the chunk. */
  lemma {:induction false} Serve(s: State, pos: ChunkPos, player: Player) returns (actions: seq<Action>)
    requires Inv(s) && s.pool.workers != [] && Waits(s, pos, player)
    ensures OnlyWork(actions) && Legal(s, actions) && DeliveredSince(s.log, Run(s, actions).log, pos, player)
    decreases |s.pool.queue|, s.pool.pending, s.pool.counter, ThreadPool.RunningCount(s.pool.workers), |Unsent(s)|
  {
    hide Inv, Possible, Perform, Subscribers;
    WaitingIsServed(s, pos, player);
    var job := s.loading[pos].job;
    if job in s.pool.queue {
      var a := Advance(s, pos, player);
      ActionKeepsInv(s, a);
      var t := Perform(s, a);
      var rest := Serve(t, pos, player);
      actions := [a] + rest;
      assert actions[1..] == rest;
    } else {
      var w: nat :| w < |s.pool.workers| && s.pool.workers[w] == ThreadPool.Running(job);
      SendServes(s, pos, player, w);
      actions := [Send(w)];
      assert actions[1..] == [];
    }
  }

  lemma {:induction false} RunKeepsWorkers(s: State, actions: seq<Action>)
    requires Legal(s, actions)
    ensures |Run(s, actions).pool.workers| == |s.pool.workers|
    decreases actions
  {
    if actions != [] { RunKeepsWorkers(Perform(s, actions[0]), actions[1..]); }
  }

  /** In every state that any number of workers can reach: whoever waits for a chunk and still exists gets it in some
      run in which only the workers act. */
  lemma WaitingCanBeServed(threads: nat, past: seq<Action>, pos: ChunkPos, player: Player)
    requires threads >= 1 && Legal(Start(threads), past) && Waits(Run(Start(threads), past), pos, player)
    ensures var s := Run(Start(threads), past);
            exists actions :: OnlyWork(actions) && Legal(s, actions)
                && DeliveredSince(s.log, Run(s, actions).log, pos, player)
  {
    hide Inv, Waits, OnlyWork, DeliveredSince, Legal, Run;
    StartInv(threads);
    RunKeepsInv(Start(threads), past);
    RunKeepsWorkers(Start(threads), past);
    var actions := Serve(Run(Start(threads), past), pos, player);
  }
}
