/** What giving up a chunk does: the job of a chunk that nobody wants any more is cancelled while it is queued. */
module Unloading {
  import opened Sequences
  import opened Requests
  import ThreadPool

  /** Does a player that still exists want the chunk? */
  ghost predicate Wanted(s: State, pos: ChunkPos) {
    exists q :: q in Subscribers(s.log, pos) && q !in s.gone
  }

  /** Entry and job of every other chunk, and of this one up to its list of players, are as before. */
  ghost predicate SameJobs(s: State, t: State) {
    t.pool == s.pool && t.loading.Keys == s.loading.Keys && forall p :: p in s.loading ==>
        t.loading[p].job == s.loading[p].job
  }

  lemma RemainingAreWanted(s: State, pos: ChunkPos, player: Player)
    requires Inv(s) && Possible(s, Unload(pos, player)) && pos in s.loading
    ensures Remaining(s.loading[pos].players, player, s.gone) == [] <==> !Wanted(Perform(s, Unload(pos, player)), pos)
  {
    hide ThreadPool.Inv, SendsAreRuns, DeliveredOnce, EntriesAreLiveJobs, Subscribers, Remaining, ThreadPool.Do;
    var t := Perform(s, Unload(pos, player));
    var r := Remaining(s.loading[pos].players, player, s.gone);
    LogNext(s.log, Unsubscribed(pos, player), pos);
    assert t.log == s.log + [Unsubscribed(pos, player)] && t.gone == s.gone;
    assert Subscribers(t.log, pos) == Subscribers(s.log, pos) - {player};
    forall q ensures q in r <==> q in Subscribers(t.log, pos) && q !in s.gone {}
    if r != [] { assert r[0] in r; }
  }

  /** One step: if after it nobody wants the chunk and its job is still queued, entry and job go, and the job counts as
      cancelled. In every other case entry and job stay. */
  lemma UnloadIsExact(s: State, pos: ChunkPos, player: Player)
    requires Inv(s) && Possible(s, Unload(pos, player))
    ensures var t := Perform(s, Unload(pos, player));
            if pos in s.loading && !Wanted(t, pos) && s.loading[pos].job in s.pool.queue then
              && t.loading == s.loading - {pos}
              && s.loading[pos].job in t.pool.cancelled && s.loading[pos].job !in t.pool.queue
              && (forall id :: id in s.pool.queue && id != s.loading[pos].job ==> id in t.pool.queue)
            else SameJobs(s, t)
  {
    hide Inv, Subscribers, Remaining, Wanted;
    if pos in s.loading {
      RemainingAreWanted(s, pos, player);
      if s.loading[pos].job in s.pool.queue {
        PoolOf(s);
        CancelledJob(s.pool, s.loading[pos].job);
      }
    }
  }

  lemma PoolOf(s: State)
    requires Inv(s)
    ensures ThreadPool.Inv(s.pool)
  {}

  lemma CancelledJob(p: ThreadPool.Pool, job: nat)
    requires ThreadPool.Inv(p) && job in p.queue
    ensures var q := ThreadPool.Do(p, ThreadPool.CancelJob(job));
            && job in q.cancelled && job !in q.queue
            && forall id :: id in p.queue && id != job ==> id in q.queue
  {
    CancelStep(p, job);
  }

  lemma {:induction false} CancelledStays(s: State, actions: seq<Action>)
    requires Legal(s, actions)
    ensures s.pool.cancelled <= Run(s, actions).pool.cancelled
    decreases actions
  {
    if actions != [] { CancelledStays(Perform(s, actions[0]), actions[1..]); }
  }

  /** In every state that can be reached: a chunk that nobody wants after an unload, and whose job no worker has
      begun, is given up. Its entry is gone, its job is cancelled, and the job is started in no continuation. */
  lemma UnwantedChunkIsNeverGenerated(threads: nat, past: seq<Action>, pos: ChunkPos, player: Player,
      future: seq<Action>)
    requires Legal(Start(threads), past)
    requires var s := Run(Start(threads), past);
             && Possible(s, Unload(pos, player)) && Legal(Perform(s, Unload(pos, player)), future)
             && pos in s.loading && s.loading[pos].job in s.pool.queue && !Wanted(Perform(s, Unload(pos, player)), pos)
    ensures var s := Run(Start(threads), past);
            var t := Perform(s, Unload(pos, player));
            && t.loading == s.loading - {pos} && s.loading[pos].job in t.pool.cancelled
            && s.loading[pos].job !in Run(t, future).pool.started
  {
    hide Inv, Wanted, Perform, Possible;
    StartInv(threads);
    RunKeepsInv(Start(threads), past);
    var s := Run(Start(threads), past);
    UnloadIsExact(s, pos, player);
    ActionKeepsInv(s, Unload(pos, player));
    var t := Perform(s, Unload(pos, player));
    CancelledStays(t, future);
    RunKeepsInv(t, future);
    PoolOf(Run(t, future));
    NotStarted(Run(t, future).pool, s.loading[pos].job);
  }

  lemma NotStarted(p: ThreadPool.Pool, id: nat)
    requires ThreadPool.Inv(p) && id in p.cancelled
    ensures id !in p.started
  {}
}
