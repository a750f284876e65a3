/** Chunk requests: players subscribe to loading chunks, jobs of the pool generate them and deliver them
    (Dimension.cpp). Generation leaves its chunk ready, and the pool is neither stopped nor emptied by cancelAll. */
module Requests {
  import opened Sequences
  import opened ThreadPool

  type Player = nat
  type ChunkPos = (int, int)

  datatype Request = Request(job: nat, players: seq<Player>)

  datatype Event =
    | Subscribed(pos: ChunkPos, player: Player)
    | Unsubscribed(pos: ChunkPos, player: Player)
    | Delivered(pos: ChunkPos, job: nat, players: seq<Player>)

  /** The pool, the loading chunks, which jobs are requests and for where, which of them have sent, which players
      no longer exist, and everything that happened. */
  datatype State = State(
    pool: Pool,
    loading: map<ChunkPos, Request>,
    posOf: map<nat, ChunkPos>,
    sent: set<nat>,
    gone: set<Player>,
    log: seq<Event>)

  datatype Action =
    | Load(pos: ChunkPos, player: Player)       // loadOrGenerateChunk, up to the push of the job
    | Unload(pos: ChunkPos, player: Player)     // removePlayerFromLoadingChunk
    | Leave(player: Player)                     // the last strong reference to the player goes
    | Send(w: nat)                              // sendChunkToPlayers, in the job that worker w runs
    | PoolStep(step: Step)                      // any other step of the pool

  function Start(threads: nat): State {
    State(Initial(threads), map[], map[], {}, {}, [])
  }

  /** A player joins a request once. */
  function Joined(players: seq<Player>, player: Player): seq<Player> {
    if player in players then players else players + [player]
  }

  /** remove_if: the player and every player that is gone. */
  function Remaining(players: seq<Player>, player: Player, gone: set<Player>): (r: seq<Player>)
    ensures forall q :: q in r <==> q in players && q != player && q !in gone
    ensures Distinct(players) ==> Distinct(r)
  {
    if players == [] then []
    else
      var front := Remaining(players[..|players| - 1], player, gone);
      var q := players[|players| - 1];
      assert players == players[..|players| - 1] + [q];
      if q == player || q in gone then front else front + [q]
  }

  /** The players the delivery loop reaches. */
  function Reached(players: seq<Player>, gone: set<Player>): (r: seq<Player>)
    ensures forall q :: q in r <==> q in players && q !in gone
    ensures Distinct(players) ==> Distinct(r)
  {
    if players == [] then []
    else
      var front := Reached(players[..|players| - 1], gone);
      var q := players[|players| - 1];
      assert players == players[..|players| - 1] + [q];
      if q in gone then front else front + [q]
  }

  lemma NobodyLeft(players: seq<Player>, player: Player, gone: set<Player>)
    ensures players == [] ==> Reached(players, gone) == [] && Remaining(players, player, gone) == []
  {}

  lemma RemainingNext(players: seq<Player>, i: nat, player: Player, gone: set<Player>)
    requires i < |players|
    ensures var front, q := Remaining(players[..i], player, gone), players[i];
            Remaining(players[..i + 1], player, gone) == if q == player || q in gone then front else front + [q]
  {
    assert players[..i + 1][..i] == players[..i];
  }

  lemma ReachedNext(players: seq<Player>, i: nat, gone: set<Player>)
    requires i < |players|
    ensures Reached(players[..i + 1], gone) ==
            if players[i] in gone then Reached(players[..i], gone) else Reached(players[..i], gone) + [players[i]]
  {
    assert players[..i + 1][..i] == players[..i];
  }

  predicate Possible(s: State, a: Action) {
    match a
    case Load(_, player) => player !in s.gone
    case Unload(_, player) => player !in s.gone
    case Leave(_) => true
    case Send(w) =>
      w < |s.pool.workers| && s.pool.workers[w].Running? && s.pool.workers[w].job in s.posOf
          && s.pool.workers[w].job !in s.sent
    case PoolStep(step) =>
      && ThreadPool.Enabled(s.pool, step) && CarriesWork(step) && !step.CancelJob? && !step.CancelAll?
      // the worker of a request job is done with it only after its send
      && (step.Finish? ==> s.pool.workers[step.w].job in s.posOf ==> s.pool.workers[step.w].job in s.sent)
  }

  function Perform(s: State, a: Action): State
    requires Possible(s, a)
  {
    match a
    case Load(pos, player) =>
      var log := s.log + [Subscribed(pos, player)];
      if pos in s.loading then
        var r := s.loading[pos];
        s.(loading := s.loading[pos := r.(players := Joined(r.players, player))], log := log)
      else
        var pool := ThreadPool.Do(s.pool, Push(1));
        var id := pool.pushed;
        s.(pool := pool, loading := s.loading[pos := Request(id, [player])], posOf := s.posOf[id := pos], log := log)
    case Unload(pos, player) =>
      var log := s.log + [Unsubscribed(pos, player)];
      if pos !in s.loading then s.(log := log)
      else
        var r := s.loading[pos];
        var players := Remaining(r.players, player, s.gone);
        if players == [] && r.job in s.pool.queue then
          s.(pool := ThreadPool.Do(s.pool, CancelJob(r.job)), loading := s.loading - {pos}, log := log)
        else
          s.(loading := s.loading[pos := r.(players := players)], log := log)
    case Leave(player) => s.(gone := s.gone + {player})
    case Send(w) =>
      var job := s.pool.workers[w].job;
      var pos := s.posOf[job];
      var players := if pos in s.loading then Reached(s.loading[pos].players, s.gone) else [];
      s.(loading := s.loading - {pos}, sent := s.sent + {job}, log := s.log + [Delivered(pos, job, players)])
    case PoolStep(step) => s.(pool := ThreadPool.Do(s.pool, step))
  }

  /** Who wants the chunk, by history alone: asked since its last delivery, and has not taken it back. */
  function Subscribers(log: seq<Event>, pos: ChunkPos): set<Player> {
    if log == [] then {} else AfterEvent(Subscribers(log[..|log| - 1], pos), log[|log| - 1], pos)
  }

  function AfterEvent(before: set<Player>, e: Event, pos: ChunkPos): set<Player> {
    match e
    case Subscribed(p, player) => if p == pos then before + {player} else before
    case Unsubscribed(p, player) => if p == pos then before - {player} else before
    case Delivered(p, _, _) => if p == pos then {} else before
  }

  /** A request job that has not sent yet: it is queued or running. */
  ghost predicate Live(s: State, id: nat) {
    id in s.posOf && id !in s.sent && (id in s.pool.queue || IsRunning(s.pool, id))
  }

  /** Loading entries and live request jobs correspond one to one. */
  ghost predicate EntriesAreLiveJobs(s: State) {
    && (forall pos :: pos in s.loading ==> Live(s, s.loading[pos].job) && s.posOf[s.loading[pos].job] == pos)
    && (forall id: nat :: Live(s, id) ==> s.posOf[id] in s.loading && s.loading[s.posOf[id]].job == id)
  }

  /** A job is sent at most once, never before it runs, and a finished or running request job that is not live has
      sent. */
  ghost predicate SendsAreRuns(s: State) {
    && (forall id: nat :: id in s.posOf ==> 1 <= id <= s.pool.pushed)
    && (forall id: nat :: id in s.sent ==> id in s.posOf && (IsRunning(s.pool, id) || id in s.pool.finished))
    && (forall id: nat :: id in s.posOf && id in s.pool.finished ==> id in s.sent)
  }

  /** An entry lists, once each, the players that history says want the chunk (those gone aside). */
  ghost predicate EntriesAreSubscribers(s: State) {
    && (forall pos :: pos in s.loading ==> Distinct(s.loading[pos].players))
    && (forall pos, q :: q !in s.gone ==>
          (q in Subscribers(s.log, pos) <==> pos in s.loading && q in s.loading[pos].players))
  }

  /** Deliveries in the log: one for each job that has sent. */
  ghost predicate DeliveredOnce(s: State) {
    && (forall i :: 0 <= i < |s.log| && s.log[i].Delivered? ==> s.log[i].job in s.sent)
    && (forall i, j :: 0 <= i < j < |s.log| && s.log[i].Delivered? && s.log[j].Delivered? ==>
         s.log[i].job != s.log[j].job)
  }

  ghost predicate Inv(s: State) {
    && ThreadPool.Inv(s.pool)
    && EntriesAreLiveJobs(s) && SendsAreRuns(s) && EntriesAreSubscribers(s) && DeliveredOnce(s)
  }

  lemma LogGrows(log: seq<Event>, e: Event)
    ensures (log + [e])[..|log|] == log && (log + [e])[|log|] == e
  {}

  // ----- Subscriptions -----

  lemma SubscribersKept(s: State, a: Action)
    requires EntriesAreSubscribers(s) && Possible(s, a) && !a.PoolStep? && !a.Leave?
    ensures EntriesAreSubscribers(Perform(s, a))
  {
    hide ThreadPool.Do, ThreadPool.Enabled, Subscribers, Distinct, Joined, Reached;
    var t := Perform(s, a);
    var e := t.log[|s.log|];
    assert t.log == s.log + [e];
    forall pos ensures Subscribers(t.log, pos) == AfterEvent(Subscribers(s.log, pos), e, pos) {
      LogNext(s.log, e, pos);
    }
    if a.Load? {
      OneIsDistinct(a.player);
      if a.pos in s.loading { JoinedHas(s.loading[a.pos].players, a.player); }
    }
  }

  lemma LogNext(log: seq<Event>, e: Event, pos: ChunkPos)
    ensures Subscribers(log + [e], pos) == AfterEvent(Subscribers(log, pos), e, pos)
  {
    LogGrows(log, e);
  }

  lemma JoinedHas(players: seq<Player>, player: Player)
    ensures forall q :: q in Joined(players, player) <==> q in players || q == player
    ensures Distinct(players) ==> Distinct(Joined(players, player))
  {}

  lemma OneIsDistinct(player: Player)
    ensures Distinct([player])
  {}

  lemma DeliveriesKept(s: State, a: Action)
    requires DeliveredOnce(s) && Possible(s, a)
    ensures DeliveredOnce(Perform(s, a))
  {
    hide ThreadPool.Do, ThreadPool.Enabled;
  }

  // ----- Entries and jobs -----

  ghost predicate JobInv(s: State) {
    ThreadPool.Inv(s.pool) && EntriesAreLiveJobs(s) && SendsAreRuns(s)
  }

  lemma LoadKeepsJobs(s: State, pos: ChunkPos, player: Player)
    requires JobInv(s) && Possible(s, Load(pos, player))
    ensures JobInv(Perform(s, Load(pos, player)))
  {
    hide ThreadPool.Inv, Joined;
    if pos in s.loading {
      var t := Perform(s, Load(pos, player));
      assert forall id: nat :: Live(t, id) <==> Live(s, id);
    } else {
      NewRequestKeepsJobs(s, pos, player);
    }
  }

  /** What pushing a job changes. */
  lemma PushStep(p: Pool)
    requires ThreadPool.Inv(p)
    ensures var q := ThreadPool.Do(p, Push(1));
            && ThreadPool.Inv(q) && q.finished == p.finished && q.pushed == p.pushed + 1
            && q.pushed !in p.queue && !IsRunning(p, q.pushed) && q.pushed !in p.finished
            && (forall id: nat :: IsRunning(q, id) <==> IsRunning(p, id))
            && (forall id: nat :: id in q.queue <==> id in p.queue || id == q.pushed)
  {
    StepKeepsInv(p, Push(1));
    var q := ThreadPool.Do(p, Push(1));
    assert q.queue[|p.queue|] == q.pushed;
    assert forall id: nat :: IsRunning(q, id) <==> IsRunning(p, id);
  }

  lemma NewRequestKeepsJobs(s: State, pos: ChunkPos, player: Player)
    requires JobInv(s) && Possible(s, Load(pos, player)) && pos !in s.loading
    ensures JobInv(Perform(s, Load(pos, player)))
  {
    hide ThreadPool.Inv, ThreadPool.Do, IsRunning;
    PushStep(s.pool);
    var t := Perform(s, Load(pos, player));
    assert forall id: nat :: Live(t, id) <==> Live(s, id) || id == t.pool.pushed;
  }

  lemma UnloadKeepsJobs(s: State, pos: ChunkPos, player: Player)
    requires JobInv(s) && Possible(s, Unload(pos, player))
    ensures JobInv(Perform(s, Unload(pos, player)))
  {
    hide Remaining, NoStrandedJob, BooksBalance, StartedOnce, ThreadPool.Inv;
    var t := Perform(s, Unload(pos, player));
    if pos in s.loading && t.loading == s.loading - {pos} {
      var job := s.loading[pos].job;
      CancelStep(s.pool, job);
      assert forall id: nat :: Live(t, id) <==> Live(s, id) && id != job;
    } else {
      assert forall id: nat :: Live(t, id) <==> Live(s, id);
    }
  }

  /** What cancelling a queued job changes. */
  lemma CancelStep(p: Pool, job: nat)
    requires ThreadPool.Inv(p) && job in p.queue
    ensures var q := ThreadPool.Do(p, CancelJob(job));
            && ThreadPool.Inv(q) && q.finished == p.finished && q.pushed == p.pushed && !IsRunning(p, job)
            && (forall id: nat :: IsRunning(q, id) <==> IsRunning(p, id))
            && (forall id: nat :: id in q.queue <==> id in p.queue && id != job)
  {
    StepKeepsInv(p, ThreadPool.Step.CancelJob(job));
    WithoutIds(p.queue, IndexOf(p.queue, job));
    var q := ThreadPool.Do(p, CancelJob(job));
    assert forall id: nat :: IsRunning(q, id) <==> IsRunning(p, id);
  }

  lemma SendKeepsJobs(s: State, w: nat)
    requires JobInv(s) && Possible(s, Send(w))
    ensures JobInv(Perform(s, Send(w)))
  {
    hide Reached, ThreadPool.Inv;
    var t := Perform(s, Send(w));
    var job := s.pool.workers[w].job;
    assert IsRunning(s.pool, job) && Live(s, job);
    assert forall id: nat :: Live(t, id) <==> Live(s, id) && id != job;
  }

  /** What the other pool steps do to the places of jobs: a queued job may start, a running one may finish. */
  lemma PoolMoves(p: Pool, step: Step)
    requires ThreadPool.Inv(p) && ThreadPool.Enabled(p, step) && CarriesWork(step) && !step.CancelJob?
               && !step.CancelAll?
    ensures var q := ThreadPool.Do(p, step);
            && ThreadPool.Inv(q) && p.pushed <= q.pushed
            && (forall id: nat :: id <= p.pushed && !(step.Finish? && p.workers[step.w].job == id) ==>
                  (id in q.queue || IsRunning(q, id) <==> id in p.queue || IsRunning(p, id))
                      && (id in q.finished <==> id in p.finished)
                  && (IsRunning(p, id) ==> IsRunning(q, id)))
            && (step.Finish? ==> p.workers[step.w].job in q.finished)
            && p.finished <= q.finished
  {
    StepKeepsInv(p, step);
    var q := ThreadPool.Do(p, step);
    match step
    case Acquire(w) => RunningAfter(p, w, HasPermit); SameWorkers(p.(workers := q.workers), q);
    case Take(w, prio) =>
      TakeMoves(p, w, prio);
    case Finish(w) => RunningAfter(p, w, Idle); SameWorkers(p.(workers := q.workers), q);
    case _ => SameWorkers(p, q);
  }

  lemma TakeMoves(p: Pool, w: nat, prio: nat -> int)
    requires ThreadPool.Inv(p) && ThreadPool.Enabled(p, Take(w, prio))
    ensures var q := ThreadPool.Do(p, Take(w, prio));
            forall id: nat :: (id in q.queue || IsRunning(q, id) <==> id in p.queue || IsRunning(p, id))
                && (IsRunning(p, id) ==> IsRunning(q, id))
  {
    hide Least;
    var q := ThreadPool.Do(p, Take(w, prio));
    RunningAfter(p, w, q.workers[w]);
    SameWorkers(p.(workers := q.workers), q);
    if p.queue != [] { WithoutIds(p.queue, Least(p.queue, prio)); }
  }

  lemma SameWorkers(p: Pool, q: Pool)
    requires p.workers == q.workers
    ensures forall id: nat :: IsRunning(p, id) <==> IsRunning(q, id)
  {}

  lemma PoolStepKeepsJobs(s: State, step: Step)
    requires JobInv(s) && Possible(s, PoolStep(step))
    ensures JobInv(Perform(s, PoolStep(step)))
  {
    hide ThreadPool.Inv, ThreadPool.Do, IsRunning;
    PoolMoves(s.pool, step);
    var t := Perform(s, PoolStep(step));
    assert forall id: nat :: Live(t, id) <==> Live(s, id);
  }

  // ----- Every step, every run -----

  lemma ActionKeepsInv(s: State, a: Action)
    requires Inv(s) && Possible(s, a)
    ensures Inv(Perform(s, a))
  {
    hide ThreadPool.Inv, ThreadPool.Do, ThreadPool.Enabled, Live, SendsAreRuns;
    DeliveriesKept(s, a);
    match a
    case Load(pos, player) => SubscribersKept(s, a); LoadKeepsJobs(s, pos, player);
    case Unload(pos, player) => SubscribersKept(s, a); UnloadKeepsJobs(s, pos, player);
    case Leave(player) => LeaveKeepsJobs(s, player);
    case Send(w) => SubscribersKept(s, a); SendKeepsJobs(s, w);
    case PoolStep(step) => PoolStepKeepsJobs(s, step);
  }

  lemma LeaveKeepsJobs(s: State, player: Player)
    requires JobInv(s)
    ensures JobInv(Perform(s, Leave(player)))
  {
    hide ThreadPool.Inv;
    var t := Perform(s, Leave(player));
    assert forall id: nat :: Live(t, id) <==> Live(s, id);
  }

  ghost predicate Legal(s: State, actions: seq<Action>)
    decreases actions
  {
    actions == [] || (Possible(s, actions[0]) && Legal(Perform(s, actions[0]), actions[1..]))
  }

  ghost function Run(s: State, actions: seq<Action>): State
    requires Legal(s, actions)
    decreases actions
  {
    if actions == [] then s else Run(Perform(s, actions[0]), actions[1..])
  }

  lemma {:induction false} RunKeepsInv(s: State, actions: seq<Action>)
    requires Inv(s) && Legal(s, actions)
    ensures Inv(Run(s, actions))
    ensures s.sent <= Run(s, actions).sent && s.log <= Run(s, actions).log
    decreases actions
  {
    hide Inv, Possible, ThreadPool.Do;
    if actions != [] {
      ActionKeepsInv(s, actions[0]);
      assert s.log <= Perform(s, actions[0]).log;
      RunKeepsInv(Perform(s, actions[0]), actions[1..]);
    }
  }

  /** Every reachable state, from any number of workers and in any interleaving: every loading chunk has exactly
      one live job and every live job its chunk, no chunk has two, and entries are what history asks for. */
  lemma ReachableStates(threads: nat, actions: seq<Action>)
    requires Legal(Start(threads), actions)
    ensures var s := Run(Start(threads), actions);
            && Inv(s)
            && forall a: nat, b: nat :: Live(s, a) && Live(s, b) && s.posOf[a] == s.posOf[b] ==> a == b
  {
    hide ThreadPool.Inv, Possible, Perform, Live, SendsAreRuns, EntriesAreSubscribers, DeliveredOnce;
    StartInv(threads);
    RunKeepsInv(Start(threads), actions);
  }

  lemma StartInv(threads: nat)
    ensures Inv(Start(threads))
  {
    hide ThreadPool.Inv;
    InitialInv(threads);
    assert forall id: nat :: !Live(Start(threads), id);
  }

  /** A send delivers, once each, to exactly the players that asked for the chunk since its last delivery, did not
      take it back and still exist. Afterwards nobody waits for the chunk, and the job never sends again. */
  lemma SendIsExact(s: State, w: nat, actions: seq<Action>)
    requires Inv(s) && Possible(s, Send(w)) && Legal(Perform(s, Send(w)), actions)
    ensures var job := s.pool.workers[w].job; var pos := s.posOf[job]; var t := Perform(s, Send(w));
            exists to: seq<Player> ::
              && t.log == s.log + [Delivered(pos, job, to)] && Distinct(to)
              && (forall q :: q in to <==> q in Subscribers(s.log, pos) && q !in s.gone)
    ensures var job := s.pool.workers[w].job; var pos := s.posOf[job]; var t := Perform(s, Send(w));
            pos !in t.loading && Subscribers(t.log, pos) == {} && job !in s.sent && job in Run(t, actions).sent
    ensures Inv(Run(Perform(s, Send(w)), actions))
  {
    hide ThreadPool.Inv, SendsAreRuns, DeliveredOnce, Inv;
    SendReaches(s, w);
    ActionKeepsInv(s, Send(w));
    RunKeepsInv(Perform(s, Send(w)), actions);
  }

  /** The one step of a send. */
  lemma SendReaches(s: State, w: nat)
    requires Inv(s) && Possible(s, Send(w))
    ensures var job := s.pool.workers[w].job; var pos := s.posOf[job]; var t := Perform(s, Send(w));
            exists to: seq<Player> ::
              && t.log == s.log + [Delivered(pos, job, to)] && Distinct(to)
              && (forall q :: q in to <==> q in Subscribers(s.log, pos) && q !in s.gone)
    ensures var job := s.pool.workers[w].job; var pos := s.posOf[job]; var t := Perform(s, Send(w));
            pos !in t.loading && Subscribers(t.log, pos) == {} && job in t.sent
  {
    hide ThreadPool.Inv, SendsAreRuns, DeliveredOnce;
    var job := s.pool.workers[w].job;
    var pos := s.posOf[job];
    var t := Perform(s, Send(w));
    assert IsRunning(s.pool, job) && Live(s, job);
    var to := Reached(s.loading[pos].players, s.gone);
    assert t.log == s.log + [Delivered(pos, job, to)];
    LogGrows(s.log, Delivered(pos, job, to));
  }

  /** Nobody is forgotten: a player that waits has a live job for the chunk, and while that job is queued there is
      a permit for it in the semaphore, with a worker, or on its way. */
  lemma WaitingIsServed(s: State, pos: ChunkPos, player: Player)
    requires Inv(s) && player in Subscribers(s.log, pos) && player !in s.gone
    ensures pos in s.loading && Live(s, s.loading[pos].job) && s.posOf[s.loading[pos].job] == pos
    ensures s.loading[pos].job in s.pool.queue ==> s.pool.counter + PermitCount(s.pool.workers) + s.pool.pending >= 1
  {}

  /** The assumption on generation is needed: a job that ends without its send leaves an entry nobody serves. */
  lemma FailedGenerationStrands(s: State, w: nat)
    requires Inv(s) && Possible(s, Send(w))
    ensures !EntriesAreLiveJobs(s.(pool := ThreadPool.Do(s.pool, Finish(w))))
  {
    var job := s.pool.workers[w].job;
    assert IsRunning(s.pool, job) && Live(s, job);
    var t := s.(pool := ThreadPool.Do(s.pool, Finish(w)));
    StepKeepsInv(s.pool, Finish(w));
    assert !Live(t, job);
  }

  // ----- The object -----

  class Dimension {
    var loadingChunks: map<ChunkPos, Request>
    const generationPool: PriorityThreadPool

    ghost predicate Shows(s: State)
      reads this, generationPool, generationPool.jobSemaphore, generationPool.library
    {
      loadingChunks == s.loading && generationPool.Shows(s.pool)
    }

    constructor (pool: PriorityThreadPool)
      ensures loadingChunks == map[] && generationPool == pool
    {
      loadingChunks, generationPool := map[], pool;
    }

    /** Load, and the release that follows a push. */
    method LoadOrGenerateChunk(pos: ChunkPos, player: Player)
      modifies this, generationPool, generationPool.jobSemaphore
      ensures forall s: State :: old(Shows(s)) && player !in s.gone ==>
                var t := Perform(s, Load(pos, player));
                Shows(if pos in s.loading then t else t.(pool := ThreadPool.Do(t.pool, Release(1))))
    {
      if pos in loadingChunks {
        var request := loadingChunks[pos];
        var i := 0;
        while i < |request.players| && request.players[i] != player
          invariant i <= |request.players| && player !in request.players[..i]
        {
          i := i + 1;
        }
        if i == |request.players| {
          assert request.players[..i] == request.players;
          loadingChunks := loadingChunks[pos := request.(players := request.players + [player])];
        }
        assert loadingChunks == old(loadingChunks)[pos := request.(players := Joined(request.players, player))];
        return;
      }
      var id := generationPool.AddJob(1);
      loadingChunks := loadingChunks[pos := Request(id, [player])];
    }

    method RemovePlayerFromLoadingChunk(pos: ChunkPos, player: Player, gone: set<Player>)
      modifies this, generationPool, generationPool.jobSemaphore
      ensures forall s: State :: old(Shows(s)) && gone == s.gone && player !in gone ==>
                Shows(Perform(s, Unload(pos, player)))
    {
      hide TakenAway, Without, IndexOf, Least, Remaining;
      if pos !in loadingChunks { return; }
      var request := loadingChunks[pos];
      var players: seq<Player> := [];
      NobodyLeft(request.players[..0], player, gone);
      for i := 0 to |request.players|
        invariant players == Remaining(request.players[..i], player, gone)
        modifies {}
      {
        var q := request.players[i];
        RemainingNext(request.players, i, player, gone);
        if !(q == player || q in gone) { players := players + [q]; }
      }
      assert request.players[..|request.players|] == request.players;
      loadingChunks := loadingChunks[pos := request.(players := players)];
      if players == [] {
        var cancelled := generationPool.CancelJob(request.job);
        if cancelled {
          loadingChunks := loadingChunks - {pos};
          assert loadingChunks == old(loadingChunks) - {pos};
        } else {
          assert forall s: State :: old(Shows(s)) ==> ThreadPool.Do(s.pool, CancelJob(request.job)) == s.pool;
        }
      }
    }

    method SendChunkToPlayers(pos: ChunkPos, gone: set<Player>) returns (reached: seq<Player>)
      modifies this
      ensures forall s: State, w: nat ::
                old(Shows(s)) && gone == s.gone && Possible(s, Send(w)) && s.posOf[s.pool.workers[w].job] == pos ==>
                && Shows(Perform(s, Send(w)))
                && Perform(s, Send(w)).log == s.log + [Delivered(pos, s.pool.workers[w].job, reached)]
    {
      hide Reached, Subscribers, ThreadPool.Do;
      reached := [];
      var players := if pos in loadingChunks then loadingChunks[pos].players else [];
      NobodyLeft(players[..0], 0, gone);
      for i := 0 to |players|
        invariant reached == Reached(players[..i], gone)
        modifies {}
      {
        ReachedNext(players, i, gone);
        if players[i] !in gone { reached := reached + [players[i]]; }
      }
      assert players[..|players|] == players;
      NobodyLeft(players, 0, gone);
      loadingChunks := loadingChunks - {pos};
    }
  }
}
