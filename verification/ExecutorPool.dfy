/** One language pool of the executor (internal/executor/docker_executor.go): its bounded queue, the callers of
    Run, the worker loops with the containers they own, and the shutdown. Docker is an oracle that may
    fail and that never returns a container id twice. Pools of different languages share none of this. */
module ExecutorPool {
  type ItemId = nat
  type WorkerId = nat
  type ContainerId = nat

  datatype Answer = Executed | ShuttingDown

  /** Where a worker stands. `drained` lists the items its drain loop has removed so far. */
  datatype Phase =
    | NeedContainer
    | Backoff
    | Created(c: ContainerId)
    | Waiting(c: ContainerId)
    | Running(c: ContainerId, item: ItemId)
    | Cleaning(c: ContainerId)
    | Condemned(c: ContainerId)
    | Draining(c: ContainerId, drained: seq<ItemId>)
    | Rejecting(c: ContainerId, item: ItemId, drained: seq<ItemId>)
    | Leaving(c: ContainerId, drained: seq<ItemId>)
    | Exited

  datatype Caller = Expecting | Received | Gone

  /** `checked` counts the Run calls past their shutdown check; `results[i]` is everything ever sent on the result
      channel of item i; `removals` the removal requests made; `dirty` the containers an item was started in and that
      no clean command has succeeded in since. */
  datatype State = State(
    capacity: nat,
    queue: seq<ItemId>,
    checked: nat,
    nextItem: nat,
    results: map<ItemId, seq<Answer>>,
    callers: map<ItemId, Caller>,
    workers: map<WorkerId, Phase>,
    shutdown: bool,
    created: set<ContainerId>,
    removals: multiset<ContainerId>,
    dirty: set<ContainerId>)

  const QUEUE_MULTIPLIER := 6
  const DEFAULT_POOL_SIZE := 3

  /** initPools: a pool size that is not positive counts as the default. */
  function PoolSize(configured: int): nat {
    if configured <= 0 then DEFAULT_POOL_SIZE else configured
  }

  function Init(configured: int): State {
    State(PoolSize(configured) * QUEUE_MULTIPLIER, [], 0, 0, map[], map[],
          FreshWorkers(PoolSize(configured)), false, {}, multiset{}, {})
  }

  function FreshWorkers(size: nat): (ws: map<WorkerId, Phase>)
    ensures forall w | w in ws :: w < size && ws[w] == NeedContainer
    ensures |ws| == size
  {
    if size == 0 then map[] else FreshWorkers(size - 1)[size - 1 := NeedContainer]
  }

  datatype Event =
    | RunCheck
    | Enqueue
    | Overloaded
    | Receive(i: ItemId)
    | CallerLeaves(i: ItemId)
    | CreateFails(w: WorkerId)
    | CreateOk(w: WorkerId, c: ContainerId)
    | StartFails(w: WorkerId)
    | StartOk(w: WorkerId)
    | Retry(w: WorkerId)
    | GiveUp(w: WorkerId)
    | Take(w: WorkerId)
    | Reply(w: WorkerId)
    | Clean(w: WorkerId, cleaned: bool, running: bool)
    | Remove(w: WorkerId)
    | SeeShutdown(w: WorkerId)
    | DrainTake(w: WorkerId)
    | DrainReply(w: WorkerId)
    | DrainDone(w: WorkerId)
    | Leave(w: WorkerId)
    | Shutdown

  predicate Enabled(s: State, e: Event) {
    match e
    case RunCheck => !s.shutdown
    case Enqueue => s.checked > 0 && |s.queue| < s.capacity
    case Overloaded => s.checked > 0 && |s.queue| >= s.capacity
    case Receive(i) => i in s.callers && s.callers[i].Expecting? && i in s.results && s.results[i] != []
    case CallerLeaves(i) => i in s.callers && s.callers[i].Expecting?
    case CreateFails(w) => w in s.workers && s.workers[w].NeedContainer?
    case CreateOk(w, c) => w in s.workers && s.workers[w].NeedContainer? && c !in s.created
    case StartFails(w) => w in s.workers && s.workers[w].Created?
    case StartOk(w) => w in s.workers && s.workers[w].Created?
    case Retry(w) => w in s.workers && s.workers[w].Backoff?
    case GiveUp(w) => w in s.workers && s.workers[w].Backoff? && s.shutdown
    case Take(w) => w in s.workers && s.workers[w].Waiting? && s.queue != []
    case Reply(w) => w in s.workers && s.workers[w].Running? && SendReady(s, s.workers[w].item)
    case Clean(w, _, _) => w in s.workers && s.workers[w].Cleaning?
    case Remove(w) => w in s.workers && s.workers[w].Condemned?
    case SeeShutdown(w) => w in s.workers && s.workers[w].Waiting? && s.shutdown
    case DrainTake(w) => w in s.workers && s.workers[w].Draining? && s.queue != []
    case DrainReply(w) => w in s.workers && s.workers[w].Rejecting? && SendReady(s, s.workers[w].item)
    case DrainDone(w) => w in s.workers && s.workers[w].Draining? && s.queue == []
    case Leave(w) => w in s.workers && s.workers[w].Leaving?
    case Shutdown => true
  }

  /** The result channel of item i has room: it buffers one result, and a received one no longer counts. */
  predicate SendReady(s: State, i: ItemId) {
    && i in s.results && i in s.callers
    && |s.results[i]| - (if s.callers[i].Received? then 1 else 0) < 1
  }

  function Put(s: State, w: WorkerId, p: Phase): State {
    s.(workers := s.workers[w := p])
  }

  function Send(s: State, i: ItemId, a: Answer): State
    requires i in s.results
  {
    s.(results := s.results[i := s.results[i] + [a]])
  }

  function Step(s: State, e: Event): State
    requires Enabled(s, e)
  {
    match e
    case RunCheck => s.(checked := s.checked + 1)
    case Enqueue =>
      s.(checked := s.checked - 1, queue := s.queue + [s.nextItem], nextItem := s.nextItem + 1,
         results := s.results[s.nextItem := []], callers := s.callers[s.nextItem := Expecting])
    case Overloaded => s.(checked := s.checked - 1)
    case Receive(i) => s.(callers := s.callers[i := Received])
    case CallerLeaves(i) => s.(callers := s.callers[i := Gone])
    case CreateFails(w) => Put(s, w, Backoff)
    case CreateOk(w, c) => Put(s, w, Created(c)).(created := s.created + {c})
    case StartFails(w) => Put(s, w, Backoff).(removals := s.removals + multiset{s.workers[w].c})
    case StartOk(w) => Put(s, w, Waiting(s.workers[w].c))
    case Retry(w) => Put(s, w, NeedContainer)
    case GiveUp(w) => Put(s, w, Exited)
    case Take(w) =>
      var c := s.workers[w].c;
      Put(s, w, Running(c, s.queue[0])).(queue := s.queue[1..], dirty := s.dirty + {c})
    case Reply(w) => Put(Send(s, s.workers[w].item, Executed), w, Cleaning(s.workers[w].c))
    case Clean(w, cleaned, running) =>
      var c := s.workers[w].c;
      Put(s, w, if cleaned && running then Waiting(c) else Condemned(c))
        .(dirty := if cleaned then s.dirty - {c} else s.dirty)
    case Remove(w) => Put(s, w, NeedContainer).(removals := s.removals + multiset{s.workers[w].c})
    case SeeShutdown(w) => Put(s, w, Draining(s.workers[w].c, []))
    case DrainTake(w) => Put(s, w, Rejecting(s.workers[w].c, s.queue[0], s.workers[w].drained)).(queue := s.queue[1..])
    case DrainReply(w) =>
      var p := s.workers[w];
      Put(Send(s, p.item, ShuttingDown), w, Draining(p.c, p.drained + [p.item]))
    case DrainDone(w) => Put(s, w, Leaving(s.workers[w].c, s.workers[w].drained))
    case Leave(w) => Put(s, w, Exited).(removals := s.removals + multiset{s.workers[w].c})
    case Shutdown => s.(shutdown := true)
  }

  predicate ValidRun(s: State, es: seq<Event>)
    decreases |es|
  {
    es == [] || (Enabled(s, es[0]) && ValidRun(Step(s, es[0]), es[1..]))
  }

  function Exec(s: State, es: seq<Event>): State
    requires ValidRun(s, es)
    decreases |es|
  {
    if es == [] then s else Exec(Step(s, es[0]), es[1..])
  }
}
