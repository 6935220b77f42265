/** What every run of an executor pool guarantees, and what it does not. */
module ExecutorTheorems {
  import opened Common
  import opened ExecutorPool
  import opened ExecutorInvariant

  function After(configured: int, es: seq<Event>): State
    requires ValidRun(Init(configured), es)
  {
    Exec(Init(configured), es)
  }

  lemma ReachableIsGood(configured: int, es: seq<Event>)
    requires ValidRun(Init(configured), es)
    ensures Inv(After(configured, es)) && After(configured, es).capacity == PoolSize(configured) * QUEUE_MULTIPLIER
  {
    RunKeepsInv(Init(configured), es);
  }

  /** Conservation: an item that was ever enqueued is in exactly one of queued, executing and answered, and has had
      at most one result; the queue never exceeds six items per worker. */
  lemma ItemsConserved(configured: int, es: seq<Event>, i: ItemId)
    requires ValidRun(Init(configured), es) && i < After(configured, es).nextItem
    ensures var s := After(configured, es);
            && (Queued(s, i) || Executing(s, i) || Answered(s, i))
            && !(Queued(s, i) && Executing(s, i)) && !(Queued(s, i) && Answered(s, i))
                && !(Executing(s, i) && Answered(s, i))
            && i in s.results && |s.results[i]| <= 1
            && |s.queue| <= PoolSize(configured) * QUEUE_MULTIPLIER
  {
    ReachableIsGood(configured, es);
    var s := After(configured, es);
    if Queued(s, i) {
      var k :| 0 <= k < |s.queue| && s.queue[k] == i;
    }
  }

  /** No two workers hold one item, and none holds an item twice over the queue. */
  lemma OneHolderPerItem(configured: int, es: seq<Event>, w: WorkerId, v: WorkerId)
    requires ValidRun(Init(configured), es)
    requires w in After(configured, es).workers && v in After(configured, es).workers
    requires Held(After(configured, es).workers[w]).Some?
              && Held(After(configured, es).workers[w]) == Held(After(configured, es).workers[v])
    ensures w == v
  {
    ReachableIsGood(configured, es);
  }

  /** A worker that holds an item can always send its result, whether or not the caller is still there, because nothing
      was ever sent on the item's channel. */
  lemma SendNeverBlocks(configured: int, es: seq<Event>, w: WorkerId)
    requires ValidRun(Init(configured), es) && w in After(configured, es).workers
    ensures var s := After(configured, es);
            && (s.workers[w].Running? ==> Enabled(s, Reply(w)))
            && (s.workers[w].Rejecting? ==> Enabled(s, DrainReply(w)))
            && (s.workers[w].Running? || s.workers[w].Rejecting? ==>
                  s.workers[w].item in s.results && s.results[s.workers[w].item] == [])
  {
    ReachableIsGood(configured, es);
    var s := After(configured, es);
    if Held(s.workers[w]).Some? {
      assert s.results[Held(s.workers[w]).value] == [];
    }
  }

  /** When a worker's drain loop returns, the queue it sees is empty and everything it removed has been
      told that the executor is shutting down, and nothing else. */
  lemma DrainAnswersWhatItRemoves(configured: int, es: seq<Event>, w: WorkerId, k: nat)
    requires ValidRun(Init(configured), es) && Enabled(After(configured, es), DrainDone(w))
    requires k < |After(configured, es).workers[w].drained|
    ensures var s := After(configured, es);
            && s.queue == []
            && s.workers[w].drained[k] in s.results && s.results[s.workers[w].drained[k]] == [ShuttingDown]
  {
    ReachableIsGood(configured, es);
    var s := After(configured, es);
    assert Drained(s.workers[w])[k] in s.results;
  }

  // Containers

  /** Every container ever created is owned by exactly one worker or has had its removal requested exactly once,
      never both. */
  lemma ContainersConserved(configured: int, es: seq<Event>, c: ContainerId)
    requires ValidRun(Init(configured), es) && c in After(configured, es).created
    ensures var s := After(configured, es);
            && s.removals[c] <= 1
            && (s.removals[c] == 0 <==> exists w :: w in s.workers && Owned(s.workers[w]) == Some(c))
            && forall w, v | w in s.workers && v in s.workers
                && Owned(s.workers[w]) == Owned(s.workers[v]) == Some(c) :: w == v
  {
    ReachableIsGood(configured, es);
  }

  /** A worker that has exited owns no container: it left none behind that it did not ask to be removed. */
  lemma ExitedOwnsNothing(configured: int, es: seq<Event>, c: ContainerId)
    requires ValidRun(Init(configured), es) && c in After(configured, es).created
    requires forall w | w in After(configured, es).workers :: After(configured, es).workers[w].Exited?
    ensures After(configured, es).removals[c] == 1
  {
    ReachableIsGood(configured, es);
  }

  /** Every item starts in a container that is fresh or has had its clean command succeed since its last item. */
  lemma ItemsStartClean(configured: int, es: seq<Event>, w: WorkerId)
    requires ValidRun(Init(configured), es) && Enabled(After(configured, es), Take(w))
    ensures var s := After(configured, es); s.workers[w].c in s.created && s.workers[w].c !in s.dirty
  {
    ReachableIsGood(configured, es);
    assert Owned(After(configured, es).workers[w]).Some?;
  }

  // What shutdown leaves behind

  predicate NoEnqueue(es: seq<Event>) {
    forall k | 0 <= k < |es| :: !es[k].Enqueue?
  }

  lemma {:induction false} EmptyStaysEmpty(s: State, es: seq<Event>)
    requires ValidRun(s, es) && s.queue == [] && NoEnqueue(es)
    ensures Exec(s, es).queue == []
    decreases |es|
  {
    if es != [] {
      assert !es[0].Enqueue?;
      assert NoEnqueue(es[1..]) by {
        forall k | 0 <= k < |es[1..]| ensures !es[1..][k].Enqueue? { assert es[1..][k] == es[k + 1]; }
      }
      QueueOnlyShrinks(s, es[0]);
      EmptyStaysEmpty(Step(s, es[0]), es[1..]);
    }
  }

  lemma QueueOnlyShrinks(s: State, e: Event)
    requires Enabled(s, e) && !e.Enqueue? && s.queue == []
    ensures Step(s, e).queue == []
  {
  }

  /** If some worker's drain ends and nothing is enqueued afterwards, then once all workers have exited every
      item has its answer. */
  lemma LateDrainAnswersAll(configured: int, es: seq<Event>, w: WorkerId, later: seq<Event>, i: ItemId)
    requires ValidRun(Init(configured), es) && Enabled(After(configured, es), DrainDone(w))
    requires ValidRun(After(configured, es), later) && NoEnqueue(later)
    requires forall v | v in Exec(After(configured, es), later).workers ::
              Exec(After(configured, es), later).workers[v].Exited?
    requires i < Exec(After(configured, es), later).nextItem
    ensures Answered(Exec(After(configured, es), later), i)
  {
    ReachableIsGood(configured, es);
    RunKeepsInv(After(configured, es), later);
    EmptyStaysEmpty(After(configured, es), later);
    NothingLeft(Exec(After(configured, es), later), i);
  }

  lemma NothingLeft(s: State, i: ItemId)
    requires ItemsOk(s) && s.queue == [] && (forall v | v in s.workers :: s.workers[v].Exited?) && i < s.nextItem
    ensures Answered(s, i)
  {
    assert !Executing(s, i);
  }

  ghost predicate AllExited(s: State) {
    forall w | w in s.workers :: s.workers[w].Exited?
  }

  /** The event leaves an item behind: it is put into the queue when all workers are gone, or the last worker goes
      while the queue is not empty. */
  ghost predicate Strands(s: State, e: Event) {
    || (e.Enqueue? && AllExited(s))
    || ((e.GiveUp? || e.Leave?) && Enabled(s, e) && AllExited(Step(s, e)) && s.queue != [])
  }

  ghost predicate Stranding(s: State, es: seq<Event>)
    requires ValidRun(s, es)
    decreases |es|
  {
    es != [] && (Strands(s, es[0]) || Stranding(Step(s, es[0]), es[1..]))
  }

  /** Once the workers are gone nothing but an enqueue touches the queue. */
  lemma AfterAllExited(s: State, e: Event)
    requires AllExited(s) && Enabled(s, e)
    ensures AllExited(Step(s, e))
    ensures Step(s, e).queue == if e.Enqueue? then s.queue + [s.nextItem] else s.queue
  {
  }

  /** The last worker goes by giving up or by leaving, and does not look at the queue then. */
  lemma LastExit(s: State, e: Event)
    requires !AllExited(s) && Enabled(s, e) && AllExited(Step(s, e))
    ensures (e.GiveUp? || e.Leave?) && Step(s, e).queue == s.queue
  {
    var w :| w in s.workers && !s.workers[w].Exited?;
    assert Step(s, e).workers[w].Exited?;
  }

  /** `was` says whether a stranding event has happened so far. */
  lemma {:induction false} QueueTellsStranding(s: State, es: seq<Event>, was: bool)
    requires ValidRun(s, es) && (if AllExited(s) then was == (s.queue != []) else !was)
    ensures AllExited(Exec(s, es)) ==> (was || Stranding(s, es) <==> Exec(s, es).queue != [])
    decreases |es|
  {
    if es != [] {
      if AllExited(s) {
        AfterAllExited(s, es[0]);
      } else if AllExited(Step(s, es[0])) {
        LastExit(s, es[0]);
      }
      QueueTellsStranding(Step(s, es[0]), es[1..], was || Strands(s, es[0]));
    }
  }

  /** For every run that ends with all workers gone: every item has its answer if and only if nothing was enqueued
      after the last worker had gone and the last worker did not go with items in the queue. */
  lemma AllAnsweredExactly(configured: int, es: seq<Event>)
    requires ValidRun(Init(configured), es) && AllExited(After(configured, es))
    ensures var s := After(configured, es);
            (forall i: ItemId | i < s.nextItem :: Answered(s, i)) <==> !Stranding(Init(configured), es)
  {
    WorkersAtFirst(configured);
    QueueTellsStranding(Init(configured), es, false);
    ReachableIsGood(configured, es);
    EmptyQueueAnswers(After(configured, es));
  }

  lemma WorkersAtFirst(configured: int)
    ensures !AllExited(Init(configured))
  {
    var ws := FreshWorkers(PoolSize(configured));
    assert ws.Keys != {};
    var w :| w in ws.Keys;
    assert Init(configured).workers[w] == NeedContainer;
  }

  lemma EmptyQueueAnswers(s: State)
    requires ItemsOk(s) && AllExited(s)
    ensures (forall i: ItemId | i < s.nextItem :: Answered(s, i)) <==> s.queue == []
  {
    if s.queue == [] {
      forall i: ItemId | i < s.nextItem ensures Answered(s, i) {
        NothingLeft(s, i);
      }
    } else {
      var i := s.queue[0];
      assert i < s.nextItem && s.results[i] == [];
      assert !Answered(s, i);
    }
  }

  /** The run ends with all workers gone and item 0 in the queue without an answer. */
  ghost predicate LeavesItem(es: seq<Event>) {
    && ValidRun(Init(1), es) && AllExited(After(1, es))
    && Queued(After(1, es), 0) && !Answered(After(1, es), 0)
  }

  /** One way: the last event of the run is the only worker giving up on its container, with the item queued. */
  lemma GivingUpLeavesItem()
    ensures exists es ::
              && ValidRun(Init(1), es) && After(1, es).workers == map[0 := Backoff] && Queued(After(1, es), 0)
              && Strands(After(1, es), GiveUp(0)) && LeavesItem(es + [GiveUp(0)])
  {
    OneWorker();
    var es := Then([], RunCheck);
    es := Then(es, Enqueue);
    assert After(1, es).queue == [0] && After(1, es).results == map[0 := []]
        && After(1, es).workers == map[0 := NeedContainer];
    es := BacksOff(es);
    assert After(1, es).queue[0] == 0;
    var end := Then(es, GiveUp(0));
    assert After(1, end).queue[0] == 0 && After(1, end).workers == map[0 := Exited];
  }

  lemma BacksOff(before: seq<Event>) returns (es: seq<Event>)
    requires ValidRun(Init(1), before) && After(1, before).workers == map[0 := NeedContainer]
    ensures ValidRun(Init(1), es) && After(1, es).workers == map[0 := Backoff] && After(1, es).shutdown
    ensures After(1, es).queue == After(1, before).queue && After(1, es).results == After(1, before).results
  {
    es := Then(before, CreateFails(0));
    assert After(1, es).workers == map[0 := Backoff];
    es := Then(es, Shutdown);
  }

  lemma OneWorker()
    ensures Init(1).workers == map[0 := NeedContainer]
  {
    assert FreshWorkers(0) == map[];
  }

  /** Another way: the last event of the run is an Enqueue, when the last worker has drained the queue and gone; the
      call
      of Run had passed its check before the shutdown. */
  lemma LateEnqueueLeavesItem()
    ensures exists es ::
              && ValidRun(Init(1), es) && AllExited(After(1, es)) && After(1, es).queue == [] && After(1, es).shutdown
              && Strands(After(1, es), Enqueue) && LeavesItem(es + [Enqueue])
  {
    OneWorker();
    var es := Then([], RunCheck);
    es := ComesUp(es);
    es := Drains(es);
    var end := Then(es, Enqueue);
    assert After(1, end).queue == [0];
    assert After(1, end).queue[0] == 0 && After(1, end).results[0] == [];
  }

  /** One call of Run is past its check, nothing is enqueued, and the only worker stands at p. */
  ghost predicate Lone(es: seq<Event>, p: Phase) {
    && ValidRun(Init(1), es) && After(1, es).workers == map[0 := p] && After(1, es).queue == []
    && After(1, es).checked == 1 && After(1, es).nextItem == 0 && After(1, es).capacity == 6
  }

  lemma ComesUp(before: seq<Event>) returns (es: seq<Event>)
    requires Lone(before, NeedContainer) && After(1, before).created == {}
    ensures Lone(es, Waiting(7)) && After(1, es).shutdown
  {
    es := Then(before, CreateOk(0, 7));
    es := Then(es, StartOk(0));
    es := Then(es, Shutdown);
    assert After(1, es).workers == map[0 := Waiting(7)];
  }

  /** The worker sees the shutdown and drains an empty queue before it leaves. */
  lemma Drains(before: seq<Event>) returns (es: seq<Event>)
    requires Lone(before, Waiting(7)) && After(1, before).shutdown
    ensures Lone(es, Exited) && After(1, es).shutdown
  {
    es := Then(before, SeeShutdown(0));
    es := Then(es, DrainDone(0));
    assert After(1, es).workers == map[0 := Leaving(7, [])];
    es := Then(es, Leave(0));
    assert After(1, es).workers == map[0 := Exited];
  }

  lemma Then(es: seq<Event>, e: Event) returns (longer: seq<Event>)
    requires ValidRun(Init(1), es) && Enabled(After(1, es), e)
    ensures ValidRun(Init(1), longer) && After(1, longer) == Step(After(1, es), e) && longer == es + [e]
  {
    ExtendRun(Init(1), es, e);
    longer := es + [e];
  }

  lemma {:induction false} ExtendRun(s: State, es: seq<Event>, e: Event)
    requires ValidRun(s, es) && Enabled(Exec(s, es), e)
    ensures ValidRun(s, es + [e]) && Exec(s, es + [e]) == Step(Exec(s, es), e)
    decreases |es|
  {
    if es == [] {
      assert (es + [e])[1..] == [];
    } else {
      assert (es + [e])[1..] == es[1..] + [e];
      ExtendRun(Step(s, es[0]), es[1..], e);
    }
  }
}
