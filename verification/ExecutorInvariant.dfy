/** What holds in every run of an executor pool: items are conserved, containers are owned, reuse is clean. */
module ExecutorInvariant {
  import opened Common
  import opened ExecutorPool

  function Held(p: Phase): Option<ItemId> {
    match p
    case Running(_, i) => Some(i)
    case Rejecting(_, i, _) => Some(i)
    case _ => None
  }

  function Owned(p: Phase): Option<ContainerId> {
    if p.NeedContainer? || p.Backoff? || p.Exited? then None else Some(p.c)
  }

  function Drained(p: Phase): seq<ItemId> {
    if p.Draining? || p.Rejecting? || p.Leaving? then p.drained else []
  }

  // Items

  ghost predicate Queued(s: State, i: ItemId) {
    i in s.queue
  }

  ghost predicate Executing(s: State, i: ItemId) {
    exists w :: w in s.workers && Held(s.workers[w]) == Some(i)
  }

  ghost predicate Answered(s: State, i: ItemId) {
    i in s.results && |s.results[i]| == 1
  }

  ghost predicate ItemsOk(s: State) {
    && (forall i: ItemId :: i in s.results <==> i < s.nextItem)
    && (forall i: ItemId :: i in s.callers <==> i < s.nextItem)
    && (forall k | 0 <= k < |s.queue| :: s.queue[k] < s.nextItem && s.results[s.queue[k]] == [])
    && (forall k, l | 0 <= k < l < |s.queue| :: s.queue[k] != s.queue[l])
    && (forall w | w in s.workers && Held(s.workers[w]).Some? ::
          Held(s.workers[w]).value < s.nextItem && s.results[Held(s.workers[w]).value] == []
              && Held(s.workers[w]).value !in s.queue)
    && (forall w, v | w in s.workers && v in s.workers && Held(s.workers[w]).Some?
          && Held(s.workers[w]) == Held(s.workers[v]) :: w == v)
    && (forall i: ItemId | i < s.nextItem :: Queued(s, i) || Executing(s, i) || Answered(s, i))
    && (forall i | i in s.results :: |s.results[i]| <= 1)
    && (forall i | i in s.callers && s.callers[i].Received? :: s.results[i] != [])
    && |s.queue| <= s.capacity
  }

  // Containers

  ghost predicate ContainersOk(s: State) {
    && (forall w | w in s.workers && Owned(s.workers[w]).Some? ::
          Owned(s.workers[w]).value in s.created && s.removals[Owned(s.workers[w]).value] == 0)
    && (forall w, v | w in s.workers && v in s.workers && Owned(s.workers[w]).Some?
          && Owned(s.workers[w]) == Owned(s.workers[v]) :: w == v)
    && (forall c | c in s.created ::
          s.removals[c] == 1 || (s.removals[c] == 0 && exists w :: w in s.workers && Owned(s.workers[w]) == Some(c)))
    && (forall c | c in s.removals :: c in s.created)
    && s.dirty <= s.created
    && (forall w | w in s.workers && (s.workers[w].Created? || s.workers[w].Waiting?) :: s.workers[w].c !in s.dirty)
  }

  // Drains

  ghost predicate DrainsOk(s: State) {
    forall w | w in s.workers ::
      forall k | 0 <= k < |Drained(s.workers[w])| ::
        Drained(s.workers[w])[k] in s.results && s.results[Drained(s.workers[w])[k]] == [ShuttingDown]
  }

  ghost predicate Inv(s: State) {
    ItemsOk(s) && ContainersOk(s) && DrainsOk(s)
  }

  // Items, event by event

  /** Events that leave the queue and the results alone and keep what each worker holds. */
  lemma ItemsUntouched(s: State, s': State)
    requires ItemsOk(s)
    requires s'.queue == s.queue && s'.results == s.results && s'.nextItem == s.nextItem && s'.capacity == s.capacity
    requires s'.workers.Keys == s.workers.Keys && forall w | w in s.workers :: Held(s'.workers[w]) == Held(s.workers[w])
    requires s'.callers.Keys == s.callers.Keys
    requires forall i | i in s'.callers && s'.callers[i].Received? :: s.results[i] != []
    ensures ItemsOk(s')
  {
    forall i: ItemId | i < s'.nextItem ensures Queued(s', i) || Executing(s', i) || Answered(s', i) {
      if Executing(s, i) {
        var w :| w in s.workers && Held(s.workers[w]) == Some(i);
        assert Held(s'.workers[w]) == Some(i);
      }
    }
  }

  lemma EnqueueItems(s: State)
    requires ItemsOk(s) && Enabled(s, Enqueue)
    ensures ItemsOk(Step(s, Enqueue))
  {
    var s' := Step(s, Enqueue);
    assert s'.queue[|s.queue|] == s.nextItem;
    assert forall k | 0 <= k < |s.queue| :: s'.queue[k] == s.queue[k];
    forall i: ItemId | i < s'.nextItem ensures Queued(s', i) || Executing(s', i) || Answered(s', i) {
      EnqueuePlaces(s, i);
    }
  }

  lemma EnqueuePlaces(s: State, i: ItemId)
    requires ItemsOk(s) && Enabled(s, Enqueue) && i <= s.nextItem
    ensures var s' := Step(s, Enqueue); Queued(s', i) || Executing(s', i) || Answered(s', i)
  {
    var s' := Step(s, Enqueue);
    if i < s.nextItem && Executing(s, i) {
      var w :| w in s.workers && Held(s.workers[w]) == Some(i);
      assert Held(s'.workers[w]) == Some(i);
    }
  }

  /** A worker takes the head of the queue, to run it or to reject it. */
  lemma TakeItems(s: State, w: WorkerId, p: Phase)
    requires ItemsOk(s) && s.queue != [] && w in s.workers && Held(s.workers[w]).None? && Held(p) == Some(s.queue[0])
    ensures ItemsOk(Put(s, w, p).(queue := s.queue[1..]))
  {
    var s' := Put(s, w, p).(queue := s.queue[1..]);
    assert forall k | 0 <= k < |s'.queue| :: s'.queue[k] == s.queue[k + 1];
    forall i: ItemId | i < s'.nextItem ensures Queued(s', i) || Executing(s', i) || Answered(s', i) {
      if Queued(s, i) {
        if i == s.queue[0] {
          assert Held(s'.workers[w]) == Some(i);
        } else {
          var k :| 0 <= k < |s.queue| && s.queue[k] == i;
          assert s'.queue[k - 1] == i;
        }
      } else if Executing(s, i) {
        var v :| v in s.workers && Held(s.workers[v]) == Some(i);
        assert Held(s'.workers[v]) == Some(i);
      }
    }
  }

  /** A worker answers the item it holds. */
  lemma ReplyItems(s: State, w: WorkerId, a: Answer, p: Phase)
    requires ItemsOk(s) && w in s.workers && Held(s.workers[w]).Some? && Held(p).None?
    ensures ItemsOk(Put(Send(s, Held(s.workers[w]).value, a), w, p))
  {
    var i0 := Held(s.workers[w]).value;
    var s' := Put(Send(s, i0, a), w, p);
    assert s'.results[i0] == [a];
    forall i: ItemId | i < s'.nextItem ensures Queued(s', i) || Executing(s', i) || Answered(s', i) {
      if i != i0 && Executing(s, i) {
        var v :| v in s.workers && Held(s.workers[v]) == Some(i);
        assert Held(s'.workers[v]) == Some(i);
      }
    }
  }

  lemma TakeToRun(s: State, w: WorkerId)
    requires ItemsOk(s) && Enabled(s, Take(w))
    ensures ItemsOk(Step(s, Take(w)))
  {
    var taken := Put(s, w, Running(s.workers[w].c, s.queue[0])).(queue := s.queue[1..]);
    TakeItems(s, w, Running(s.workers[w].c, s.queue[0]));
    ItemsUntouched(taken, Step(s, Take(w)));
  }

  lemma StepKeepsItems(s: State, e: Event)
    requires ItemsOk(s) && Enabled(s, e)
    ensures ItemsOk(Step(s, e))
  {
    match e
    case Enqueue => EnqueueItems(s);
    case Take(w) => TakeToRun(s, w);
    case DrainTake(w) => TakeItems(s, w, Rejecting(s.workers[w].c, s.queue[0], s.workers[w].drained));
    case Reply(w) => ReplyItems(s, w, Executed, Cleaning(s.workers[w].c));
    case DrainReply(w) => ReplyItems(s, w, ShuttingDown,
        Draining(s.workers[w].c, s.workers[w].drained + [s.workers[w].item]));
    case _ => QuietItems(s, e);
  }

  lemma QuietItems(s: State, e: Event)
    requires ItemsOk(s) && Enabled(s, e)
    requires !e.Enqueue? && !e.Take? && !e.DrainTake? && !e.Reply? && !e.DrainReply?
    ensures ItemsOk(Step(s, e))
  {
    QuietChannels(s, e);
    QuietHolders(s, e);
    QuietCallers(s, e);
    ItemsUntouched(s, Step(s, e));
  }

  lemma QuietChannels(s: State, e: Event)
    requires Enabled(s, e) && !e.Enqueue? && !e.Take? && !e.DrainTake? && !e.Reply? && !e.DrainReply?
    ensures var s' := Step(s, e);
            s'.queue == s.queue && s'.results == s.results && s'.nextItem == s.nextItem && s'.capacity == s.capacity
  {
  }

  lemma QuietHolders(s: State, e: Event)
    requires Enabled(s, e) && !e.Enqueue? && !e.Take? && !e.DrainTake? && !e.Reply? && !e.DrainReply?
    ensures Step(s, e).workers.Keys == s.workers.Keys
    ensures forall w | w in s.workers :: Held(Step(s, e).workers[w]) == Held(s.workers[w])
  {
  }

  lemma QuietCallers(s: State, e: Event)
    requires Enabled(s, e) && !e.Enqueue?
    ensures Step(s, e).callers.Keys == s.callers.Keys
    ensures forall i | i in Step(s, e).callers && Step(s, e).callers[i].Received? ::
              s.callers[i].Received? || (i in s.results && s.results[i] != [])
  {
  }

  // Containers, event by event

  /** Events that create and remove nothing and keep what each worker owns. */
  lemma ContainersUntouched(s: State, s': State)
    requires ContainersOk(s)
    requires s'.created == s.created && s'.removals == s.removals && s'.dirty <= s.created
    requires s'.workers.Keys == s.workers.Keys && forall w | w in s.workers ::
              Owned(s'.workers[w]) == Owned(s.workers[w])
    requires forall w | w in s'.workers && (s'.workers[w].Created? || s'.workers[w].Waiting?) ::
              s'.workers[w].c !in s'.dirty
    ensures ContainersOk(s')
  {
    forall c | c in s'.created && s'.removals[c] != 1
      ensures s'.removals[c] == 0 && exists w :: w in s'.workers && Owned(s'.workers[w]) == Some(c)
    {
      var w :| w in s.workers && Owned(s.workers[w]) == Some(c);
      assert Owned(s'.workers[w]) == Some(c);
    }
  }

  lemma CreateContainers(s: State, w: WorkerId, c: ContainerId)
    requires ContainersOk(s) && Enabled(s, CreateOk(w, c))
    ensures ContainersOk(Step(s, CreateOk(w, c)))
  {
    var s' := Step(s, CreateOk(w, c));
    assert Owned(s'.workers[w]) == Some(c);
    forall d | d in s'.created && s'.removals[d] != 1
      ensures s'.removals[d] == 0 && exists v :: v in s'.workers && Owned(s'.workers[v]) == Some(d)
    {
      if d != c {
        var v :| v in s.workers && Owned(s.workers[v]) == Some(d);
        assert Owned(s'.workers[v]) == Some(d);
      }
    }
  }

  /** A worker requests the removal of its container and goes on without one. */
  lemma RemoveContainers(s: State, w: WorkerId, p: Phase)
    requires ContainersOk(s) && w in s.workers && Owned(s.workers[w]).Some? && Owned(p).None?
    ensures ContainersOk(Put(s, w, p).(removals := s.removals + multiset{Owned(s.workers[w]).value}))
  {
    var c := Owned(s.workers[w]).value;
    var s' := Put(s, w, p).(removals := s.removals + multiset{c});
    forall d | d in s'.created && s'.removals[d] != 1
      ensures s'.removals[d] == 0 && exists v :: v in s'.workers && Owned(s'.workers[v]) == Some(d)
    {
      if d != c {
        var v :| v in s.workers && Owned(s.workers[v]) == Some(d);
        assert Owned(s'.workers[v]) == Some(d);
      }
    }
  }

  lemma StepKeepsContainers(s: State, e: Event)
    requires ContainersOk(s) && Enabled(s, e)
    ensures ContainersOk(Step(s, e))
  {
    match e
    case CreateOk(w, c) => CreateContainers(s, w, c);
    case StartFails(w) => RemoveContainers(s, w, Backoff);
    case Remove(w) => RemoveContainers(s, w, NeedContainer);
    case Leave(w) => RemoveContainers(s, w, Exited);
    case _ => QuietContainers(s, e);
  }

  lemma QuietContainers(s: State, e: Event)
    requires ContainersOk(s) && Enabled(s, e)
    requires !e.CreateOk? && !e.StartFails? && !e.Remove? && !e.Leave?
    ensures ContainersOk(Step(s, e))
  {
    if e.Take? || e.Clean? {
      DirtContainers(s, e);
    } else {
      OwnersKept(s, e);
      ContainersUntouched(s, Step(s, e));
    }
  }

  /** Starting an item soils its container, and a clean command that succeeds undoes that. */
  lemma DirtContainers(s: State, e: Event)
    requires ContainersOk(s) && Enabled(s, e) && (e.Take? || e.Clean?)
    ensures ContainersOk(Step(s, e))
  {
    DirtStaysOff(s, e);
    ContainersUntouched(s, Step(s, e));
  }

  lemma DirtStaysOff(s: State, e: Event)
    requires ContainersOk(s) && Enabled(s, e) && (e.Take? || e.Clean?)
    ensures var s' := Step(s, e);
            && s'.dirty <= s.created
            && (forall w | w in s.workers :: Owned(s'.workers[w]) == Owned(s.workers[w]))
            && (forall w | w in s'.workers && (s'.workers[w].Created? || s'.workers[w].Waiting?) ::
                  s'.workers[w].c !in s'.dirty)
  {
    assert Owned(s.workers[e.w]) == Some(s.workers[e.w].c);
  }

  lemma OwnersKept(s: State, e: Event)
    requires Enabled(s, e)
    requires !e.CreateOk? && !e.StartFails? && !e.Remove? && !e.Leave? && !e.Take? && !e.Clean?
    ensures var s' := Step(s, e);
            && s'.created == s.created && s'.removals == s.removals && s'.dirty == s.dirty
            && s'.workers.Keys == s.workers.Keys
            && (forall w | w in s.workers :: Owned(s'.workers[w]) == Owned(s.workers[w]))
            && (forall w | w in s'.workers && (s'.workers[w].Created? || s'.workers[w].Waiting?) ::
                  (s.workers[w].Created? || s.workers[w].Waiting?) && s'.workers[w].c == s.workers[w].c)
  {
    ContainersAlone(s, e);
    forall w | w in s.workers ensures WorkerKept(s.workers[w], Step(s, e).workers[w]) {
      WorkerMoves(s, e, w);
    }
  }

  lemma ContainersAlone(s: State, e: Event)
    requires Enabled(s, e)
    requires !e.CreateOk? && !e.StartFails? && !e.Remove? && !e.Leave? && !e.Take? && !e.Clean?
    ensures var s' := Step(s, e);
            && s'.created == s.created && s'.removals == s.removals && s'.dirty == s.dirty
            && s'.workers.Keys == s.workers.Keys
  {
  }

  /** The worker owns what it owned, and if it stands ready with a container it already did. */
  ghost predicate WorkerKept(p: Phase, q: Phase) {
    && Owned(q) == Owned(p)
    && (q.Created? || q.Waiting? ==> (p.Created? || p.Waiting?) && q.c == p.c)
  }

  lemma WorkerMoves(s: State, e: Event, w: WorkerId)
    requires Enabled(s, e) && w in s.workers
    requires !e.CreateOk? && !e.StartFails? && !e.Remove? && !e.Leave? && !e.Take? && !e.Clean?
    ensures w in Step(s, e).workers && WorkerKept(s.workers[w], Step(s, e).workers[w])
  {
  }

  // Drains

  lemma StepKeepsDrains(s: State, e: Event)
    requires ItemsOk(s) && DrainsOk(s) && Enabled(s, e)
    ensures DrainsOk(Step(s, e))
  {
    var s' := Step(s, e);
    forall w, k | w in s'.workers && 0 <= k < |Drained(s'.workers[w])|
      ensures Drained(s'.workers[w])[k] in s'.results && s'.results[Drained(s'.workers[w])[k]] == [ShuttingDown]
    {
      DrainKept(s, e, w, k);
    }
  }

  lemma DrainKept(s: State, e: Event, w: WorkerId, k: nat)
    requires ItemsOk(s) && DrainsOk(s) && Enabled(s, e)
    requires w in Step(s, e).workers && k < |Drained(Step(s, e).workers[w])|
    ensures var i := Drained(Step(s, e).workers[w])[k];
            i in Step(s, e).results && Step(s, e).results[i] == [ShuttingDown]
  {
    if e.DrainReply? && e.w == w && k == |Drained(s.workers[w])| {
      assert s.results[s.workers[w].item] == [];
    } else {
      DrainedBefore(s, e, w, k);
      AnswersStay(s, e, Drained(s.workers[w])[k]);
    }
  }

  /** Only its own reply adds to what a worker has drained. */
  lemma DrainedBefore(s: State, e: Event, w: WorkerId, k: nat)
    requires Enabled(s, e) && w in Step(s, e).workers && k < |Drained(Step(s, e).workers[w])|
    requires !(e.DrainReply? && e.w == w && k == |Drained(s.workers[w])|)
    ensures w in s.workers && k < |Drained(s.workers[w])|
              && Drained(Step(s, e).workers[w])[k] == Drained(s.workers[w])[k]
  {
  }

  /** Nobody sends on a channel that has had its answer. */
  lemma AnswersStay(s: State, e: Event, i: ItemId)
    requires ItemsOk(s) && Enabled(s, e) && i in s.results && s.results[i] != []
    ensures i in Step(s, e).results && Step(s, e).results[i] == s.results[i]
  {
    match e
    case Reply(w) => assert s.results[s.workers[w].item] == [];
    case DrainReply(w) => assert s.results[s.workers[w].item] == [];
    case _ =>
  }

  lemma StepKeepsInv(s: State, e: Event)
    requires Inv(s) && Enabled(s, e)
    ensures Inv(Step(s, e))
  {
    StepKeepsItems(s, e);
    StepKeepsContainers(s, e);
    StepKeepsDrains(s, e);
  }

  lemma {:induction false} RunKeepsInv(s: State, es: seq<Event>)
    requires Inv(s) && ValidRun(s, es)
    ensures Inv(Exec(s, es)) && Exec(s, es).capacity == s.capacity
    decreases |es|
  {
    if es != [] {
      StepKeepsInv(s, es[0]);
      RunKeepsInv(Step(s, es[0]), es[1..]);
    }
  }
}
