/** What the history of an executor pool says about its answers, its order and its containers, over every run. */
module ExecutorHistory {
  import opened Common
  import opened ExecutorPool
  import opened ExecutorInvariant
  import opened ExecutorTheorems

  // First in, first out

  /** The queue holds the items enqueued last, in the order in which they came. */
  ghost predicate InOrder(s: State) {
    |s.queue| <= s.nextItem && forall k | 0 <= k < |s.queue| :: s.queue[k] == s.nextItem - |s.queue| + k
  }

  lemma StepInOrder(s: State, e: Event)
    requires InOrder(s) && Enabled(s, e)
    ensures InOrder(Step(s, e))
  {
  }

  lemma {:induction false} RunInOrder(s: State, es: seq<Event>)
    requires InOrder(s) && ValidRun(s, es)
    ensures InOrder(Exec(s, es))
    decreases |es|
  {
    if es != [] {
      StepInOrder(s, es[0]);
      RunInOrder(Step(s, es[0]), es[1..]);
    }
  }

  /** Items leave the queue in the order in which they were enqueued: an item that is still queued has all later ones
      behind it in the queue. */
  lemma FirstInFirstOut(configured: int, es: seq<Event>, i: ItemId, j: ItemId)
    requires ValidRun(Init(configured), es) && i <= j < After(configured, es).nextItem
    requires Queued(After(configured, es), i)
    ensures var s := After(configured, es);
            exists k, l :: 0 <= k <= l < |s.queue| && s.queue[k] == i && s.queue[l] == j
  {
    RunInOrder(Init(configured), es);
    var s := After(configured, es);
    var k :| 0 <= k < |s.queue| && s.queue[k] == i;
    assert s.queue[k + (j - i)] == j;
  }

  // What an answer means

  /** The items that workers took to execute, and those that drains took to turn away. */
  datatype Taken = Taken(started: set<ItemId>, turnedAway: set<ItemId>)

  function TakenBy(s: State, e: Event, t: Taken): Taken
    requires Enabled(s, e)
  {
    match e
    case Take(_) => t.(started := t.started + {s.queue[0]})
    case DrainTake(_) => t.(turnedAway := t.turnedAway + {s.queue[0]})
    case _ => t
  }

  function History(s: State, es: seq<Event>, t: Taken): Taken
    requires ValidRun(s, es)
    decreases |es|
  {
    if es == [] then t else History(Step(s, es[0]), es[1..], TakenBy(s, es[0], t))
  }

  ghost predicate Holds(s: State, t: Taken) {
    forall w | w in s.workers ::
      && (s.workers[w].Running? ==> s.workers[w].item in t.started)
      && (s.workers[w].Rejecting? ==> s.workers[w].item in t.turnedAway)
  }

  /** The answer to item i, if it has one, is the one its history calls for. */
  ghost predicate AnswerOk(s: State, t: Taken, i: ItemId) {
    && (i in s.results && s.results[i] == [Executed] ==> i in t.started)
    && (i in s.results && s.results[i] == [ShuttingDown] ==> i in t.turnedAway)
    && !(i in t.started && i in t.turnedAway)
    && (i in t.started || i in t.turnedAway ==> i !in s.queue && i < s.nextItem)
  }

  lemma StepHolds(s: State, e: Event, t: Taken)
    requires Holds(s, t) && Enabled(s, e)
    ensures Holds(Step(s, e), TakenBy(s, e, t))
  {
  }

  lemma StepAnswer(s: State, e: Event, t: Taken, i: ItemId)
    requires ItemsOk(s) && Holds(s, t) && AnswerOk(s, t, i) && Enabled(s, e)
    ensures AnswerOk(Step(s, e), TakenBy(s, e, t), i)
  {
    match e
    case Take(w) => HeadLeaves(s, i);
    case DrainTake(w) => HeadLeaves(s, i);
    case Reply(w) => OneAnswer(s, w, Executed);
    case DrainReply(w) => OneAnswer(s, w, ShuttingDown);
    case Enqueue =>
    case _ => assert Step(s, e).queue == s.queue && Step(s, e).results == s.results;
  }

  lemma OneAnswer(s: State, w: WorkerId, a: Answer)
    requires ItemsOk(s) && w in s.workers && Held(s.workers[w]).Some?
    ensures var i := Held(s.workers[w]).value;
            i in s.results && i !in s.queue && s.results[i] + [a] == [a]
                && [a] != [if a == Executed then ShuttingDown else Executed]
  {
    assert [a][0] != [if a == Executed then ShuttingDown else Executed][0];
  }

  lemma HeadLeaves(s: State, i: ItemId)
    requires ItemsOk(s) && s.queue != []
    ensures s.queue[0] !in s.queue[1..] && s.queue[0] < s.nextItem && s.results[s.queue[0]] == []
    ensures i !in s.queue ==> i !in s.queue[1..] && i != s.queue[0]
  {
    assert s.queue[0] in s.queue;
  }

  lemma {:induction false} RunAnswer(s: State, es: seq<Event>, t: Taken, i: ItemId)
    requires Inv(s) && Holds(s, t) && AnswerOk(s, t, i) && ValidRun(s, es)
    ensures AnswerOk(Exec(s, es), History(s, es, t), i)
    decreases |es|
  {
    if es != [] {
      StepKeepsInv(s, es[0]);
      StepHolds(s, es[0], t);
      StepAnswer(s, es[0], t, i);
      RunAnswer(Step(s, es[0]), es[1..], TakenBy(s, es[0], t), i);
    }
  }

  /** An item that has its answer was executed if and only if a worker took it to execute it, and was told of the
      shutdown if and only if a drain took it; never both. */
  lemma AnswersTellHistory(configured: int, es: seq<Event>, i: ItemId)
    requires ValidRun(Init(configured), es) && Answered(After(configured, es), i)
    ensures var s, t := After(configured, es), History(Init(configured), es, Taken({}, {}));
            && (s.results[i] == [Executed] <==> i in t.started)
            && (s.results[i] == [ShuttingDown] <==> i in t.turnedAway)
  {
    RunAnswer(Init(configured), es, Taken({}, {}), i);
    var a := After(configured, es).results[i];
    assert a == [a[0]] && [Executed][0] != [ShuttingDown][0];
    if a[0] != Executed {
      assert a[0] == ShuttingDown;
    }
  }

  // What is known of a container

  /** What happened to a container last: nothing yet, an item was started in it, or the check after an item found
      whether the clean command had succeeded and whether it still ran. */
  datatype Use = Fresh | Started | Checked(cleaned: bool, running: bool)

  function UseAfter(s: State, e: Event, c: ContainerId, last: Use): Use
    requires Enabled(s, e)
  {
    if e.Take? && s.workers[e.w].c == c then Started
    else if e.Clean? && s.workers[e.w].c == c then Checked(e.cleaned, e.running)
    else last
  }

  function LastUse(s: State, es: seq<Event>, c: ContainerId, last: Use): Use
    requires ValidRun(s, es)
    decreases |es|
  {
    if es == [] then last else LastUse(Step(s, es[0]), es[1..], c, UseAfter(s, es[0], c, last))
  }

  /** What a worker in this phase knows of container c. */
  predicate PhaseUse(p: Phase, c: ContainerId, last: Use) {
    && ((p.Created? || p.Waiting?) && p.c == c ==> last == Fresh || last == Checked(true, true))
    && ((p.Running? || p.Cleaning?) && p.c == c ==> last == Started)
  }

  ghost predicate UseOk(s: State, c: ContainerId, last: Use) {
    && (c !in s.created ==> last == Fresh)
    && (c in s.dirty <==> last == Started || (last.Checked? && !last.cleaned))
    && (forall w | w in s.workers :: PhaseUse(s.workers[w], c, last))
  }

  lemma TakeUse(s: State, w: WorkerId, c: ContainerId, last: Use)
    requires ContainersOk(s) && UseOk(s, c, last) && Enabled(s, Take(w))
    ensures UseOk(Step(s, Take(w)), c, UseAfter(s, Take(w), c, last))
  {
    assert Owned(s.workers[w]) == Some(s.workers[w].c);
  }

  lemma CleanUse(s: State, e: Event, c: ContainerId, last: Use)
    requires ContainersOk(s) && UseOk(s, c, last) && e.Clean? && Enabled(s, e)
    ensures UseOk(Step(s, e), c, UseAfter(s, e, c, last))
  {
    assert Owned(s.workers[e.w]) == Some(s.workers[e.w].c);
  }

  /** Events that leave the workers alone, or move one of them to a phase that fits what is known. */
  lemma OtherUse(s: State, s': State, w: WorkerId, p: Phase, c: ContainerId, last: Use)
    requires UseOk(s, c, last) && PhaseUse(p, c, last) && s'.dirty == s.dirty && s.created <= s'.created
    requires s'.workers == s.workers || s'.workers == s.workers[w := p]
    ensures UseOk(s', c, last)
  {
  }

  lemma MoveUse(s: State, e: Event, c: ContainerId, last: Use)
    requires UseOk(s, c, last) && (e.CreateOk? || e.StartOk? || e.Reply?) && Enabled(s, e)
    ensures UseOk(Step(s, e), c, last)
  {
    var p := s.workers[e.w];
    assert PhaseUse(p, c, last);
    match e
    case CreateOk(w, d) => OtherUse(s, Step(s, e), w, Created(d), c, last);
    case StartOk(w) => OtherUse(s, Step(s, e), w, Waiting(p.c), c, last);
    case Reply(w) => OtherUse(s, Step(s, e), w, Cleaning(p.c), c, last);
  }

  predicate NoWorker(e: Event) {
    e.RunCheck? || e.Enqueue? || e.Overloaded? || e.Receive? || e.CallerLeaves? || e.Shutdown?
  }

  lemma NoWorkerUse(s: State, e: Event, c: ContainerId, last: Use)
    requires UseOk(s, c, last) && NoWorker(e) && Enabled(s, e)
    ensures UseOk(Step(s, e), c, last)
  {
    OtherUse(s, Step(s, e), 0, Exited, c, last);
  }

  /** Every other event takes its worker out of the phases in which a container is about to be used. */
  lemma LetGoUse(s: State, e: Event, c: ContainerId, last: Use)
    requires UseOk(s, c, last) && !NoWorker(e) && !e.CreateOk? && !e.StartOk? && !e.Reply? && !e.Take? && !e.Clean?
    requires Enabled(s, e)
    ensures UseOk(Step(s, e), c, last)
  {
    OtherUse(s, Step(s, e), e.w, Step(s, e).workers[e.w], c, last);
  }

  lemma StepUse(s: State, e: Event, c: ContainerId, last: Use)
    requires ContainersOk(s) && UseOk(s, c, last) && Enabled(s, e)
    ensures UseOk(Step(s, e), c, UseAfter(s, e, c, last))
  {
    if e.Take? {
      TakeUse(s, e.w, c, last);
    } else if e.Clean? {
      CleanUse(s, e, c, last);
    } else if e.CreateOk? || e.StartOk? || e.Reply? {
      MoveUse(s, e, c, last);
    } else if NoWorker(e) {
      NoWorkerUse(s, e, c, last);
    } else {
      LetGoUse(s, e, c, last);
    }
  }

  lemma {:induction false} RunUse(s: State, es: seq<Event>, c: ContainerId, last: Use)
    requires Inv(s) && UseOk(s, c, last) && ValidRun(s, es)
    ensures UseOk(Exec(s, es), c, LastUse(s, es, c, last))
    decreases |es|
  {
    if es != [] {
      StepKeepsInv(s, es[0]);
      StepUse(s, es[0], c, last);
      RunUse(Step(s, es[0]), es[1..], c, UseAfter(s, es[0], c, last));
    }
  }

  /** Every item starts in a container that no item ran in before, or that was cleaned and found running after the last
      one. */
  lemma ItemsStartWhereCheckPassed(configured: int, es: seq<Event>, w: WorkerId)
    requires ValidRun(Init(configured), es) && Enabled(After(configured, es), Take(w))
    ensures var last := LastUse(Init(configured), es, After(configured, es).workers[w].c, Fresh);
            last == Fresh || last == Checked(true, true)
  {
    RunUse(Init(configured), es, After(configured, es).workers[w].c, Fresh);
  }

  /** A container is dirty if and only if an item was started in it and no clean command has succeeded since. */
  lemma DirtyExactly(configured: int, es: seq<Event>, c: ContainerId)
    requires ValidRun(Init(configured), es)
    ensures var last := LastUse(Init(configured), es, c, Fresh);
            c in After(configured, es).dirty <==> last == Started || (last.Checked? && !last.cleaned)
  {
    RunUse(Init(configured), es, c, Fresh);
  }

  /** And a worker keeps its container for the next item whenever that check passes. */
  lemma CheckedContainerIsKept(configured: int, es: seq<Event>, w: WorkerId)
    requires ValidRun(Init(configured), es) && Enabled(After(configured, es), Clean(w, true, true))
    ensures var s := After(configured, es);
            var s' := Step(s, Clean(w, true, true));
            Owned(s'.workers[w]) == Owned(s.workers[w]) && s'.removals == s.removals
                && (s'.queue != [] ==> Enabled(s', Take(w)))
  {
  }

  // Shutdown

  /** A worker is on its way out only after the shutdown, and a call past its check can always go on. */
  ghost predicate LeavesAfterShutdown(s: State) {
    forall w | w in s.workers && (s.workers[w].Draining? || s.workers[w].Rejecting? || s.workers[w].Leaving?
        || s.workers[w].Exited?) :: s.shutdown
  }

  lemma StepLeaves(s: State, e: Event)
    requires LeavesAfterShutdown(s) && Enabled(s, e)
    ensures LeavesAfterShutdown(Step(s, e)) && Step(s, e).capacity == s.capacity
  {
  }

  lemma {:induction false} RunLeaves(s: State, es: seq<Event>)
    requires LeavesAfterShutdown(s) && ValidRun(s, es)
    ensures LeavesAfterShutdown(Exec(s, es)) && Exec(s, es).capacity == s.capacity
    decreases |es|
  {
    if es != [] {
      StepLeaves(s, es[0]);
      RunLeaves(Step(s, es[0]), es[1..]);
    }
  }

  /** No worker has exited, or begun to turn items away, before the shutdown. */
  lemma WorkersStayUntilShutdown(configured: int, es: seq<Event>, w: WorkerId)
    requires ValidRun(Init(configured), es) && w in After(configured, es).workers && !After(configured, es).shutdown
    ensures !After(configured, es).workers[w].Exited? && Drained(After(configured, es).workers[w]) == []
  {
    RunLeaves(Init(configured), es);
  }

  /** A Run that has passed its check never blocks: it is enqueued exactly if fewer than six items per worker are
      queued, and told of the overload otherwise. */
  lemma CheckedRunGoesOn(configured: int, es: seq<Event>)
    requires ValidRun(Init(configured), es) && After(configured, es).checked > 0
    ensures var s := After(configured, es);
            && (Enabled(s, Enqueue) <==> |s.queue| < 6 * (if configured <= 0 then 3 else configured))
            && (Enabled(s, Overloaded) <==> !Enabled(s, Enqueue))
  {
    RunLeaves(Init(configured), es);
  }

  function RunChecks(es: seq<Event>): nat {
    if es == [] then 0 else (if es[0].RunCheck? then 1 else 0) + RunChecks(es[1..])
  }

  function Overloads(es: seq<Event>): nat {
    if es == [] then 0 else (if es[0].Overloaded? then 1 else 0) + Overloads(es[1..])
  }

  lemma {:induction false} RunAccounts(s: State, es: seq<Event>)
    requires ValidRun(s, es)
    ensures Exec(s, es).nextItem + Exec(s, es).checked + Overloads(es) == s.nextItem + s.checked + RunChecks(es)
    decreases |es|
  {
    if es != [] {
      RunAccounts(Step(s, es[0]), es[1..]);
    }
  }

  /** Every Run that passed its check is one item, one overload, or still on its way. */
  lemma RunsAccounted(configured: int, es: seq<Event>)
    requires ValidRun(Init(configured), es)
    ensures After(configured, es).nextItem + After(configured, es).checked + Overloads(es) == RunChecks(es)
  {
    RunAccounts(Init(configured), es);
  }

  lemma StepAfterShutdown(s: State, e: Event)
    requires s.shutdown && Enabled(s, e)
    ensures Step(s, e).shutdown && Step(s, e).nextItem + Step(s, e).checked <= s.nextItem + s.checked
  {
  }

  /** After the shutdown no more items get into the queue than calls of Run had passed their check by then. */
  lemma {:induction false} LateEnqueuesBounded(s: State, es: seq<Event>)
    requires s.shutdown && ValidRun(s, es)
    ensures Exec(s, es).nextItem + Exec(s, es).checked <= s.nextItem + s.checked
    decreases |es|
  {
    if es != [] {
      StepAfterShutdown(s, es[0]);
      LateEnqueuesBounded(Step(s, es[0]), es[1..]);
    }
  }
}
