/** The queue operations and the worker's calls of internal/executor/docker_executor.go, each running alone. */
module ExecutorWorker {
  import opened Common
  import opened ExecutorPool

  class LangPool {
    const capacity: nat
    var queue: seq<ItemId>
    var results: map<ItemId, seq<Answer>>

    /** Every queued item is there once and its result channel is still empty. */
    ghost predicate Valid()
      reads this
    {
      && |queue| <= capacity
      && (forall i | i in queue :: i in results && results[i] == [])
      && (forall k, l | 0 <= k < l < |queue| :: queue[k] != queue[l])
    }

    constructor (configured: int)
      ensures Valid() && queue == [] && results == map[]
      ensures capacity == if configured <= 0 then 18 else 6 * configured
    {
      capacity := PoolSize(configured) * QUEUE_MULTIPLIER;
      queue, results := [], map[];
    }

    /** The enqueueing part of Run: a fresh result channel and a send that fails when the queue is full. */
    method Offer(i: ItemId) returns (ok: bool)
      requires Valid() && i !in results
      modifies this
      ensures Valid()
      ensures ok <==> |old(queue)| < capacity
      ensures queue == if ok then old(queue) + [i] else old(queue)
      ensures results == if ok then old(results)[i := []] else old(results)
    {
      if |queue| >= capacity {
        return false;
      }
      queue := queue + [i];
      results := results[i := []];
      ok := true;
    }

    /** drainQueueWithShutdown: everything queued is told so, once, and the queue is left empty. */
    method DrainQueueWithShutdown()
      requires Valid()
      modifies this`queue, this`results
      ensures Valid() && queue == []
      ensures results.Keys == old(results).Keys
      ensures forall i | i in results :: results[i] == if i in old(queue) then [ShuttingDown] else old(results)[i]
    {
      var done := 0;
      while queue != []
        invariant done <= |old(queue)| && queue == old(queue)[done..]
        invariant Valid() && results.Keys == old(results).Keys
        invariant forall i | i in results ::
                  results[i] == if i in old(queue)[..done] then [ShuttingDown] else old(results)[i]
        decreases |queue|
      {
        var item := queue[0];
        assert item == old(queue)[done] && results[item] == [];
        assert old(queue)[..done + 1] == old(queue)[..done] + [item];
        queue := queue[1..];
        results := results[item := results[item] + [ShuttingDown]];
        done := done + 1;
      }
      assert old(queue)[..done] == old(queue);
    }

    /** processNextItem: `toShutdown` is the choice of the select when shutdown is signalled. The container is worth
        keeping exactly when the clean command succeeded and it still runs. */
    method ProcessNextItem(toShutdown: bool, cleaned: bool, running: bool) returns (alive: bool, goOn: bool)
      requires Valid() && (toShutdown || queue != [])
      modifies this`queue, this`results
      ensures Valid()
      ensures goOn <==> !toShutdown
      ensures toShutdown ==>
                && !alive && queue == [] && results.Keys == old(results).Keys
                && forall i | i in results :: results[i] == if i in old(queue) then [ShuttingDown] else old(results)[i]
      ensures !toShutdown ==>
                && alive == (cleaned && running)
                && queue == old(queue)[1..]
                && results == old(results)[old(queue)[0] := [Executed]]
    {
      if toShutdown {
        DrainQueueWithShutdown();
        return false, false;
      }
      var item := queue[0];
      assert item in queue && results[item] + [Executed] == [Executed];
      queue := queue[1..];
      results := results[item := results[item] + [Executed]];
      return cleaned && running, true;
    }
  }

  /** One turn of acquireContainer's loop as Docker and the shutdown signal decide it: the create fails, or the start of
      container c fails, and then the wait ends by shutdown or by the timer; or container c comes up. */
  datatype Attempt = CreateError(stop: bool) | StartError(c: ContainerId, stop: bool) | Up(c: ContainerId)

  predicate Ends(a: Attempt) {
    a.Up? || a.stop
  }

  /** acquireContainer: on success the caller owns the one container that was not removed again, on shutdown none
      is left over. `attempts` is what happens until the call returns. */
  method AcquireContainer(attempts: seq<Attempt>)
      returns (id: Option<ContainerId>, created: multiset<ContainerId>, removed: multiset<ContainerId>)
    requires exists k :: 0 <= k < |attempts| && Ends(attempts[k])
    ensures created == removed + (if id.Some? then multiset{id.value} else multiset{})
    ensures id.Some? ==> Up(id.value) in attempts
    ensures id.Some? <==> exists k :: 0 <= k < |attempts| && attempts[k].Up? && forall j | 0 <= j < k ::
              !Ends(attempts[j])
  {
    created, removed := multiset{}, multiset{};
    var i := 0;
    while true
      invariant 0 <= i < |attempts|
      invariant forall j | 0 <= j < i :: !Ends(attempts[j])
      invariant exists k :: i <= k < |attempts| && Ends(attempts[k])
      invariant created == removed
      decreases |attempts| - i
    {
      match attempts[i] {
        case CreateError(stop) =>
          if stop { return None, created, removed; }
        case StartError(c, stop) =>
          created := created + multiset{c};
          removed := removed + multiset{c};
          if stop { return None, created, removed; }
        case Up(c) =>
          created := created + multiset{c};
          return Some(c), created, removed;
      }
      i := i + 1;
    }
  }
}
