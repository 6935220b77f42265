/** Per-user execution slots (internal/service/execution_service.go).
    The `slots` map takes a (user, kind) key to a channel of capacity one; the model keeps, for
    each key that is present, whether its channel holds the token. Every operation is one step. */
module Slots {
  import opened Common

  datatype Kind = Execute | Submit

  datatype Key = Key(user: UserId, kind: Kind)

  type Table = map<Key, bool>

  predicate Held(t: Table, k: Key) {
    k in t && t[k]
  }

  function HeldSet(t: Table): set<Key> {
    set k | k in t && t[k]
  }

  /** TryAcquireSlot: LoadOrStore of an empty channel, then a non-blocking send. */
  function TryAcquire(t: Table, k: Key): (Table, bool) {
    var stored := if k in t then t else t[k := false];
    if stored[k] then (stored, false) else (stored[k := true], true)
  }

  /** ReleaseSlot: no channel is a no-op, a full channel gives its token back, an empty one blocks. */
  datatype Released = Released(table: Table) | Blocked

  function Release(t: Table, k: Key): Released {
    if k !in t then Released(t)
    else if t[k] then Released(t[k := false])
    else Blocked
  }

  /** The per-key cleanup action: drop an empty channel whose user has no limiter. */
  function Evict(t: Table, k: Key, hasLimiter: bool): Table {
    if k in t && !hasLimiter && !t[k] then t - {k} else t
  }

  datatype Event = Acquire(key: Key) | Give(key: Key) | Cleanup(key: Key, hasLimiter: bool)

  /** What one event answers: the acquire verdict, or that the call came back. */
  datatype Answer = Granted | Refused | Returned | Stuck

  function Apply(t: Table, e: Event): (Table, Answer) {
    match e
    case Acquire(k) => var (t', ok) := TryAcquire(t, k); (t', if ok then Granted else Refused)
    case Give(k) => (match Release(t, k) case Released(t') => (t', Returned) case Blocked => (t, Stuck))
    case Cleanup(k, hasLimiter) => (Evict(t, k, hasLimiter), Returned)
  }

  function Answers(t: Table, es: seq<Event>): seq<Answer>
    decreases |es|
  {
    if es == [] then [] else
    var (t', a) := Apply(t, es[0]);
    [a] + Answers(t', es[1..])
  }

  function Final(t: Table, es: seq<Event>): Table
    decreases |es|
  {
    if es == [] then t else Final(Apply(t, es[0]).0, es[1..])
  }

  // The reference: a set of held keys that cleanup does not touch at all.

  function RefApply(h: set<Key>, e: Event): (set<Key>, Answer) {
    match e
    case Acquire(k) => if k in h then (h, Refused) else (h + {k}, Granted)
    case Give(k) => (h - {k}, Returned)
    case Cleanup(_, _) => (h, Returned)
  }

  function RefAnswers(h: set<Key>, es: seq<Event>): seq<Answer>
    decreases |es|
  {
    if es == [] then [] else
    var (h', a) := RefApply(h, es[0]);
    [a] + RefAnswers(h', es[1..])
  }

  function RefFinal(h: set<Key>, es: seq<Event>): set<Key>
    decreases |es|
  {
    if es == [] then h else RefFinal(RefApply(h, es[0]).0, es[1..])
  }

  /** Every release in the run is made by a holder, as the deferred releases in Submit and PostExecute are. */
  predicate ReleasedByHolders(h: set<Key>, es: seq<Event>)
    decreases |es|
  {
    es == [] ||
    (&& (es[0].Give? ==> es[0].key in h)
     && ReleasedByHolders(RefApply(h, es[0]).0, es[1..]))
  }

  lemma StepRefines(t: Table, e: Event)
    requires e.Give? ==> e.key in HeldSet(t)
    ensures HeldSet(Apply(t, e).0) == RefApply(HeldSet(t), e).0
    ensures Apply(t, e).1 == RefApply(HeldSet(t), e).1
  {
    var t' := Apply(t, e).0;
    forall k ensures k in HeldSet(t') <==> k in RefApply(HeldSet(t), e).0 {}
  }

  /** Slots refine a set of held pairs: over every run whose releases are made by holders, each
      acquire is granted exactly when its pair is not held, no release blocks, cleanup changes
      nothing that can be observed, and the held set is the reference's. */
  lemma {:induction false} SlotsRefineHeldSet(t: Table, es: seq<Event>)
    requires ReleasedByHolders(HeldSet(t), es)
    ensures Answers(t, es) == RefAnswers(HeldSet(t), es)
    ensures HeldSet(Final(t, es)) == RefFinal(HeldSet(t), es)
    ensures Stuck !in Answers(t, es)
    decreases |es|
  {
    if es != [] {
      StepRefines(t, es[0]);
      SlotsRefineHeldSet(Apply(t, es[0]).0, es[1..]);
    }
  }
}
