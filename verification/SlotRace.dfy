/** The same slots at the grain of their map and channel operations
    (internal/service/execution_service.go:62-71, 92-107). An acquire loads or stores the channel and then
    sends into it; a release loads the channel and then receives from it; the cleanup sees an empty channel
    and later deletes its key. Anything may happen in between. */
module SlotRace {
  import opened Common
  import Slots

  type Key = Slots.Key

  type ReqId = nat

  datatype Loaded = Loaded(key: Key, chan: nat)

  /** A channel of capacity one: the key it was made for and whether it holds its token. */
  datatype Chan = Chan(key: Key, full: bool)

  /** A channel that left the map still exists for whoever loaded it. `pending` are the acquires between
      load and send, `giving` the releases between load and receive (None: the key was not in the map),
      `seen` the keys whose channel the cleanup has seen empty and not yet deleted. */
  datatype State = State(
    chans: seq<Chan>,
    table: map<Key, nat>,
    pending: map<ReqId, Loaded>,
    holders: map<ReqId, Key>,
    giving: map<ReqId, Option<nat>>,
    seen: set<Key>)

  const Init := State([], map[], map[], map[], map[], {})

  datatype Event =
    | Load(req: ReqId, key: Key)
    | Send(req: ReqId)
    | GiveLoad(req: ReqId)
    | Receive(req: ReqId)
    | EvictSee(key: Key)
    | EvictDelete(key: Key)

  /** A send that would block falls to `default` and fails, so it is enabled either way; a receive
      from an empty channel is not enabled. */
  predicate Enabled(s: State, e: Event) {
    match e
    case Load(r, _) => r !in s.pending && r !in s.holders
    case Send(r) => r in s.pending && s.pending[r].chan < |s.chans|
    case GiveLoad(r) => r in s.holders && r !in s.giving
    case Receive(r) =>
      && r in s.giving && r in s.holders
      && (s.giving[r].Some? ==> s.giving[r].value < |s.chans| && s.chans[s.giving[r].value].full)
    case EvictSee(k) => k in s.table && s.table[k] < |s.chans| && !s.chans[s.table[k]].full
    case EvictDelete(k) => k in s.seen
  }

  /** The store half of LoadOrStore: a new channel for a key that has none. */
  function Store(s: State, k: Key): State {
    s.(chans := s.chans + [Chan(k, false)], table := s.table[k := |s.chans|])
  }

  function Step(s: State, e: Event): State
    requires Enabled(s, e)
  {
    match e
    case Load(r, k) =>
      var s' := if k in s.table then s else Store(s, k);
      s'.(pending := s.pending[r := Loaded(k, s'.table[k])])
    case Send(r) =>
      var p := s.pending[r];
      if s.chans[p.chan].full then s.(pending := s.pending - {r})
      else s.(chans := s.chans[p.chan := s.chans[p.chan].(full := true)],
              pending := s.pending - {r},
              holders := s.holders[r := p.key])
    case GiveLoad(r) =>
      var k := s.holders[r];
      s.(giving := s.giving[r := if k in s.table then Some(s.table[k]) else None])
    case Receive(r) =>
      var s' := s.(holders := s.holders - {r}, giving := s.giving - {r});
      if s.giving[r].None? then s'
      else var c := s.giving[r].value; s'.(chans := s.chans[c := s.chans[c].(full := false)])
    case EvictSee(k) => s.(seen := s.seen + {k})
    case EvictDelete(k) => s.(table := s.table - {k}, seen := s.seen - {k})
  }

  predicate ValidRun(s: State, es: seq<Event>)
    decreases |es|
  {
    es == [] || (Enabled(s, es[0]) && ValidRun(Step(s, es[0]), es[1..]))
  }

  function Exec(s: State, es: seq<Event>): State
    requires ValidRun(s, es)
    decreases |es|
  {
    if es == [] then s else Exec(Step(s, es[0]), es[1..])
  }

  ghost predicate PendingOn(s: State, k: Key) {
    exists r :: r in s.pending && s.pending[r].key == k
  }

  /** The request holds its key and has not begun to give it back. */
  predicate Active(s: State, r: ReqId) {
    r in s.holders && r !in s.giving
  }

  ghost predicate ActiveKey(s: State, k: Key) {
    exists r :: Active(s, r) && s.holders[r] == k
  }

  /** When the cleanup deletes a key, no acquire of it is between load and send, and whoever holds it has loaded the
      channel to give it back. */
  ghost predicate QuietStep(s: State, e: Event) {
    e.EvictDelete? ==> !PendingOn(s, e.key) && !ActiveKey(s, e.key)
  }

  ghost predicate QuietRun(s: State, es: seq<Event>)
    requires ValidRun(s, es)
    decreases |es|
  {
    es == [] || (QuietStep(s, es[0]) && QuietRun(Step(s, es[0]), es[1..]))
  }

  /** No two requests hold the same (user, kind); one that is giving it back no longer counts. */
  ghost predicate Exclusive(s: State) {
    forall r, q | Active(s, r) && Active(s, q) && s.holders[r] == s.holders[q] :: r == q
  }

  /** Every holder could release now, with both of its steps, without blocking. */
  ghost predicate ReleasesReady(s: State) {
    forall r | r in s.holders ::
      if r in s.giving then Enabled(s, Receive(r))
      else Enabled(s, GiveLoad(r)) && Enabled(Step(s, GiveLoad(r)), Receive(r))
  }

  /** Channels in the map carry their key, and what an acquire has loaded is still there. */
  ghost predicate TableOk(s: State) {
    && (forall k | k in s.table :: s.table[k] < |s.chans| && s.chans[s.table[k]].key == k)
    && (forall r | r in s.pending :: s.pending[r].key in s.table && s.table[s.pending[r].key] == s.pending[r].chan)
    && s.pending.Keys !! s.holders.Keys
  }

  /** The channel whose token the request is to take back. */
  ghost predicate Owns(s: State, r: ReqId, c: nat) {
    && r in s.holders && c < |s.chans| && s.chans[c].key == s.holders[r]
    && (if r in s.giving then s.giving[r] == Some(c) else s.holders[r] in s.table && s.table[s.holders[r]] == c)
  }

  /** Each holder owns a full channel, and no other holder owns the same. */
  ghost predicate OwnersOk(s: State) {
    && (forall r | Active(s, r) :: s.holders[r] in s.table && FullOwned(s, r, s.table[s.holders[r]]))
    && (forall r | r in s.giving :: r in s.holders && s.giving[r].Some? && FullOwned(s, r, s.giving[r].value))
    && (forall r, q, c | Owns(s, r, c) && Owns(s, q, c) :: r == q)
  }

  ghost predicate FullOwned(s: State, r: ReqId, c: nat) {
    Owns(s, r, c) && s.chans[c].full
  }

  /** A channel in the map has its token only while somebody owns it. */
  ghost predicate FullIsOwned(s: State) {
    forall k | FullKey(s, k) :: Owned(s, s.table[k])
  }

  ghost predicate FullKey(s: State, k: Key) {
    k in s.table && s.table[k] < |s.chans| && s.chans[s.table[k]].full
  }

  ghost predicate Owned(s: State, c: nat) {
    exists r :: Owns(s, r, c)
  }

  ghost predicate Inv(s: State) {
    TableOk(s) && OwnersOk(s) && FullIsOwned(s)
  }

  lemma InvExcludes(s: State)
    requires TableOk(s) && OwnersOk(s)
    ensures Exclusive(s) && ReleasesReady(s)
  {
    forall r, q | Active(s, r) && Active(s, q) && s.holders[r] == s.holders[q] ensures r == q {
      assert Owns(s, r, s.table[s.holders[r]]) && Owns(s, q, s.table[s.holders[r]]);
    }
    forall r | r in s.holders ensures
      if r in s.giving then Enabled(s, Receive(r))
      else Enabled(s, GiveLoad(r)) && Enabled(Step(s, GiveLoad(r)), Receive(r))
    {
      if r in s.giving {
        assert FullOwned(s, r, s.giving[r].value);
      } else {
        assert Active(s, r) && FullOwned(s, r, s.table[s.holders[r]]);
      }
    }
  }

  // One step: the map

  lemma StoreTable(s: State, k: Key)
    requires TableOk(s) && k !in s.table
    ensures TableOk(Store(s, k))
  {
    assert forall c | 0 <= c < |s.chans| :: Store(s, k).chans[c] == s.chans[c];
  }

  lemma StepTable(s: State, e: Event)
    requires TableOk(s) && Enabled(s, e) && QuietStep(s, e)
    ensures TableOk(Step(s, e))
  {
    if e.Load? && e.key !in s.table {
      StoreTable(s, e.key);
    }
  }

  // One step: the owners

  /** Who owns what afterwards: a send makes an owner of its channel, a receive ends an ownership, and nothing else
      changes one. */
  lemma OwnsAfter(s: State, e: Event, r: ReqId, c: nat)
    requires TableOk(s) && OwnersOk(s) && Enabled(s, e) && QuietStep(s, e) && Owns(Step(s, e), r, c)
    ensures (Owns(s, r, c) && !(e.Receive? && e.req == r))
            || (e.Send? && e.req == r && c == s.pending[r].chan && !s.chans[c].full)
  {
    assert r in s.holders && r !in s.giving ==> Active(s, r);
  }

  /** And conversely. */
  lemma OwnsStays(s: State, e: Event, r: ReqId, c: nat)
    requires TableOk(s) && Enabled(s, e) && QuietStep(s, e) && Owns(s, r, c) && !(e.Receive? && e.req == r)
    ensures Owns(Step(s, e), r, c)
  {
  }

  lemma FullOwnedStays(s: State, e: Event, r: ReqId, c: nat)
    requires TableOk(s) && OwnersOk(s) && Enabled(s, e) && QuietStep(s, e) && FullOwned(s, r, c)
    requires !(e.Receive? && e.req == r)
    ensures FullOwned(Step(s, e), r, c)
  {
    OwnsStays(s, e, r, c);
    if e.Receive? {
      assert e.req in s.giving && FullOwned(s, e.req, s.giving[e.req].value);
    }
  }

  lemma OwnersFull(s: State, e: Event, r: ReqId)
    requires TableOk(s) && OwnersOk(s) && Enabled(s, e) && QuietStep(s, e) && r in Step(s, e).holders
    ensures var s' := Step(s, e);
            if r in s'.giving then s'.giving[r].Some? && FullOwned(s', r, s'.giving[r].value)
            else s'.holders[r] in s'.table && FullOwned(s', r, s'.table[s'.holders[r]])
  {
    var s' := Step(s, e);
    if r in s.holders {
      var c := if r in s.giving then s.giving[r].value else s.table[s.holders[r]];
      assert FullOwned(s, r, c) by {
        assert r !in s.giving ==> Active(s, r);
      }
      FullOwnedStays(s, e, r, c);
    } else {
      assert e.Send? && e.req == r;
    }
  }

  lemma StepOwners(s: State, e: Event)
    requires TableOk(s) && OwnersOk(s) && Enabled(s, e) && QuietStep(s, e)
    ensures OwnersOk(Step(s, e))
  {
    var s' := Step(s, e);
    forall r | r in s'.holders
      ensures if r in s'.giving then s'.giving[r].Some? && FullOwned(s', r, s'.giving[r].value)
              else s'.holders[r] in s'.table && FullOwned(s', r, s'.table[s'.holders[r]])
    {
      OwnersFull(s, e, r);
    }
    forall r, q, c | Owns(s', r, c) && Owns(s', q, c) ensures r == q {
      OwnsAfter(s, e, r, c);
      OwnsAfter(s, e, q, c);
      FullIfOwned(s, r, c);
      FullIfOwned(s, q, c);
    }
    assert s'.giving.Keys <= s'.holders.Keys;
  }

  lemma FullIfOwned(s: State, r: ReqId, c: nat)
    requires OwnersOk(s)
    ensures Owns(s, r, c) ==> s.chans[c].full
  {
    if Owns(s, r, c) {
      assert r !in s.giving ==> Active(s, r);
    }
  }

  // One step: the tokens

  /** A channel that is full afterwards was full before, unless the event is the send that filled it. */
  lemma FullBefore(s: State, e: Event, k: Key)
    requires TableOk(s) && Enabled(s, e) && FullKey(Step(s, e), k)
    ensures var c := Step(s, e).table[k];
            || (e.Send? && c == s.pending[e.req].chan && s.pending[e.req].key == k && !s.chans[c].full)
            || (FullKey(s, k) && c == s.table[k] && !(e.Receive? && s.giving[e.req] == Some(c)))
  {
  }

  lemma FullStaysOwned(s: State, e: Event, k: Key)
    requires Inv(s) && Enabled(s, e) && QuietStep(s, e) && FullKey(Step(s, e), k)
    ensures Owned(Step(s, e), Step(s, e).table[k])
  {
    FullBefore(s, e, k);
    var c := Step(s, e).table[k];
    if e.Send? && c == s.pending[e.req].chan && !s.chans[c].full {
      assert Owns(Step(s, e), e.req, c);
    } else {
      var r :| Owns(s, r, c);
      OwnsStays(s, e, r, c);
    }
  }

  lemma QuietStepKeepsInv(s: State, e: Event)
    requires Inv(s) && Enabled(s, e) && QuietStep(s, e)
    ensures Inv(Step(s, e))
  {
    StepTable(s, e);
    StepOwners(s, e);
    forall k | FullKey(Step(s, e), k) ensures Owned(Step(s, e), Step(s, e).table[k]) {
      FullStaysOwned(s, e, k);
    }
  }

  /** An acquire succeeds exactly when nobody owns the channel it loaded; then nobody holds its key. */
  lemma SendSucceedsExactly(s: State, r: ReqId)
    requires Inv(s) && Enabled(s, Send(r))
    ensures r in Step(s, Send(r)).holders <==> !Owned(s, s.pending[r].chan)
    ensures r in Step(s, Send(r)).holders ==> !ActiveKey(s, s.pending[r].key)
  {
    var k := s.pending[r].key;
    assert s.chans[s.pending[r].chan].full <==> FullKey(s, k);
    if Owned(s, s.pending[r].chan) {
      var q :| Owns(s, q, s.pending[r].chan);
      FullIfOwned(s, q, s.pending[r].chan);
    }
  }

  /** If every delete of a key finds no acquire of it under way and no holder that has not begun its release, the
      fine-grained slots exclude and their releases never block, over every run. */
  lemma {:induction false} QuietRunsExclude(s: State, es: seq<Event>)
    requires Inv(s) && ValidRun(s, es) && QuietRun(s, es)
    ensures Inv(Exec(s, es)) && Exclusive(Exec(s, es)) && ReleasesReady(Exec(s, es))
    decreases |es|
  {
    if es == [] {
      InvExcludes(s);
    } else {
      QuietStepKeepsInv(s, es[0]);
      QuietRunsExclude(Step(s, es[0]), es[1..]);
    }
  }

  // Deletes that are not quiet

  lemma {:induction false} Append(s: State, es: seq<Event>, e: Event)
    requires ValidRun(s, es) && Enabled(Exec(s, es), e)
    ensures ValidRun(s, es + [e]) && Exec(s, es + [e]) == Step(Exec(s, es), e)
    ensures QuietRun(s, es) && QuietStep(Exec(s, es), e) ==> QuietRun(s, es + [e])
    decreases |es|
  {
    if es == [] {
      assert (es + [e])[1..] == [];
    } else {
      assert (es + [e])[1..] == es[1..] + [e];
      Append(Step(s, es[0]), es[1..], e);
    }
  }

  /** Some quiet run leads from s to t. */
  ghost predicate LeadsTo(s: State, t: State) {
    exists es :: ValidRun(s, es) && QuietRun(s, es) && Exec(s, es) == t
  }

  lemma LeadsOn(s: State, t: State, e: Event)
    requires LeadsTo(s, t) && Enabled(t, e) && QuietStep(t, e)
    ensures LeadsTo(s, Step(t, e))
  {
    var es :| ValidRun(s, es) && QuietRun(s, es) && Exec(s, es) == t;
    Append(s, es, e);
  }

  lemma LeadsHere(s: State)
    ensures LeadsTo(s, s)
  {
    assert ValidRun(s, []) && QuietRun(s, []) && Exec(s, []) == s;
  }

  /** Once a key in use has left the map, the next request gets a channel of its own. */
  lemma NewcomerGetsIn(s: State, t: State, r: ReqId, q: ReqId, k: Key)
    requires LeadsTo(s, t) && k !in t.table && Active(t, r) && t.holders[r] == k
    requires q !in t.pending && q !in t.holders && q !in t.giving
    ensures exists t' :: LeadsTo(s, t') && !Exclusive(t')
  {
    LeadsOn(s, t, Load(q, k));
    var t1 := Step(t, Load(q, k));
    LeadsOn(s, t1, Send(q));
    var t2 := Step(t1, Send(q));
    assert Active(t2, r) && Active(t2, q) && t2.holders[r] == t2.holders[q];
  }

  /** Who stands in the way of a pending acquire of a key nobody holds is giving the channel back. */
  lemma BlockerIsGiving(s: State, r: ReqId)
    requires Inv(s) && r in s.pending && !ActiveKey(s, s.pending[r].key) && s.chans[s.pending[r].chan].full
    ensures exists p :: p in s.giving && p in s.holders && s.giving[p] == Some(s.pending[r].chan)
  {
    var k := s.pending[r].key;
    assert FullKey(s, k);
    var p :| Owns(s, p, s.table[k]);
  }

  /** A delete of a key that is held, or being acquired, always lets the next request in beside the user. */
  lemma UnquietDeleteAdmitsTwo(s: State, k: Key)
    requires Inv(s) && Enabled(s, EvictDelete(k)) && (PendingOn(s, k) || ActiveKey(s, k))
    ensures exists t :: LeadsTo(Step(s, EvictDelete(k)), t) && !Exclusive(t)
  {
    var s1 := Step(s, EvictDelete(k));
    LeadsHere(s1);
    var q := LargerThanAll(s.pending.Keys + s.holders.Keys + s.giving.Keys);
    if ActiveKey(s, k) {
      var r :| Active(s, r) && s.holders[r] == k;
      NewcomerGetsIn(s1, s1, r, q, k);
    } else {
      var r :| r in s.pending && s.pending[r].key == k;
      var t := s1;
      if s.chans[s.pending[r].chan].full {
        BlockerIsGiving(s, r);
        var p :| p in s.giving && p in s.holders && s.giving[p] == Some(s.pending[r].chan);
        LeadsOn(s1, s1, Receive(p));
        t := Step(s1, Receive(p));
      }
      assert r !in s.giving && r !in s.holders;
      LeadsOn(s1, t, Send(r));
      NewcomerGetsIn(s1, Step(t, Send(r)), r, q, k);
    }
  }

  /** The exact condition: from a good state, deleting k keeps every quiet continuation exclusive if and only if no
      acquire of k is between its load and its send and nobody holds k without having begun to give it back. */
  lemma DeleteSafeExactly(s: State, k: Key)
    requires Inv(s) && Enabled(s, EvictDelete(k))
    ensures (!PendingOn(s, k) && !ActiveKey(s, k)) <==>
            forall t | LeadsTo(Step(s, EvictDelete(k)), t) :: Exclusive(t)
  {
    var s1 := Step(s, EvictDelete(k));
    if !PendingOn(s, k) && !ActiveKey(s, k) {
      QuietStepKeepsInv(s, EvictDelete(k));
      forall t | LeadsTo(s1, t) ensures Exclusive(t) {
        var es :| ValidRun(s1, es) && QuietRun(s1, es) && Exec(s1, es) == t;
        QuietRunsExclude(s1, es);
      }
    } else {
      UnquietDeleteAdmitsTwo(s, k);
    }
  }

  // Both ways it happens, from the start

  lemma Then(es: seq<Event>, e: Event) returns (longer: seq<Event>)
    requires ValidRun(Init, es) && Enabled(Exec(Init, es), e)
    ensures ValidRun(Init, longer) && Exec(Init, longer) == Step(Exec(Init, es), e) && longer == es + [e]
  {
    Append(Init, es, e);
    longer := es + [e];
  }

  /** Two requests that hold one key, the second with the channel that is in the map. */
  function TwoHolders(k: Key): State {
    State([Chan(k, true), Chan(k, true)], map[k := 1], map[], map[1 := k, 2 := k], map[], {})
  }

  lemma SecondEnters(before: seq<Event>, k: Key) returns (es: seq<Event>)
    requires ValidRun(Init, before)
    requires Exec(Init, before) == State([Chan(k, true)], map[], map[], map[1 := k], map[], {})
    ensures ValidRun(Init, es) && Exec(Init, es) == TwoHolders(k) && es == before + [Load(2, k), Send(2)]
  {
    es := Then(before, Load(2, k));
    es := Then(es, Send(2));
    assert Exec(Init, es) == TwoHolders(k);
  }

  function InsideAcquire(k: Key): seq<Event> {
    [Load(1, k), EvictSee(k), EvictDelete(k), Send(1), Load(2, k), Send(2)]
  }

  /** The delete falls between the load and the send of request 1: it is pending at the delete, and in the end requests
      1 and 2 both hold the key. */
  lemma DeleteInsideAcquire(k: Key)
    ensures var es := InsideAcquire(k);
            && ValidRun(Init, es) && Exec(Init, es) == TwoHolders(k)
            && es[2] == EvictDelete(k) && ValidRun(Init, es[..2]) && PendingOn(Exec(Init, es[..2]), k)
  {
    var es := Then([], Load(1, k));
    es := Then(es, EvictSee(k));
    assert InsideAcquire(k)[..2] == es;
    assert Exec(Init, es).pending[1].key == k;
    es := Then(es, EvictDelete(k));
    assert Exec(Init, es) == State([Chan(k, false)], map[], map[1 := Loaded(k, 0)], map[], map[], {});
    es := Then(es, Send(1));
    assert Exec(Init, es) == State([Chan(k, true)], map[], map[], map[1 := k], map[], {});
    es := SecondEnters(es, k);
    assert es == InsideAcquire(k);
  }

  function InsideCleanup(k: Key): seq<Event> {
    [Load(0, k), Send(0), GiveLoad(0), Receive(0), EvictSee(k), Load(1, k), Send(1), EvictDelete(k), Load(2, k),
        Send(2)]
  }

  /** The whole acquire of request 1 falls between what the cleanup sees and its delete: no acquire is pending at either
      of them, and still requests 1 and 2 both hold the key in the end. Request 0 leaves the idle slot behind. */
  lemma AcquireInsideCleanup(k: Key)
    ensures var es := InsideCleanup(k);
            && ValidRun(Init, es) && Exec(Init, es) == TwoHolders(k)
            && es[4] == EvictSee(k) && ValidRun(Init, es[..4]) && Exec(Init, es[..4]).pending == map[]
            && es[7] == EvictDelete(k) && ValidRun(Init, es[..7]) && Exec(Init, es[..7]).pending == map[]
  {
    var es := IdleSlot(k);
    assert InsideCleanup(k)[..4] == es;
    es := Then(es, EvictSee(k));
    es := Then(es, Load(1, k));
    es := Then(es, Send(1));
    assert Exec(Init, es) == State([Chan(k, true)], map[k := 0], map[], map[1 := k], map[], {k});
    assert InsideCleanup(k)[..7] == es;
    es := Then(es, EvictDelete(k));
    assert Exec(Init, es) == State([Chan(k, true)], map[], map[], map[1 := k], map[], {});
    es := SecondEnters(es, k);
    assert es == InsideCleanup(k);
  }

  lemma IdleSlot(k: Key) returns (es: seq<Event>)
    ensures ValidRun(Init, es) && Exec(Init, es) == State([Chan(k, false)], map[k := 0], map[], map[], map[], {})
    ensures es == [Load(0, k), Send(0), GiveLoad(0), Receive(0)]
  {
    es := Then([], Load(0, k));
    es := Then(es, Send(0));
    assert Exec(Init, es) == State([Chan(k, true)], map[k := 0], map[], map[0 := k], map[], {});
    es := Then(es, GiveLoad(0));
    es := Then(es, Receive(0));
    assert Exec(Init, es) == State([Chan(k, false)], map[k := 0], map[], map[], map[], {});
  }

  /** From there the first release takes the second request's token, and the second's own release blocks. */
  lemma SecondReleaseBlocks(k: Key)
    ensures var s := TwoHolders(k);
            && !Exclusive(s) && Enabled(s, GiveLoad(1)) && Enabled(Step(s, GiveLoad(1)), Receive(1))
            && var t := Step(Step(s, GiveLoad(1)), Receive(1));
               Enabled(t, GiveLoad(2)) && !Enabled(Step(t, GiveLoad(2)), Receive(2))
  {
    var s := TwoHolders(k);
    assert Active(s, 1) && Active(s, 2) && s.holders[1] == s.holders[2];
  }
}
