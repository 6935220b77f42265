/** The game protocol on the slots as they are: a submission acquires its slot by a load and a send, gives it back by a
    load and a receive, and the cleanup may come between any two of these. As long as no delete hits a key in use this
    is the protocol with one-step slots, the release taking effect at its load; after any other delete a player can
    pass the end of the problems. */
module GameRace {
  import opened Common
  import opened GameTables
  import opened GameProtocol
  import opened GameInvariant
  import opened GameTheorems
  import opened GameRuns
  import Slots
  import SlotRace

  /** `wants` has the game a request that is acquiring its slot will submit to; `game.slots` is not used. */
  datatype Fine = Fine(game: State, race: SlotRace.State, wants: map<ReqId, GameId>)

  const FineInit := Fine(Init, SlotRace.Init, map[])

  datatype FineEvent =
    | Request(e: Event)
    | Load(r: ReqId, u: UserId, g: GameId)
    | Send(r: ReqId)
    | GiveLoad(r: ReqId)
    | Receive(r: ReqId)
    | EvictSee(k: Slots.Key)
    | EvictDelete(k: Slots.Key)

  /** The events that have to do with slots are replaced by their fine-grained forms. */
  predicate SlotFree(e: Event) {
    !e.Submit? && !e.Release? && !e.Evict?
  }

  /** The slot operation behind an event. */
  function OnSlots(e: FineEvent): Option<SlotRace.Event> {
    match e
    case Request(_) => None
    case Load(r, u, _) => Some(SlotRace.Load(r, SubmitKey(u)))
    case Send(r) => Some(SlotRace.Send(r))
    case GiveLoad(r) => Some(SlotRace.GiveLoad(r))
    case Receive(r) => Some(SlotRace.Receive(r))
    case EvictSee(k) => Some(SlotRace.EvictSee(k))
    case EvictDelete(k) => Some(SlotRace.EvictDelete(k))
  }

  predicate FineEnabled(f: Fine, e: FineEvent) {
    && (OnSlots(e).Some? ==> SlotRace.Enabled(f.race, OnSlots(e).value))
    && match e
       case Request(ge) => SlotFree(ge) && Enabled(f.game, ge)
       case Load(r, _, _) => r !in f.game.subs
       case Send(r) => r in f.wants
       case GiveLoad(r) => r in f.game.subs && f.game.subs[r].phase.Done?
       case Receive(r) => r in f.game.subs
       case _ => true
  }

  function FineStep(f: Fine, e: FineEvent): Fine
    requires FineEnabled(f, e)
  {
    var race := if OnSlots(e).Some? then SlotRace.Step(f.race, OnSlots(e).value) else f.race;
    match e
    case Request(ge) => f.(game := Step(f.game, ge))
    case Load(r, _, g) => f.(race := race, wants := f.wants[r := g])
    case Send(r) =>
      var f' := f.(race := race, wants := f.wants - {r});
      if r !in race.holders then f'
      else f'.(game := f.game.(subs := f.game.subs[r := Sub(race.holders[r].user, f.wants[r], Started)]))
    case Receive(r) => f.(race := race, game := f.game.(subs := f.game.subs - {r}))
    case _ => f.(race := race)
  }

  predicate FineRun(f: Fine, es: seq<FineEvent>)
    decreases |es|
  {
    es == [] || (FineEnabled(f, es[0]) && FineRun(FineStep(f, es[0]), es[1..]))
  }

  function FineExec(f: Fine, es: seq<FineEvent>): Fine
    requires FineRun(f, es)
    decreases |es|
  {
    if es == [] then f else FineExec(FineStep(f, es[0]), es[1..])
  }

  /** Every delete of a key finds no acquire of it under way and no holder that has not begun its release. */
  ghost predicate Quiet(f: Fine, e: FineEvent) {
    OnSlots(e).Some? ==> SlotRace.QuietStep(f.race, OnSlots(e).value)
  }

  ghost predicate QuietRun(f: Fine, es: seq<FineEvent>)
    requires FineRun(f, es)
    decreases |es|
  {
    es == [] || (Quiet(f, es[0]) && QuietRun(FineStep(f, es[0]), es[1..]))
  }

  // The simulation

  /** The keys of the holders that have not begun to give theirs back. */
  function HeldKeys(holders: map<ReqId, Slots.Key>, giving: set<ReqId>): set<Slots.Key> {
    set r | r in holders && r !in giving :: holders[r]
  }

  function HeldTable(race: SlotRace.State): Slots.Table {
    map k | k in HeldKeys(race.holders, race.giving.Keys) :: true
  }

  /** The state of the protocol with one-step slots: a submission that has begun its release is gone. */
  function Coarse(f: Fine): State {
    f.game.(subs := f.game.subs - f.race.giving.Keys, slots := HeldTable(f.race))
  }

  /** The submissions in flight are the holders, each of its user's slot, and only a finished one gives it back. */
  ghost predicate Matched(f: Fine) {
    && f.game.subs.Keys == f.race.holders.Keys
    && (forall r | r in f.game.subs :: f.race.holders[r] == SubmitKey(f.game.subs[r].user))
    && (forall r | r in f.race.pending :: f.race.pending[r].key.kind == Slots.Submit && r in f.wants)
    && (forall r | r in f.race.giving :: r in f.game.subs && f.game.subs[r].phase.Done?)
  }

  ghost predicate Linked(f: Fine) {
    SlotRace.Inv(f.race) && Matched(f)
  }

  /** The protocol's events behind an event. */
  function TraceOf(f: Fine, e: FineEvent): seq<Event>
    requires FineEnabled(f, e)
  {
    match e
    case Request(ge) => [ge]
    case Send(r) =>
      if r in FineStep(f, e).race.holders then [Submit(r, FineStep(f, e).race.holders[r].user, f.wants[r])] else []
    case GiveLoad(r) => [Release(r), Evict(f.game.subs[r].user, false)]
    case _ => []
  }

  function Trace(f: Fine, es: seq<FineEvent>): seq<Event>
    requires FineRun(f, es)
    decreases |es|
  {
    if es == [] then [] else TraceOf(f, es[0]) + Trace(FineStep(f, es[0]), es[1..])
  }

  /** These events lead from one protocol state to the other. */
  ghost predicate Goes(s: State, es: seq<Event>, t: State) {
    ValidRun(s, es) && Exec(s, es) == t
  }

  lemma RequestCommutes(s: State, gone: set<ReqId>, slots: Slots.Table, e: Event)
    requires SlotFree(e) && Enabled(s, e) && (forall r | r in gone && r in s.subs :: s.subs[r].phase.Done?)
    ensures var t := s.(subs := s.subs - gone, slots := slots);
            Enabled(t, e) && Step(t, e) == Step(s, e).(subs := Step(s, e).subs - gone, slots := slots)
  {
    if e.Progress? || e.Judge? || e.Save? || e.Abort? {
      SubEventCommutes(s, gone, slots, e);
    }
  }

  lemma SubEventCommutes(s: State, gone: set<ReqId>, slots: Slots.Table, e: Event)
    requires (e.Progress? || e.Judge? || e.Save? || e.Abort?) && Enabled(s, e) && e.r !in gone
    ensures var t := s.(subs := s.subs - gone, slots := slots);
            Enabled(t, e) && Step(t, e) == Step(s, e).(subs := Step(s, e).subs - gone, slots := slots)
  {
    var t := s.(subs := s.subs - gone, slots := slots);
    var sub := s.subs[e.r];
    assert forall p :: (s.subs - gone)[e.r := sub.(phase := p)] == s.subs[e.r := sub.(phase := p)] - gone;
    assert Step(t, e).subs == Step(s, e).subs - gone;
  }

  lemma DoneStaysDone(s: State, e: Event, r: ReqId)
    requires SlotFree(e) && Enabled(s, e) && r in s.subs && s.subs[r].phase.Done?
    ensures r in Step(s, e).subs && Step(s, e).subs[r].phase.Done?
  {
  }

  lemma RequestMatches(f: Fine, e: Event)
    requires Matched(f) && FineEnabled(f, Request(e))
    ensures Matched(FineStep(f, Request(e)))
  {
    RequestsKept(f.game, e);
    forall r | r in f.race.giving ensures r in Step(f.game, e).subs && Step(f.game, e).subs[r].phase.Done? {
      DoneStaysDone(f.game, e, r);
    }
  }

  lemma RequestSimulates(f: Fine, e: Event)
    requires Matched(f) && FineEnabled(f, Request(e))
    ensures Goes(Coarse(f), [e], Coarse(FineStep(f, Request(e))))
  {
    RequestCommutes(f.game, f.race.giving.Keys, HeldTable(f.race), e);
    OneEvent(Coarse(f), e);
  }

  lemma SubmitGoes(s: State, r: ReqId, u: UserId, g: GameId)
    requires r !in s.subs && SubmitKey(u) !in s.slots
    ensures Goes(s, [Submit(r, u, g)],
              s.(subs := s.subs[r := Sub(u, g, Started)], slots := s.slots[SubmitKey(u) := true]))
  {
    OneEvent(s, Submit(r, u, g));
  }

  /** A successful acquire is the protocol's Submit. */
  lemma SendSimulates(f: Fine, r: ReqId)
    requires Matched(f) && FineEnabled(f, Send(r)) && !SlotRace.ActiveKey(f.race, f.race.pending[r].key)
    requires r !in f.race.holders && r in FineStep(f, Send(r)).race.holders
    ensures Goes(Coarse(f), TraceOf(f, Send(r)), Coarse(FineStep(f, Send(r))))
  {
    var k := f.race.pending[r].key;
    HeldMeansActive(f.race, k);
    SubmitGoes(Coarse(f), r, k.user, f.wants[r]);
    SendCoarse(f, r);
  }

  lemma SendCoarse(f: Fine, r: ReqId)
    requires Matched(f) && FineEnabled(f, Send(r))
    requires r !in f.race.holders && r in FineStep(f, Send(r)).race.holders
    ensures var k := f.race.pending[r].key;
            && k == SubmitKey(k.user) && FineStep(f, Send(r)).race.holders[r] == k && r !in f.game.subs
            && Coarse(FineStep(f, Send(r)))
               == Coarse(f).(subs := Coarse(f).subs[r := Sub(k.user, f.wants[r], Started)], slots :=
                   Coarse(f).slots[k := true])
  {
    var k := f.race.pending[r].key;
    var f' := FineStep(f, Send(r));
    HeldKeysGrow(f.race.holders, f.race.giving.Keys, r, k);
    assert f'.race.holders == f.race.holders[r := k];
    assert f'.game.subs - f'.race.giving.Keys ==
        (f.game.subs - f.race.giving.Keys)[r := Sub(k.user, f.wants[r], Started)];
  }

  lemma HeldMeansActive(race: SlotRace.State, k: Slots.Key)
    ensures k in HeldTable(race) <==> SlotRace.ActiveKey(race, k)
  {
    if SlotRace.ActiveKey(race, k) {
      var r :| SlotRace.Active(race, r) && race.holders[r] == k;
      assert race.holders[r] in HeldKeys(race.holders, race.giving.Keys);
    }
  }

  lemma HeldKeysGrow(holders: map<ReqId, Slots.Key>, giving: set<ReqId>, r: ReqId, k: Slots.Key)
    requires r !in holders && r !in giving
    ensures HeldKeys(holders[r := k], giving) == HeldKeys(holders, giving) + {k}
  {
    var bigger := holders[r := k];
    assert bigger[r] in HeldKeys(bigger, giving);
    forall j | j in HeldKeys(holders, giving) ensures j in HeldKeys(bigger, giving) {
      var q :| q in holders && q !in giving && holders[q] == j;
      assert bigger[q] == j;
    }
  }

  lemma HeldKeysShrink(holders: map<ReqId, Slots.Key>, giving: set<ReqId>, r: ReqId)
    requires r in holders && r !in giving
    requires forall q | q in holders && q !in giving && holders[q] == holders[r] :: q == r
    ensures HeldKeys(holders, giving + {r}) == HeldKeys(holders, giving) - {holders[r]}
  {
    forall j | j in HeldKeys(holders, giving) && j != holders[r] ensures j in HeldKeys(holders, giving + {r}) {
      var q :| q in holders && q !in giving && holders[q] == j;
      assert q !in giving + {r};
    }
  }

  /** A release of the protocol, with the idle slot dropped right after. */
  lemma ReleaseGoes(s: State, r: ReqId)
    requires r in s.subs && s.subs[r].phase.Done? && Slots.Held(s.slots, SubmitKey(s.subs[r].user))
    ensures var u := s.subs[r].user;
            Goes(s, [Release(r), Evict(u, false)], s.(subs := s.subs - {r}, slots := s.slots - {SubmitKey(u)}))
  {
    var u := s.subs[r].user;
    var t := Step(s, Release(r));
    OneEvent(s, Release(r));
    OneEvent(t, Evict(u, false));
    RunsCompose(s, [Release(r)], [Evict(u, false)]);
    assert [Release(r)] + [Evict(u, false)] == [Release(r), Evict(u, false)];
    assert Step(t, Evict(u, false)).slots == s.slots - {SubmitKey(u)};
  }

  lemma GiveLoadCoarse(f: Fine, r: ReqId)
    requires SlotRace.Exclusive(f.race) && FineEnabled(f, GiveLoad(r))
    ensures var k := f.race.holders[r];
            && k in HeldTable(f.race) && r in Coarse(f).subs
            && Coarse(FineStep(f, GiveLoad(r))) ==
                Coarse(f).(subs := Coarse(f).subs - {r}, slots := Coarse(f).slots - {k})
  {
    var f' := FineStep(f, GiveLoad(r));
    assert SlotRace.Active(f.race, r);
    assert forall q | q in f.race.holders && q !in f.race.giving :: SlotRace.Active(f.race, q);
    HeldKeysShrink(f.race.holders, f.race.giving.Keys, r);
    assert f'.race.giving.Keys == f.race.giving.Keys + {r};
    assert f.race.holders[r] in HeldKeys(f.race.holders, f.race.giving.Keys);
    assert f'.game.subs - f'.race.giving.Keys == f.game.subs - f.race.giving.Keys - {r};
  }

  lemma GiveLoadSimulates(f: Fine, r: ReqId)
    requires Matched(f) && SlotRace.Exclusive(f.race) && FineEnabled(f, GiveLoad(r))
    ensures Goes(Coarse(f), TraceOf(f, GiveLoad(r)), Coarse(FineStep(f, GiveLoad(r))))
  {
    GiveLoadCoarse(f, r);
    ReleaseGoes(Coarse(f), r);
  }

  lemma SendMatches(f: Fine, r: ReqId)
    requires Matched(f) && r !in f.race.holders && FineEnabled(f, Send(r))
    ensures Matched(FineStep(f, Send(r)))
  {
  }

  lemma OtherMatches(f: Fine, e: FineEvent)
    requires Matched(f) && FineEnabled(f, e) && !e.Request? && !e.Send?
    ensures Matched(FineStep(f, e))
  {
  }

  lemma StepMatches(f: Fine, e: FineEvent)
    requires Matched(f) && FineEnabled(f, e) && f.race.pending.Keys !! f.race.holders.Keys
    ensures Matched(FineStep(f, e))
  {
    match e
    case Request(ge) => RequestMatches(f, ge);
    case Send(r) => SendMatches(f, r);
    case _ => OtherMatches(f, e);
  }

  /** What neither takes a slot nor begins to give one back is invisible to the protocol. */
  lemma OtherInvisible(f: Fine, e: FineEvent)
    requires FineEnabled(f, e) && TraceOf(f, e) == [] && Coarse(FineStep(f, e)) == Coarse(f)
    ensures Goes(Coarse(f), TraceOf(f, e), Coarse(FineStep(f, e)))
  {
  }

  lemma SendGoes(f: Fine, r: ReqId)
    requires Linked(f) && FineEnabled(f, Send(r))
    ensures Goes(Coarse(f), TraceOf(f, Send(r)), Coarse(FineStep(f, Send(r))))
  {
    SlotRace.SendSucceedsExactly(f.race, r);
    if r in FineStep(f, Send(r)).race.holders {
      SendSimulates(f, r);
    } else {
      OtherInvisible(f, Send(r));
    }
  }

  /** The last step of a release changes nothing the protocol sees. */
  lemma ReceiveInvisible(f: Fine, r: ReqId)
    requires FineEnabled(f, Receive(r))
    ensures Coarse(FineStep(f, Receive(r))) == Coarse(f)
  {
    var f' := FineStep(f, Receive(r));
    assert f'.game.subs - f'.race.giving.Keys == f.game.subs - f.race.giving.Keys;
    assert f'.race.holders == f.race.holders - {r} && f'.race.giving.Keys == f.race.giving.Keys - {r};
    SameHeldKeys(f.race, r);
  }

  lemma SameHeldKeys(race: SlotRace.State, r: ReqId)
    requires r in race.giving
    ensures HeldKeys(race.holders - {r}, race.giving.Keys - {r}) == HeldKeys(race.holders, race.giving.Keys)
  {
    var holders, giving := race.holders, race.giving.Keys;
    forall j | j in HeldKeys(holders, giving) ensures j in HeldKeys(holders - {r}, giving - {r}) {
      var q :| q in holders && q !in giving && holders[q] == j;
      assert q in holders - {r} && (holders - {r})[q] == j;
    }
  }

  lemma StepGoes(f: Fine, e: FineEvent)
    requires Linked(f) && FineEnabled(f, e)
    ensures Goes(Coarse(f), TraceOf(f, e), Coarse(FineStep(f, e)))
  {
    match e
    case Request(ge) => RequestSimulates(f, ge);
    case Send(r) => SendGoes(f, r);
    case GiveLoad(r) =>
      SlotRace.InvExcludes(f.race);
      GiveLoadSimulates(f, r);
    case Receive(r) =>
      ReceiveInvisible(f, r);
      OtherInvisible(f, e);
    case _ => OtherInvisible(f, e);
  }

  lemma StepLinks(f: Fine, e: FineEvent)
    requires Linked(f) && FineEnabled(f, e) && Quiet(f, e)
    ensures Linked(FineStep(f, e))
  {
    StepMatches(f, e);
    if OnSlots(e).Some? {
      SlotRace.QuietStepKeepsInv(f.race, OnSlots(e).value);
    }
  }

  lemma {:induction false} RunSimulates(f: Fine, es: seq<FineEvent>)
    requires Linked(f) && FineRun(f, es) && QuietRun(f, es)
    ensures Linked(FineExec(f, es)) && Goes(Coarse(f), Trace(f, es), Coarse(FineExec(f, es)))
    decreases |es|
  {
    if es != [] {
      var f' := FineStep(f, es[0]);
      StepGoes(f, es[0]);
      StepLinks(f, es[0]);
      RunSimulates(f', es[1..]);
      RunsCompose(Coarse(f), TraceOf(f, es[0]), Trace(f', es[1..]));
    }
  }

  lemma StartsLinked()
    ensures Linked(FineInit) && Coarse(FineInit) == Init
  {
    assert HeldTable(SlotRace.Init) == map[];
    assert FineInit.game.subs - FineInit.race.giving.Keys == map[];
  }

  /** The trace of every run on the fine-grained slots whose deletes are quiet is a run of the protocol with one-step
      slots. It has the requests of the run in their order, a Submit for each successful acquire and a Release where
      each release begins, and it ends in the same rows and with the same submissions, those giving their slot back
      left out. */
  lemma QuietRunsAreProtocolRuns(es: seq<FineEvent>)
    requires FineRun(FineInit, es) && QuietRun(FineInit, es)
    ensures Linked(FineExec(FineInit, es))
    ensures ValidRun(Init, Trace(FineInit, es)) && After(Trace(FineInit, es)) == Coarse(FineExec(FineInit, es))
  {
    StartsLinked();
    RunSimulates(FineInit, es);
  }
}
