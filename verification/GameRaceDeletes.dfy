/** What a delete does that is not quiet: from any good state it lets a player pass the end of the problems. */
module GameRaceDeletes {
  import opened Common
  import opened GameTables
  import opened GameProtocol
  import opened GameInvariant
  import opened GameRuns
  import opened GameRace
  import opened GameRaceTheorems
  import Slots
  import SlotRace

  /** Some quiet run leads from f to t. */
  ghost predicate LeadsTo(f: Fine, t: Fine) {
    exists es :: FineRun(f, es) && QuietRun(f, es) && FineExec(f, es) == t
  }

  lemma {:induction false} Append(f: Fine, es: seq<FineEvent>, e: FineEvent)
    requires FineRun(f, es) && FineEnabled(FineExec(f, es), e)
    ensures FineRun(f, es + [e]) && FineExec(f, es + [e]) == FineStep(FineExec(f, es), e)
    ensures QuietRun(f, es) && Quiet(FineExec(f, es), e) ==> QuietRun(f, es + [e])
    decreases |es|
  {
    if es == [] {
      assert (es + [e])[1..] == [];
    } else {
      assert (es + [e])[1..] == es[1..] + [e];
      Append(FineStep(f, es[0]), es[1..], e);
    }
  }

  lemma LeadsOn(f: Fine, t: Fine, e: FineEvent)
    requires LeadsTo(f, t) && FineEnabled(t, e) && !e.EvictDelete?
    ensures LeadsTo(f, FineStep(t, e))
  {
    var es :| FineRun(f, es) && QuietRun(f, es) && FineExec(f, es) == t;
    Append(f, es, e);
  }

  lemma LeadsHere(f: Fine)
    ensures LeadsTo(f, f)
  {
    assert FineRun(f, []) && QuietRun(f, []) && FineExec(f, []) == f;
  }

  /** Submission r of user u holds a channel that is no longer in the map. */
  ghost predicate Orphan(f: Fine, r: ReqId, u: UserId) {
    && SlotRace.Active(f.race, r) && f.race.holders[r] == SubmitKey(u) && SubmitKey(u) !in f.race.table
    && r in f.game.subs && r !in f.race.pending
    && (forall q | q in f.race.giving :: q in f.race.holders)
    && f.game.subs.Keys == f.race.holders.Keys && GamesOk(f.game.db)
  }

  /** A delete of a key in use leaves an orphan, at once or after the pending acquire has sent. */
  lemma DeleteOrphans(f: Fine, k: Slots.Key) returns (t: Fine, r: ReqId, u: UserId)
    requires Linked(f) && GamesOk(f.game.db) && FineEnabled(f, EvictDelete(k))
    requires SlotRace.PendingOn(f.race, k) || SlotRace.ActiveKey(f.race, k)
    ensures LeadsTo(FineStep(f, EvictDelete(k)), t) && Orphan(t, r, u)
  {
    var f1 := FineStep(f, EvictDelete(k));
    LeadsHere(f1);
    if SlotRace.ActiveKey(f.race, k) {
      r :| SlotRace.Active(f.race, r) && f.race.holders[r] == k;
      t, u := f1, k.user;
    } else {
      r :| r in f.race.pending && f.race.pending[r].key == k;
      u := k.user;
      t := PendingSends(f, k, r);
    }
  }

  lemma PendingSends(f: Fine, k: Slots.Key, r: ReqId) returns (t: Fine)
    requires Linked(f) && GamesOk(f.game.db) && FineEnabled(f, EvictDelete(k)) && !SlotRace.ActiveKey(f.race, k)
    requires r in f.race.pending && f.race.pending[r].key == k
    ensures LeadsTo(FineStep(f, EvictDelete(k)), t) && Orphan(t, r, k.user)
  {
    var f1 := FineStep(f, EvictDelete(k));
    LeadsHere(f1);
    OtherMatches(f, EvictDelete(k));
    t := f1;
    if f.race.chans[f.race.pending[r].chan].full {
      SlotRace.BlockerIsGiving(f.race, r);
      var p :| p in f.race.giving && p in f.race.holders && f.race.giving[p] == Some(f.race.pending[r].chan);
      t := ChannelFrees(f1, p, r);
    }
    LateSend(f1, t, r, k);
    t := FineStep(t, Send(r));
  }

  /** Whoever is giving the channel back receives. */
  lemma ChannelFrees(f: Fine, p: ReqId, r: ReqId) returns (t: Fine)
    requires Matched(f) && r in f.race.pending && f.race.pending[r].chan < |f.race.chans|
    requires p in f.race.giving && p in f.race.holders && f.race.giving[p] == Some(f.race.pending[r].chan)
    requires f.race.chans[f.race.pending[r].chan].full
    ensures LeadsTo(f, t) && Matched(t) && t.game.db == f.game.db && t.race.table == f.race.table
    ensures t.race.pending == f.race.pending && t.race.holders == f.race.holders - {p}
              && |t.race.chans| == |f.race.chans|
    ensures !t.race.chans[f.race.pending[r].chan].full
  {
    LeadsHere(f);
    OtherMatches(f, Receive(p));
    LeadsOn(f, f, Receive(p));
    t := FineStep(f, Receive(p));
  }

  /** An acquire that sends into a channel that has left the map. */
  lemma LateSend(f: Fine, t: Fine, r: ReqId, k: Slots.Key)
    requires LeadsTo(f, t) && Matched(t) && GamesOk(t.game.db) && k !in t.race.table
    requires r in t.race.pending && r !in t.race.holders && t.race.pending[r].key == k
    requires t.race.pending[r].chan < |t.race.chans| && !t.race.chans[t.race.pending[r].chan].full
    ensures FineEnabled(t, Send(r)) && LeadsTo(f, FineStep(t, Send(r))) && Orphan(FineStep(t, Send(r)), r, k.user)
  {
    LeadsOn(f, t, Send(r));
  }

  /** The game that the two submissions will count twice. */
  function Solo(u: UserId, idx: nat): Game {
    Game(u, None, Active, true, map[u := idx], [Pin("a", 0, "a")])
  }

  /** A fresh solo game of the user. */
  lemma OpensGame(f: Fine, t: Fine, r: ReqId, u: UserId) returns (t': Fine, g: GameId)
    requires LeadsTo(f, t) && Orphan(t, r, u)
    ensures LeadsTo(f, t') && Orphan(t', r, u) && g in t'.game.db.games && t'.game.db.games[g] == Solo(u, 0)
  {
    g := t.game.db.nextId;
    var pins := [Pin("a", 0, "a")];
    assert PinOk(pins[0]) by {
      assert "a"[1..] == "";
    }
    LeadsOn(f, t, Request(Reserve));
    var t1 := FineStep(t, Request(Reserve));
    LeadsOn(f, t1, Request(Create(g, u, true, pins)));
    var t2 := FineStep(t1, Request(Create(g, u, true, pins)));
    LeadsOn(f, t2, Request(Start(g, u)));
    t' := FineStep(t2, Request(Start(g, u)));
    GamesStayOk(t.game, g, u, pins);
  }

  lemma GamesStayOk(s: State, g: GameId, u: UserId, pins: seq<Pin>)
    requires GamesOk(s.db) && g == s.db.nextId && |pins| == 1 && PinOk(pins[0])
    ensures var s1 := Step(s, Reserve);
            && Enabled(s1, Create(g, u, true, pins))
            && var s2 := Step(s1, Create(g, u, true, pins));
               && Enabled(s2, Start(g, u)) && GamesOk(Step(s2, Start(g, u)).db)
               && Step(s2, Start(g, u)).db.games[g] == Game(u, None, Active, true, map[u := 0], pins)
  {
    var s1 := Step(s, Reserve);
    CreateQuiet(s1, Create(g, u, true, pins));
    StartQuiet(Step(s1, Create(g, u, true, pins)).db, g, u);
  }

  /** A newcomer enters beside the orphan, and the orphan's release takes the newcomer's token. */
  lemma TokenStolen(f: Fine, t: Fine, r: ReqId, u: UserId, g: GameId) returns (t': Fine, q: ReqId)
    requires LeadsTo(f, t) && Orphan(t, r, u) && g in t.game.db.games && t.game.db.games[g] == Solo(u, 0)
    ensures LeadsTo(f, t') && g in t'.game.db.games && t'.game.db.games[g] == Solo(u, 0)
    ensures q in t'.game.subs && t'.game.subs[q] == Sub(u, g, Started)
    ensures var k := SubmitKey(u);
            k in t'.race.table && t'.race.table[k] < |t'.race.chans| && !t'.race.chans[t'.race.table[k]].full
  {
    var t1;
    t1, q := NewcomerEnters(f, t, r, u, g);
    var t2 := Ends(f, t1, r);
    t' := Steals(f, t2, r, SubmitKey(u));
  }

  /** Any submission can be brought to its end. */
  lemma Ends(f: Fine, t: Fine, r: ReqId) returns (t': Fine)
    requires LeadsTo(f, t) && r in t.game.subs
    ensures LeadsTo(f, t') && t'.race == t.race && t'.game.db == t.game.db
    ensures t'.game.subs.Keys == t.game.subs.Keys && t'.game.subs[r].phase.Done?
    ensures forall q | q in t.game.subs && q != r :: t'.game.subs[q] == t.game.subs[q]
  {
    t' := t;
    if !t.game.subs[r].phase.Done? {
      LeadsOn(f, t, Request(Abort(r)));
      t' := FineStep(t, Request(Abort(r)));
    }
  }

  /** A release that loads the channel in the map takes its token. */
  lemma Steals(f: Fine, t: Fine, r: ReqId, k: Slots.Key) returns (t': Fine)
    requires LeadsTo(f, t) && SlotRace.Active(t.race, r) && t.race.holders[r] == k
    requires r in t.game.subs && t.game.subs[r].phase.Done?
    requires k in t.race.table && t.race.table[k] < |t.race.chans| && t.race.chans[t.race.table[k]].full
    ensures LeadsTo(f, t') && t'.game.db == t.game.db && t'.game.subs == t.game.subs - {r}
    ensures k in t'.race.table && t'.race.table[k] < |t'.race.chans| && !t'.race.chans[t'.race.table[k]].full
  {
    LeadsOn(f, t, GiveLoad(r));
    var t1 := FineStep(t, GiveLoad(r));
    LeadsOn(f, t1, Receive(r));
    t' := FineStep(t1, Receive(r));
  }

  lemma NewcomerEnters(f: Fine, t: Fine, r: ReqId, u: UserId, g: GameId) returns (t': Fine, q: ReqId)
    requires LeadsTo(f, t) && Orphan(t, r, u) && g in t.game.db.games
    ensures LeadsTo(f, t') && t'.game.db == t.game.db && q != r
    ensures q in t'.game.subs && t'.game.subs[q] == Sub(u, g, Started)
    ensures r in t'.game.subs && SlotRace.Active(t'.race, r) && t'.race.holders[r] == SubmitKey(u)
    ensures var k := SubmitKey(u);
            k in t'.race.table && t'.race.table[k] < |t'.race.chans| && t'.race.chans[t'.race.table[k]].full
  {
    q := LargerThanAll(t.race.pending.Keys + t.race.holders.Keys);
    LeadsOn(f, t, Load(q, u, g));
    var t1 := FineStep(t, Load(q, u, g));
    assert t1.race.chans[|t.race.chans|] == SlotRace.Chan(SubmitKey(u), false);
    LeadsOn(f, t1, Send(q));
    t' := FineStep(t1, Send(q));
  }

  /** The game at the given index, with two submissions to it in the given phases. */
  ghost predicate Two(t: Fine, u: UserId, g: GameId, idx: nat, q1: ReqId, p1: Phase, q2: ReqId, p2: Phase) {
    && q1 != q2 && g in t.game.db.games && t.game.db.games[g] == Solo(u, idx)
    && q1 in t.game.subs && t.game.subs[q1] == Sub(u, g, p1)
    && q2 in t.game.subs && t.game.subs[q2] == Sub(u, g, p2)
  }

  lemma SecondIn(f: Fine, t: Fine, u: UserId, g: GameId, q1: ReqId) returns (t': Fine, q2: ReqId)
    requires LeadsTo(f, t) && g in t.game.db.games && t.game.db.games[g] == Solo(u, 0)
    requires q1 in t.game.subs && t.game.subs[q1] == Sub(u, g, Started)
    requires var k := SubmitKey(u);
             k in t.race.table && t.race.table[k] < |t.race.chans| && !t.race.chans[t.race.table[k]].full
    ensures LeadsTo(f, t') && Two(t', u, g, 0, q1, Started, q2, Started)
  {
    q2 := LargerThanAll(t.race.pending.Keys + t.race.holders.Keys + t.game.subs.Keys);
    LeadsOn(f, t, Load(q2, u, g));
    var t1 := FineStep(t, Load(q2, u, g));
    LeadsOn(f, t1, Send(q2));
    t' := FineStep(t1, Send(q2));
  }

  /** One statement of the first submission that writes nothing. */
  lemma Reads(f: Fine, t: Fine, u: UserId, g: GameId, idx: nat, q1: ReqId, p1: Phase, q2: ReqId, p2: Phase, next: Phase)
    returns (t': Fine)
    requires LeadsTo(f, t) && Two(t, u, g, idx, q1, p1, q2, p2) && CanProgress(p1) && !p1.Saved? && !p1.Final?
    requires next == NextPhase(t.game.db, Sub(u, g, p1))
    ensures LeadsTo(f, t') && Two(t', u, g, idx, q1, next, q2, p2)
  {
    LeadsOn(f, t, Request(Progress(q1)));
    t' := FineStep(t, Request(Progress(q1)));
  }

  /** The first submission finds the only problem, passes and is saved. */
  lemma Passes(f: Fine, t: Fine, u: UserId, g: GameId, q1: ReqId, q2: ReqId, p2: Phase) returns (t': Fine)
    requires LeadsTo(f, t) && Two(t, u, g, 0, q1, Started, q2, p2)
    ensures LeadsTo(f, t') && Two(t', u, g, 0, q1, Saved(0, Pin("a", 0, "a")), q2, p2)
  {
    var pin := Pin("a", 0, "a");
    t' := Reads(f, t, u, g, 0, q1, Started, q2, p2, SawActive);
    t' := Reads(f, t', u, g, 0, q1, SawActive, q2, p2, GotIndex(0));
    t' := Reads(f, t', u, g, 0, q1, GotIndex(0), q2, p2, GotProblem(0, pin));
    t' := Judged(f, t', u, g, q1, q2, p2);
  }

  lemma Judged(f: Fine, t: Fine, u: UserId, g: GameId, q1: ReqId, q2: ReqId, p2: Phase) returns (t': Fine)
    requires LeadsTo(f, t) && Two(t, u, g, 0, q1, GotProblem(0, Pin("a", 0, "a")), q2, p2)
    ensures LeadsTo(f, t') && Two(t', u, g, 0, q1, Saved(0, Pin("a", 0, "a")), q2, p2)
  {
    LeadsOn(f, t, Request(Judge(q1, true)));
    var t1 := FineStep(t, Request(Judge(q1, true)));
    LeadsOn(f, t1, Request(Save(q1, false)));
    t' := FineStep(t1, Request(Save(q1, false)));
  }

  /** A saved submission is counted, whatever the index by then. */
  lemma Counts(f: Fine, t: Fine, u: UserId, g: GameId, idx: nat, q1: ReqId, q2: ReqId, p2: Phase) returns (t': Fine)
    requires LeadsTo(f, t) && Two(t, u, g, idx, q1, Saved(0, Pin("a", 0, "a")), q2, p2)
    ensures LeadsTo(f, t') && Two(t', u, g, idx + 1, q1, Advanced(idx + 1), q2, p2)
  {
    assert map[u := idx][u := idx + 1] == map[u := idx + 1];
    var db := t.game.db;
    assert AdvanceRow(db, g, u) == Ok((PutGame(db, g, Solo(u, idx + 1)), idx + 1));
    LeadsOn(f, t, Request(Progress(q1)));
    t' := FineStep(t, Request(Progress(q1)));
  }

  /** From an orphan to two submissions of one user in one fresh game. */
  lemma OrphanAdmitsTwo(f: Fine, t: Fine, r: ReqId, u: UserId) returns (t': Fine, g: GameId, q1: ReqId, q2: ReqId)
    requires LeadsTo(f, t) && Orphan(t, r, u)
    ensures LeadsTo(f, t') && Two(t', u, g, 0, q1, Started, q2, Started)
  {
    t', g := OpensGame(f, t, r, u);
    t', q1 := TokenStolen(f, t', r, u, g);
    t', q2 := SecondIn(f, t', u, g, q1);
  }

  lemma TwoPassEnd(f: Fine, t: Fine, u: UserId, g: GameId, q1: ReqId, q2: ReqId)
    requires LeadsTo(f, t) && Two(t, u, g, 0, q1, Started, q2, Started)
    ensures exists t' :: LeadsTo(f, t') && !IndicesOk(t'.game.db)
  {
    var t1 := BothPass(f, t, u, g, q1, q2);
    var t2 := BothCount(f, t1, u, g, q1, q2);
    assert t2.game.db.games[g].players[u] == 2;
    assert !IndicesOk(t2.game.db);
  }

  lemma BothPass(f: Fine, t: Fine, u: UserId, g: GameId, q1: ReqId, q2: ReqId) returns (t': Fine)
    requires LeadsTo(f, t) && Two(t, u, g, 0, q1, Started, q2, Started)
    ensures LeadsTo(f, t') && Two(t', u, g, 0, q2, Saved(0, Pin("a", 0, "a")), q1, Saved(0, Pin("a", 0, "a")))
  {
    var t1 := Passes(f, t, u, g, q1, q2, Started);
    t' := Passes(f, t1, u, g, q2, q1, Saved(0, Pin("a", 0, "a")));
  }

  lemma BothCount(f: Fine, t: Fine, u: UserId, g: GameId, q1: ReqId, q2: ReqId) returns (t': Fine)
    requires LeadsTo(f, t) && Two(t, u, g, 0, q2, Saved(0, Pin("a", 0, "a")), q1, Saved(0, Pin("a", 0, "a")))
    ensures LeadsTo(f, t') && Two(t', u, g, 2, q1, Advanced(2), q2, Advanced(1))
  {
    var t1 := Counts(f, t, u, g, 0, q2, q1, Saved(0, Pin("a", 0, "a")));
    t' := Counts(f, t1, u, g, 1, q1, q2, Advanced(1));
  }

  /** Every delete of a key that is held, or being acquired, has a continuation in which a player's index passes the
      number of problems. */
  lemma UnquietDeletePassesEnd(f: Fine, k: Slots.Key)
    requires Linked(f) && GamesOk(f.game.db) && FineEnabled(f, EvictDelete(k))
    requires SlotRace.PendingOn(f.race, k) || SlotRace.ActiveKey(f.race, k)
    ensures exists t :: LeadsTo(FineStep(f, EvictDelete(k)), t) && !IndicesOk(t.game.db)
  {
    var f1 := FineStep(f, EvictDelete(k));
    var t, r, u := DeleteOrphans(f, k);
    var t', g, q1, q2 := OrphanAdmitsTwo(f1, t, r, u);
    TwoPassEnd(f1, t', u, g, q1, q2);
  }

  /** The exact condition: from a good state, deleting k keeps every index within the problems in every quiet
      continuation if and only if no acquire of k is between its load and its send and every holder of k has begun to
      give it back. */
  lemma DeleteBoundsIndicesExactly(f: Fine, k: Slots.Key)
    requires Linked(f) && Inv(Coarse(f)) && FineEnabled(f, EvictDelete(k))
    ensures (!SlotRace.PendingOn(f.race, k) && !SlotRace.ActiveKey(f.race, k)) <==>
            forall t | LeadsTo(FineStep(f, EvictDelete(k)), t) :: IndicesOk(t.game.db)
  {
    var f1 := FineStep(f, EvictDelete(k));
    if !SlotRace.PendingOn(f.race, k) && !SlotRace.ActiveKey(f.race, k) {
      StepLinks(f, EvictDelete(k));
      StepGoes(f, EvictDelete(k));
      forall t | LeadsTo(f1, t) ensures IndicesOk(t.game.db) {
        QuietBounds(f1, t);
      }
    } else {
      UnquietDeletePassesEnd(f, k);
    }
  }

  lemma QuietBounds(f: Fine, t: Fine)
    requires Linked(f) && Inv(Coarse(f)) && LeadsTo(f, t)
    ensures IndicesOk(t.game.db)
  {
    var es :| FineRun(f, es) && QuietRun(f, es) && FineExec(f, es) == t;
    RunSimulates(f, es);
    RunKeepsInv(Coarse(f), Trace(f, es));
    assert GamesOk(t.game.db);
    assert forall g | g in t.game.db.games :: GameOk(t.game.db.games[g]);
  }

  lemma ThreeEvents(a: FineEvent, b: FineEvent, c: FineEvent)
    requires FineEnabled(FineInit, a) && FineEnabled(FineStep(FineInit, a), b)
    requires FineEnabled(FineStep(FineStep(FineInit, a), b), c)
    ensures FineRun(FineInit, [a, b, c])
    ensures FineExec(FineInit, [a, b, c]) == FineStep(FineStep(FineStep(FineInit, a), b), c)
  {
    Append(FineInit, [], a);
    Append(FineInit, [a], b);
    Append(FineInit, [a, b], c);
    assert [] + [a] == [a] && [a] + [b] == [a, b] && [a, b] + [c] == [a, b, c];
  }

  /** It does happen, from the start: the delete falls inside the acquire of submission 5, and after it no other delete
      is needed for an index beyond the number of problems. */
  lemma IndexCanPassEnd()
    ensures var es := [Load(5, 1, 0), EvictSee(SubmitKey(1)), EvictDelete(SubmitKey(1))];
            && FineRun(FineInit, es)
            && exists t :: LeadsTo(FineExec(FineInit, es), t) && !IndicesOk(t.game.db)
  {
    var k := SubmitKey(1);
    var f := SeenInsideAcquire();
    UnquietDeletePassesEnd(f, k);
    ThreeEvents(Load(5, 1, 0), EvictSee(k), EvictDelete(k));
  }

  lemma SeenInsideAcquire() returns (f: Fine)
    ensures var k := SubmitKey(1);
            && FineEnabled(FineInit, Load(5, 1, 0)) && FineEnabled(FineStep(FineInit, Load(5, 1, 0)), EvictSee(k))
            && f == FineStep(FineStep(FineInit, Load(5, 1, 0)), EvictSee(k)) && FineEnabled(f, EvictDelete(k))
            && Linked(f) && GamesOk(f.game.db) && SlotRace.PendingOn(f.race, k)
  {
    var k := SubmitKey(1);
    var f1 := FineStep(FineInit, Load(5, 1, 0));
    f := FineStep(f1, EvictSee(k));
    StartsLinked();
    StepLinks(FineInit, Load(5, 1, 0));
    StepLinks(f1, EvictSee(k));
    assert f.race.pending[5].key == k;
  }
}
