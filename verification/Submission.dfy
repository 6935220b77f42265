/** One submission that no other request interrupts (internal/service/submission_service.go:52-178): its statements run
    to the end by the protocol's own step functions, and what that comes to. */
module Submission {
  import opened Common
  import opened GameTables
  import opened GameProtocol
  import opened GameRuns
  import Slots

  function Rank(p: Phase): nat {
    match p
    case Started => 11 case SawActive => 10 case GotIndex(_) => 9 case GotProblem(_, _) => 8 case Accepted(_, _) => 7
    case Saved(_, _) => 6 case Advanced(_) => 5 case NonFinal(_) => 4 case ReadGame(_) => 3 case ReadBack(_) => 2
    case Final(_) => 1 case Done(_) => 0
  }

  /** Statement after statement, until the tests have to run or the submission is done. */
  function Settle(db: Tables, sub: Sub): (Tables, Phase)
    decreases Rank(sub.phase)
  {
    if CanProgress(sub.phase) then Settle(NextDb(db, sub), sub.(phase := NextPhase(db, sub))) else (db, sub.phase)
  }

  /** What happens to the problem once it is found: it cannot be loaded, or the tests give a verdict and the solution of
      an accepted one is saved or not. */
  datatype Trial = Unavailable | Judged(accepted: bool, saved: bool)

  function AfterSave(db: Tables, u: UserId, g: GameId, pin: Pin, saved: bool): Tables {
    if saved then InsertRow(db, SolutionFor(u, g, pin)) else db
  }

  /** A whole submission after its slot and its rate limit: the rows it leaves and its outcome. */
  function SubmitAlone(db: Tables, u: UserId, g: GameId, trial: Trial): (Tables, Outcome) {
    var p := Settle(db, Sub(u, g, Started)).1;
    if !p.GotProblem? || trial.Unavailable? then (db, Failed)
    else if !trial.accepted then (db, Rejected)
    else
      var (db', end) := Settle(AfterSave(db, u, g, p.pin, trial.saved), Sub(u, g, Saved(p.idx, p.pin)));
      (db', if end.Done? then end.outcome else Failed)
  }

  // What it comes to

  /** The player may submit: the game is active and there is a problem at the player's index. */
  predicate HasProblem(db: Tables, u: UserId, g: GameId) {
    && g in db.games && db.games[g].status == Active && u in db.games[g].players
    && db.games[g].players[u] < |db.games[g].problems|
  }

  lemma FindsProblem(db: Tables, u: UserId, g: GameId)
    ensures Settle(db, Sub(u, g, Started)).0 == db
    ensures Settle(db, Sub(u, g, Started)).1 ==
            if !HasProblem(db, u, g) then Done(Failed)
            else GotProblem(db.games[g].players[u], db.games[g].problems[db.games[g].players[u]])
  {
    var sub := Sub(u, g, Started);
    var p1 := NextPhase(db, sub);
    if p1.SawActive? {
      var p2 := NextPhase(db, sub.(phase := p1));
      if p2.GotIndex? {
        var p3 := NextPhase(db, sub.(phase := p2));
        assert Settle(db, sub.(phase := p3)) == (db, p3);
      }
      assert Settle(db, sub.(phase := p1)) == Settle(db, sub.(phase := p2));
    }
    assert Settle(db, sub) == Settle(db, sub.(phase := p1));
  }

  function Moved(game: Game, u: UserId): Game
    requires u in game.players
  {
    game.(players := game.players[u := game.players[u] + 1])
  }

  /** The game one problem further on: not at the end it only moves the player, at the end it has a winner. */
  function Further(game: Game, u: UserId): Game
    requires u in game.players
  {
    if game.players[u] + 1 < |game.problems| then Moved(game, u)
    else Moved(game, u).(status := Finished, winner := Some(if game.solo then game.creator else u))
  }

  lemma AdvanceSettles(db: Tables, sub: Sub)
    requires sub.phase.Saved? && sub.game in db.games && sub.user in db.games[sub.game].players
    ensures var game := db.games[sub.game];
            Settle(db, sub) == Settle(PutGame(db, sub.game, Moved(game, sub.user)),
                sub.(phase := Advanced(game.players[sub.user] + 1)))
  {
    var game := db.games[sub.game];
    assert AdvanceRow(db, sub.game, sub.user) ==
        Ok((PutGame(db, sub.game, Moved(game, sub.user)), game.players[sub.user] + 1));
  }

  /** The statements after the solution is saved, from any rows: the player always moves, and at the end the game is
      finished if it is still active. */
  function Settled(db: Tables, u: UserId, g: GameId): (Tables, Outcome) {
    if !(g in db.games && u in db.games[g].players) then (db, Failed) else
    var game := db.games[g];
    var k := game.players[u] + 1;
    var moved := PutGame(db, g, Moved(game, u));
    if k < |game.problems| then (moved, Next(k, game.problems[k].slug))
    else if |game.problems| == 0 then (moved, Failed)
    else if game.status != Active then (moved, AlreadyAdvanced)
    else (PutGame(db, g, Further(game, u)), Won(if game.solo then game.creator else u))
  }

  lemma SettlesAs(db: Tables, u: UserId, g: GameId, idx: nat, pin: Pin)
    ensures Settle(db, Sub(u, g, Saved(idx, pin))) == (Settled(db, u, g).0, Done(Settled(db, u, g).1))
  {
    var sub := Sub(u, g, Saved(idx, pin));
    if g in db.games && u in db.games[g].players {
      var game := db.games[g];
      var k := game.players[u] + 1;
      var moved := PutGame(db, g, Moved(game, u));
      AdvanceSettles(db, sub);
      if k < |game.problems| || |game.problems| == 0 {
        ReadsNext(moved, sub.(phase := Advanced(k)));
      } else {
        Finishes(moved, sub.(phase := Advanced(k)));
        assert moved.games[g := Further(game, u)] == db.games[g := Further(game, u)];
      }
    } else {
      assert Settle(db, sub) == Settle(db, sub.(phase := Done(Failed)));
    }
  }

  lemma Finishes(db: Tables, sub: Sub)
    requires sub.phase.Advanced? && sub.game in db.games && 0 < |db.games[sub.game].problems| <= sub.phase.idx
    ensures var game := db.games[sub.game];
            var winner := if game.solo then game.creator else sub.user;
            Settle(db, sub) ==
            if game.status != Active then (db, Done(AlreadyAdvanced))
            else (PutGame(db, sub.game, game.(status := Finished, winner := Some(winner))), Done(Won(winner)))
  {
    var last := sub.(phase := Final(sub.phase.idx));
    assert Settle(db, sub) == Settle(db, last);
    assert Settle(db, last) == Settle(NextDb(db, last), last.(phase := NextPhase(db, last)));
  }

  lemma ReadsNext(db: Tables, sub: Sub)
    requires sub.phase.Advanced? && sub.game in db.games && sub.user in db.games[sub.game].players
    requires var game := db.games[sub.game];
             game.players[sub.user] == sub.phase.idx && (sub.phase.idx < |game.problems| || |game.problems| == 0)
    ensures var game, k := db.games[sub.game], sub.phase.idx;
            Settle(db, sub) == (db, Done(if k < |game.problems| then Next(k, game.problems[k].slug) else Failed))
  {
    var k := sub.phase.idx;
    assert Settle(db, sub) == Settle(db, sub.(phase := NonFinal(k)));
    assert Settle(db, sub.(phase := NonFinal(k))) == Settle(db, sub.(phase := ReadGame(k)));
    assert Settle(db, sub.(phase := ReadGame(k))) == Settle(db, sub.(phase := ReadBack(k)));
    assert Settle(db, sub.(phase := ReadBack(k))) ==
        Settle(db, sub.(phase := NextPhase(db, sub.(phase := ReadBack(k)))));
  }

  /** How a submission ends once the tests have their say. */
  lemma AloneEnds(db: Tables, u: UserId, g: GameId, trial: Trial)
    ensures !HasProblem(db, u, g) || trial.Unavailable? ==> SubmitAlone(db, u, g, trial) == (db, Failed)
    ensures HasProblem(db, u, g) && trial.Judged? ==>
              var pin := db.games[g].problems[db.games[g].players[u]];
              SubmitAlone(db, u, g, trial) ==
              if !trial.accepted then (db, Rejected) else Settled(AfterSave(db, u, g, pin, trial.saved), u, g)
  {
    FindsProblem(db, u, g);
    if HasProblem(db, u, g) && trial.Judged? && trial.accepted {
      var i := db.games[g].players[u];
      var pin := db.games[g].problems[i];
      SettlesAs(AfterSave(db, u, g, pin, trial.saved), u, g, i, pin);
    }
  }

  /** An undisturbed submission fails exactly when the player has no problem to solve or it cannot be loaded; an
      accepted one moves the player on by one problem, and the last one finishes the game with its winner. Nothing
      else in the tables changes except for the saved solution. */
  lemma SubmitAloneMeans(db: Tables, u: UserId, g: GameId, trial: Trial)
    ensures var (db', outcome) := SubmitAlone(db, u, g, trial);
            if !HasProblem(db, u, g) || trial.Unavailable? then db' == db && outcome == Failed
            else if !trial.accepted then db' == db && outcome == Rejected
            else
              var game := db.games[g];
              var k := game.players[u] + 1;
              && db' == PutGame(AfterSave(db, u, g, game.problems[k - 1], trial.saved), g, Further(game, u))
              && outcome == if k < |game.problems| then Next(k, game.problems[k].slug)
                  else Won(if game.solo then game.creator else u)
  {
    AloneEnds(db, u, g, trial);
  }

  // An undisturbed submission is a run of the protocol

  /** Where submission r stands when its statements have run, with everybody else where they were. */
  function SettledState(s: State, r: ReqId): State
    requires r in s.subs
  {
    var (db, p) := Settle(s.db, s.subs[r]);
    SetPhase(s, r, p).(db := db)
  }

  lemma SettledAfterStep(s: State, r: ReqId)
    requires r in s.subs && CanProgress(s.subs[r].phase)
    ensures var s' := Step(s, Progress(r));
            && r in s'.subs && Rank(s'.subs[r].phase) < Rank(s.subs[r].phase)
            && SettledState(s', r) == SettledState(s, r)
  {
    var s' := Step(s, Progress(r));
    assert s'.subs[r] == s.subs[r].(phase := NextPhase(s.db, s.subs[r]));
    assert Settle(s'.db, s'.subs[r]) == Settle(s.db, s.subs[r]);
  }

  /** Every statement of Settle is a step of the protocol. */
  lemma {:induction false} SettleReaches(s: State, r: ReqId)
    requires r in s.subs
    ensures Reaches(s, SettledState(s, r))
    decreases Rank(s.subs[r].phase)
  {
    if CanProgress(s.subs[r].phase) {
      SettledAfterStep(s, r);
      StepReaches(s, Progress(r));
      SettleReaches(Step(s, Progress(r)), r);
      ReachesTransitive(s, Step(s, Progress(r)), SettledState(s, r));
    } else {
      assert s.subs[r := s.subs[r]] == s.subs;
      StaysReaches(s);
    }
  }

  /** Giving the slot back ends the request and leaves the other requests as they were. */
  lemma ReleaseReaches(s: State, r: ReqId, sub: Sub, before: map<ReqId, Sub>)
    requires r !in before && s.subs == before[r := sub] && sub.phase.Done?
    requires Slots.Held(s.slots, SubmitKey(sub.user))
    ensures Reaches(s, s.(subs := before, slots := s.slots[SubmitKey(sub.user) := false]))
  {
    StepReaches(s, Release(r));
    assert s.subs - {r} == before;
  }

  lemma AbortReaches(s: State, r: ReqId)
    requires r in s.subs
    ensures Reaches(s, if s.subs[r].phase.Done? then s else SetPhase(s, r, Done(Failed)))
  {
    if s.subs[r].phase.Done? {
      StaysReaches(s);
    } else {
      StepReaches(s, Abort(r));
    }
  }

  /** The middle part, with the slot held throughout: from Started to Done. */
  lemma BodyReaches(s: State, r: ReqId, u: UserId, g: GameId, trial: Trial)
    requires r in s.subs && s.subs[r] == Sub(u, g, Started)
    ensures var (db', outcome) := SubmitAlone(s.db, u, g, trial);
            Reaches(s, SetPhase(s, r, Done(outcome)).(db := db'))
  {
    FindsProblem(s.db, u, g);
    SettleReaches(s, r);
    var t := SettledState(s, r);
    var (db', outcome) := SubmitAlone(s.db, u, g, trial);
    var end := SetPhase(s, r, Done(outcome)).(db := db');
    if !HasProblem(s.db, u, g) || trial.Unavailable? {
      AbortReaches(t, r);
      var v := if t.subs[r].phase.Done? then t else SetPhase(t, r, Done(Failed));
      assert v == end;
      ReachesTransitive(s, t, v);
    } else {
      JudgedReaches(t, r, trial);
      assert t.db == s.db;
      JudgedEnds(s, t, r, u, g, trial);
      ReachesTransitive(s, t, end);
    }
  }

  ghost function JudgedEnd(t: State, r: ReqId, trial: Trial): State
    requires r in t.subs && t.subs[r].phase.GotProblem? && trial.Judged?
  {
    if !trial.accepted then SetPhase(t, r, Done(Rejected)) else
    var sub := t.subs[r];
    var (db', p) := Settle(AfterSave(t.db, sub.user, sub.game, sub.phase.pin, trial.saved),
        sub.(phase := Saved(sub.phase.idx, sub.phase.pin)));
    SetPhase(t, r, p).(db := db')
  }

  lemma JudgedReaches(t: State, r: ReqId, trial: Trial)
    requires r in t.subs && t.subs[r].phase.GotProblem? && t.subs[r].game in t.db.games && trial.Judged?
    ensures Reaches(t, JudgedEnd(t, r, trial))
  {
    StepReaches(t, Judge(r, trial.accepted));
    if trial.accepted {
      var a := Step(t, Judge(r, true));
      StepReaches(a, Save(r, trial.saved));
      var b := Step(a, Save(r, trial.saved));
      ReachesTransitive(t, a, b);
      SettleReaches(b, r);
      var end := SettledState(b, r);
      ReachesTransitive(t, b, end);
      assert end == JudgedEnd(t, r, trial);
    }
  }

  lemma JudgedEnds(s: State, t: State, r: ReqId, u: UserId, g: GameId, trial: Trial)
    requires r in s.subs && s.subs[r] == Sub(u, g, Started) && HasProblem(s.db, u, g) && trial.Judged?
    requires t == SetPhase(s, r, Settle(s.db, s.subs[r]).1)
    ensures t.subs[r].phase.GotProblem?
    ensures var (db', outcome) := SubmitAlone(s.db, u, g, trial);
            JudgedEnd(t, r, trial) == SetPhase(s, r, Done(outcome)).(db := db')
  {
    FindsProblem(s.db, u, g);
    if trial.accepted {
      var p := t.subs[r].phase;
      SettlesAs(AfterSave(s.db, u, g, p.pin, trial.saved), u, g, p.idx, p.pin);
    }
  }

  /** From any state in which its slot is free, a submission running alone is one of the protocol's runs: it ends with
      the rows of SubmitAlone, its slot free and every other request where it was. So whatever is proved of all runs
      holds of it. */
  lemma SubmitAloneIsRun(s: State, r: ReqId, u: UserId, g: GameId, trial: Trial)
    requires r !in s.subs && SubmitKey(u) !in Slots.HeldSet(s.slots)
    ensures Reaches(s, s.(db := SubmitAlone(s.db, u, g, trial).0, slots := s.slots[SubmitKey(u) := false]))
  {
    var a := Step(s, Submit(r, u, g));
    StepReaches(s, Submit(r, u, g));
    BodyReaches(a, r, u, g, trial);
    var (db', outcome) := SubmitAlone(s.db, u, g, trial);
    var b := SetPhase(a, r, Done(outcome)).(db := db');
    ReachesTransitive(s, a, b);
    assert b.subs == s.subs[r := Sub(u, g, Done(outcome))];
    ReleaseReaches(b, r, Sub(u, g, Done(outcome)), s.subs);
    var end := b.(subs := s.subs, slots := b.slots[SubmitKey(u) := false]);
    ReachesTransitive(s, b, end);
    assert end == s.(db := db', slots := s.slots[SubmitKey(u) := false]);
  }

  /** Hence it keeps the rows among those that runs leave. */
  lemma SubmitKeepsReachable(db: Tables, u: UserId, g: GameId, trial: Trial)
    requires Reachable(db)
    ensures Reachable(SubmitAlone(db, u, g, trial).0)
  {
    var s :| Reaches(Init, s) && Idle(s) && s.db == db;
    SubmitAloneIsRun(s, 0, u, g, trial);
    var end := s.(db := SubmitAlone(db, u, g, trial).0, slots := s.slots[SubmitKey(u) := false]);
    ReachesTransitive(Init, s, end);
    assert Slots.HeldSet(end.slots) == {};
    assert Idle(end);
  }
}
