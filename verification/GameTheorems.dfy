/** What holds of every run of the game protocol, over all interleavings. */
module GameTheorems {
  import opened Common
  import opened GameTables
  import opened GameProtocol
  import opened GameInvariant

  /** The state a run from the empty database ends in. */
  function After(es: seq<Event>): State
    requires ValidRun(Init, es)
  {
    Exec(Init, es)
  }

  lemma ReachableIsGood(es: seq<Event>)
    requires ValidRun(Init, es)
    ensures Inv(After(es))
  {
    RunKeepsInv(Init, es);
  }

  // Lifecycle and winner

  /** In every reachable state of every interleaving: a winner is a participant of a finished game,
      the creator is a participant, and an active or finished multiplayer game has two players or more. */
  lemma EveryReachableGame(es: seq<Event>, g: GameId)
    requires ValidRun(Init, es) && g in After(es).db.games
    ensures var game := After(es).db.games[g];
            && (game.winner.Some? ==> game.status == Finished && game.winner.value in game.players)
            && game.creator in game.players
            && (!game.solo && (game.status == Active || game.status == Finished) ==> |game.players| >= 2)
            && (forall u | u in game.players :: 0 <= game.players[u] <= |game.problems|)
            && 1 <= |game.problems| <= MAX_GAME_PROBLEMS
  {
    ReachableIsGood(es);
    assert GameOk(After(es).db.games[g]);
  }

  /** Between any two moments of a run at which a game exists: its problems, creator and kind are the
      same, its status does not move backwards, a winner once set stays, a terminal multiplayer status
      stays, and once it left pending its participants are frozen and no index goes down. */
  lemma GamesOnlyEvolve(es: seq<Event>, later: seq<Event>, g: GameId)
    requires ValidRun(Init, es) && ValidRun(After(es), later)
    requires g in After(es).db.games && g in Exec(After(es), later).db.games
    ensures var a, b := After(es).db.games[g], Exec(After(es), later).db.games[g];
            && a.problems == b.problems && a.creator == b.creator && a.solo == b.solo
            && Rank(a.status) <= Rank(b.status)
            && (a.winner.Some? ==> b.winner == a.winner && b.status == Finished)
            && (!a.solo && (a.status == Finished || a.status == Cancelled) ==> b.status == a.status)
            && (a.status != Pending ==> a.players.Keys == b.players.Keys)
            && (a.status != Pending ==> forall u | u in a.players :: a.players[u] <= b.players[u])
  {
    ReachableIsGood(es);
    RunKeepsInv(After(es), later);
    assert GameOk(After(es).db.games[g]);
  }

  /** A deleted game never comes back. */
  lemma DeletedStaysDeleted(es: seq<Event>, later: seq<Event>, g: GameId)
    requires ValidRun(Init, es) && Enabled(After(es), Delete(g)) && ValidRun(Step(After(es), Delete(g)), later)
    ensures g !in Exec(Step(After(es), Delete(g)), later).db.games
  {
    ReachableIsGood(es);
    StepKeepsInv(After(es), Delete(g));
    RunKeepsInv(Step(After(es), Delete(g)), later);
  }

  /** Leaving undoes joining, row for row. */
  lemma LeaveUndoesJoin(es: seq<Event>, g: GameId, u: UserId)
    requires ValidRun(Init, es) && Enabled(After(es), Join(g, u))
    ensures Enabled(Step(After(es), Join(g, u)), Leave(g, u))
    ensures Step(Step(After(es), Join(g, u)), Leave(g, u)) == After(es)
  {
    ReachableIsGood(es);
    var game := After(es).db.games[g];
    assert GameOk(game);
    assert game.players[u := 0] - {u} == game.players;
    assert After(es).db.games[g := game] == After(es).db.games;
  }

  /** A timeout that gives up after its check leaves no trace. */
  lemma DropUndoesTimeoutCheck(s: State, t: ReqId, g: GameId, u: UserId)
    requires Enabled(s, TimeoutCheck(t, g, u))
    ensures var s' := Step(s, TimeoutCheck(t, g, u));
            Enabled(s', TimeoutDrop(t)) && Step(s', TimeoutDrop(t)) == s
  {
    assert s.timeouts[t := g] - {t} == s.timeouts;
  }

  // At most one finisher

  /** The event answers its caller that the game g is now finished with a winner. */
  predicate ReportsFinish(s: State, e: Event, g: GameId) {
    match e
    case Complete(h, _) => h == g
    case Progress(r) =>
      && r in s.subs && s.subs[r].game == g && s.subs[r].phase.Final?
      && NextPhase(s.db, s.subs[r]).Done? && NextPhase(s.db, s.subs[r]).outcome.Won?
    case _ => false
  }

  function FinishReports(s: State, es: seq<Event>, g: GameId): nat
    requires ValidRun(s, es)
    decreases |es|
  {
    if es == [] then 0 else
    (if ReportsFinish(s, es[0], g) then 1 else 0) + FinishReports(Step(s, es[0]), es[1..], g)
  }

  predicate MayStillFinish(s: State, g: GameId) {
    Unused(s.db, g) || (g in s.db.games && (s.db.games[g].status == Pending || s.db.games[g].status == Active))
  }

  lemma FinishEndsTheGame(s: State, e: Event, g: GameId)
    requires GamesOk(s.db) && Enabled(s, e) && ReportsFinish(s, e, g)
    ensures g in s.db.games && s.db.games[g].status == Active
    ensures !Unused(Step(s, e).db, g) && Step(s, e).db.games[g].status == Finished
  {
  }

  lemma FinishUsesUpTheGame(s: State, e: Event, g: GameId)
    requires Inv(s) && Enabled(s, e)
    ensures ReportsFinish(s, e, g) ==> MayStillFinish(s, g) && !MayStillFinish(Step(s, e), g)
    ensures MayStillFinish(Step(s, e), g) ==> MayStillFinish(s, g)
  {
    StepEvolves(s, e);
    if ReportsFinish(s, e, g) {
      FinishEndsTheGame(s, e, g);
    }
  }

  lemma {:induction false} FinishReportsBounded(s: State, es: seq<Event>, g: GameId)
    requires Inv(s) && ValidRun(s, es)
    ensures FinishReports(s, es, g) <= if MayStillFinish(s, g) then 1 else 0
    decreases |es|
  {
    if es != [] {
      FinishUsesUpTheGame(s, es[0], g);
      StepKeepsInv(s, es[0]);
      FinishReportsBounded(Step(s, es[0]), es[1..], g);
    }
  }

  /** Over every run at most one of all submissions and completeGame calls reports finishing a game. */
  lemma AtMostOneFinisher(es: seq<Event>, g: GameId)
    requires ValidRun(Init, es)
    ensures FinishReports(Init, es, g) <= 1
  {
    FinishReportsBounded(Init, es, g);
  }

  /** A submission that finishes a multiplayer game makes its own user the winner with every problem
      solved, and so it stays in every later state in which the game exists. */
  lemma SubmissionWinnerSolvedAll(es: seq<Event>, r: ReqId, later: seq<Event>)
    requires ValidRun(Init, es) && Enabled(After(es), Progress(r))
    requires ReportsFinish(After(es), Progress(r), After(es).subs[r].game)
    requires ValidRun(Step(After(es), Progress(r)), later)
    ensures var sub := After(es).subs[r];
            var end := Exec(Step(After(es), Progress(r)), later).db;
            sub.game in end.games && !end.games[sub.game].solo ==>
              var game := end.games[sub.game];
              && game.winner == Some(sub.user) && game.status == Finished
              && sub.user in game.players && game.players[sub.user] == |game.problems|
  {
    var s := After(es);
    var s1 := Step(s, Progress(r));
    ReachableIsGood(es);
    StepKeepsInv(s, Progress(r));
    RunKeepsInv(s1, later);
    assert SubOk(s.db, s.subs[r]);
    var g, u := s.subs[r].game, s.subs[r].user;
    assert s1.db.games[g].players[u] == |s1.db.games[g].problems|;
    var end := Exec(s1, later).db;
    if g in end.games {
      assert Evolves(s1.db.games[g], end.games[g]) && GameOk(end.games[g]);
    }
  }

  // Indices and lookups

  /** Two submissions of one user are never in flight together. */
  lemma OneSubmissionPerUser(es: seq<Event>, r: ReqId, q: ReqId)
    requires ValidRun(Init, es) && r in After(es).subs && q in After(es).subs
    requires After(es).subs[r].user == After(es).subs[q].user
    ensures r == q
  {
    ReachableIsGood(es);
  }

  /** After a non-final accepted submission the next-problem lookup misses only if the game is gone. */
  lemma NextProblemLookupNeverMisses(es: seq<Event>, r: ReqId)
    requires ValidRun(Init, es) && r in After(es).subs
    requires After(es).subs[r].phase.NonFinal? || After(es).subs[r].phase.ReadGame? || After(es).subs[r].phase.ReadBack?
    requires After(es).subs[r].game in After(es).db.games
    ensures var sub, db := After(es).subs[r], After(es).db;
            var next := NextPhase(db, sub);
            && next != Done(Failed)
            && (sub.phase.ReadBack? ==> sub.phase.idx < |db.games[sub.game].problems|
                                        && next == Done(Next(sub.phase.idx,
                                            db.games[sub.game].problems[sub.phase.idx].slug)))
            && sub.user in db.games[sub.game].players
            && db.games[sub.game].players[sub.user] == sub.phase.idx < |db.games[sub.game].problems|
  {
    ReachableIsGood(es);
    assert SubOk(After(es).db, After(es).subs[r]);
  }

  /** A submission in flight always releases its slot without blocking. */
  lemma ReleaseNeverBlocks(es: seq<Event>, r: ReqId)
    requires ValidRun(Init, es) && r in After(es).subs && After(es).subs[r].phase.Done?
    ensures Enabled(After(es), Release(r))
  {
    ReachableIsGood(es);
  }
}
