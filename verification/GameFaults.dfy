/** Two things the game protocol does not guarantee, each with the exact condition under which it
    happens. */
module GameFaults {
  import opened Common
  import opened GameTables
  import opened GameProtocol
  import opened GameInvariant
  import opened GameTheorems
  import opened GameRuns

  // A stale timeout

  /** A terminal status changes in one step exactly when a timeout that passed its check earlier is
      applied to a game that was cancelled in between; then it becomes finished. */
  lemma TerminalChangesExactly(s: State, e: Event, g: GameId)
    requires Inv(s) && Enabled(s, e)
    requires g in s.db.games && g in Step(s, e).db.games
    requires s.db.games[g].status == Finished || s.db.games[g].status == Cancelled
    ensures Step(s, e).db.games[g].status != s.db.games[g].status <==>
            e.TimeoutApply? && s.timeouts[e.t] == g && s.db.games[g].status == Cancelled
  {
    if !e.TimeoutApply? {
      OnlyTimeoutsReopen(s, e, g);
    }
  }

  lemma OnlyTimeoutsReopen(s: State, e: Event, g: GameId)
    requires Enabled(s, e) && !e.TimeoutApply?
    requires g in s.db.games && !Unused(s.db, g) && g in Step(s, e).db.games
    requires s.db.games[g].status == Finished || s.db.games[g].status == Cancelled
    ensures Step(s, e).db.games[g].status == s.db.games[g].status
  {
  }

  /** In the run a timeout that passed its check is applied to g. */
  predicate TimedOut(s: State, es: seq<Event>, g: GameId)
    requires ValidRun(s, es)
    decreases |es|
  {
    es != [] && ((es[0].TimeoutApply? && s.timeouts[es[0].t] == g) || TimedOut(Step(s, es[0]), es[1..], g))
  }

  /** Over whole runs: a cancelled game that still exists later has become finished if and only if such a timeout was
      applied to it in between, and is still cancelled otherwise. */
  lemma {:induction false} CancelledUnlessTimedOut(s: State, es: seq<Event>, g: GameId)
    requires Inv(s) && ValidRun(s, es)
    requires g in s.db.games && s.db.games[g].status == Cancelled && g in Exec(s, es).db.games
    ensures Exec(s, es).db.games[g].status == if TimedOut(s, es, g) then Finished else Cancelled
    decreases |es|
  {
    if es != [] {
      var s' := Step(s, es[0]);
      StepKeepsInv(s, es[0]);
      RunKeepsInv(s', es[1..]);
      assert g in s'.db.games;
      TerminalChangesExactly(s, es[0], g);
      if s'.db.games[g].status == Cancelled {
        CancelledUnlessTimedOut(s', es[1..], g);
      }
    }
  }

  /** It does happen: a solo game that is started, checked for timeout, cancelled and then timed out
      ends as finished after having been cancelled. */
  lemma StaleTimeoutFinishesCancelledGame(pin: Pin)
    requires PinOk(pin)
    ensures exists es, t ::
              && ValidRun(Init, es) && Enabled(After(es), TimeoutApply(t))
              && 0 in After(es).db.games && After(es).db.games[0].status == Cancelled
              && Step(After(es), TimeoutApply(t)).db.games[0].status == Finished
  {
    var es := ReachStarted(pin);
    es := Then(es, TimeoutCheck(7, 0, 1));
    es := Then(es, Cancel(0, 1));
    assert Enabled(After(es), TimeoutApply(7)) && After(es).db.games[0].status == Cancelled;
  }

  // A submission aborted between its increment and its finishing transaction

  /** The submission of u in g has solved the last problem and has yet to finish the game. */
  predicate ClosingSub(s: State, r: ReqId, u: UserId, g: GameId) {
    r in s.subs && s.subs[r].user == u && s.subs[r].game == g && ClosingPhase(s.db, s.subs[r])
  }

  predicate ClosingPhase(db: Tables, sub: Sub) {
    sub.phase.Final? || (sub.phase.Advanced? && sub.phase.idx == CountGameProblems(db, sub.game))
  }

  ghost predicate Closing(s: State, u: UserId, g: GameId) {
    exists r :: ClosingSub(s, r, u, g)
  }

  /** A player of an active game who solved everything, with nobody left to finish the game for them. */
  ghost predicate Stranded(s: State, u: UserId, g: GameId) {
    && g in s.db.games && s.db.games[g].status == Active && u in s.db.games[g].players
    && s.db.games[g].players[u] == |s.db.games[g].problems|
    && !Closing(s, u, g)
  }

  predicate LateAbort(s: State, e: Event, u: UserId, g: GameId) {
    e.Abort? && ClosingSub(s, e.r, u, g)
  }

  predicate LateAborted(s: State, es: seq<Event>, u: UserId, g: GameId)
    requires ValidRun(s, es)
    decreases |es|
  {
    es != [] && (LateAbort(s, es[0], u, g) || LateAborted(Step(s, es[0]), es[1..], u, g))
  }

  predicate NotBegun(s: State, g: GameId) {
    Unused(s.db, g) || (g in s.db.games && s.db.games[g].status == Pending)
  }

  /** `was` says whether a closing submission of u in g has been aborted so far. */
  ghost predicate StrandedAsRecorded(s: State, u: UserId, g: GameId, was: bool) {
    && (NotBegun(s, g) ==> !was)
    && (g in s.db.games && s.db.games[g].status == Active && u in s.db.games[g].players ==>
          (Stranded(s, u, g) <==> was))
  }

  ghost predicate PlaysActive(s: State, u: UserId, g: GameId) {
    g in s.db.games && s.db.games[g].status == Active && u in s.db.games[g].players
  }

  /** Apart from progress and aborts, no event starts or ends a closing phase. */
  lemma ClosingUntouched(s: State, e: Event, r: ReqId, u: UserId, g: GameId)
    requires Enabled(s, e) && !e.Progress? && !e.Abort?
    requires CountGameProblems(Step(s, e).db, g) == CountGameProblems(s.db, g)
    ensures ClosingSub(Step(s, e), r, u, g) <==> ClosingSub(s, r, u, g)
  {
  }

  lemma OtherEventsKeepStranded(s: State, e: Event, u: UserId, g: GameId)
    requires Inv(s) && Enabled(s, e) && !e.Progress? && !e.Abort?
    requires PlaysActive(s, u, g) && PlaysActive(Step(s, e), u, g)
    ensures Stranded(Step(s, e), u, g) <==> Stranded(s, u, g)
  {
    StepEvolves(s, e);
    assert IndexKept(s.db, Step(s, e).db, u);
    ClosingKept(s, e, u, g);
  }

  lemma ClosingKept(s: State, e: Event, u: UserId, g: GameId)
    requires Enabled(s, e) && !e.Progress? && !e.Abort?
    requires CountGameProblems(Step(s, e).db, g) == CountGameProblems(s.db, g)
    ensures Closing(Step(s, e), u, g) <==> Closing(s, u, g)
  {
    forall r ensures ClosingSub(Step(s, e), r, u, g) <==> ClosingSub(s, r, u, g) {
      ClosingUntouched(s, e, r, u, g);
    }
  }

  lemma AbortStrands(s: State, r: ReqId, u: UserId, g: GameId)
    requires Inv(s) && Enabled(s, Abort(r)) && PlaysActive(s, u, g)
    ensures Stranded(Step(s, Abort(r)), u, g) <==> Stranded(s, u, g) || ClosingSub(s, r, u, g)
  {
    var s' := Step(s, Abort(r));
    assert forall q | q != r :: ClosingSub(s', q, u, g) <==> ClosingSub(s, q, u, g);
    assert !ClosingSub(s', r, u, g);
    if ClosingSub(s, r, u, g) {
      assert SubOk(s.db, s.subs[r]);
      assert forall q | ClosingSub(s, q, u, g) :: q == r;
    }
  }

  /** Progress of a submission of somebody else, or in another game. */
  lemma ForeignProgressKeepsStranded(s: State, r: ReqId, u: UserId, g: GameId)
    requires Enabled(s, Progress(r)) && (s.subs[r].user != u || s.subs[r].game != g)
    requires PlaysActive(s, u, g) && PlaysActive(Step(s, Progress(r)), u, g)
    ensures Stranded(Step(s, Progress(r)), u, g) <==> Stranded(s, u, g)
  {
    var s' := Step(s, Progress(r));
    assert s'.db.games[g].players[u] == s.db.games[g].players[u] && s'.db.games[g].problems == s.db.games[g].problems;
    assert forall q :: ClosingSub(s', q, u, g) <==> ClosingSub(s, q, u, g);
  }

  lemma OnlyOwnCloses(s: State, r: ReqId, u: UserId, g: GameId)
    requires SlotsOk(s) && r in s.subs && s.subs[r].user == u && s.subs[r].game == g
    ensures Closing(s, u, g) <==> ClosingPhase(s.db, s.subs[r])
  {
    assert ClosingPhase(s.db, s.subs[r]) ==> ClosingSub(s, r, u, g);
  }

  /** A submission's own statement, while its game stays active, neither strands nor rescues its user. */
  lemma OwnPhaseStep(db: Tables, sub: Sub)
    requires GamesOk(db) && SubOk(db, sub) && CanProgress(sub.phase)
    requires sub.game in db.games && db.games[sub.game].status == Active && sub.user in db.games[sub.game].players
    requires NextDb(db, sub).games[sub.game].status == Active
    ensures var game, game' := db.games[sub.game], NextDb(db, sub).games[sub.game];
            && game'.problems == game.problems && sub.user in game'.players
            && (game'.players[sub.user] == |game'.problems|
                  && !ClosingPhase(NextDb(db, sub), sub.(phase := NextPhase(db, sub)))
                <==> game.players[sub.user] == |game.problems| && !ClosingPhase(db, sub))
  {
    assert GameOk(db.games[sub.game]);
  }

  /** Progress of u's own submission in g: it closes the game or leaves u below the last problem. */
  lemma OwnProgressKeepsStranded(s: State, r: ReqId, u: UserId, g: GameId)
    requires Inv(s) && Enabled(s, Progress(r)) && s.subs[r].user == u && s.subs[r].game == g
    requires PlaysActive(s, u, g) && PlaysActive(Step(s, Progress(r)), u, g)
    ensures Stranded(Step(s, Progress(r)), u, g) <==> Stranded(s, u, g)
  {
    var s' := Step(s, Progress(r));
    SlotsKept(s, Progress(r));
    OnlyOwnCloses(s, r, u, g);
    OnlyOwnCloses(s', r, u, g);
    OwnPhaseStep(s.db, s.subs[r]);
  }

  lemma ActiveStep(s: State, e: Event, u: UserId, g: GameId)
    requires Inv(s) && Enabled(s, e) && PlaysActive(s, u, g) && PlaysActive(Step(s, e), u, g)
    ensures Stranded(Step(s, e), u, g) <==> Stranded(s, u, g) || LateAbort(s, e, u, g)
  {
    match e
    case Abort(r) => AbortStrands(s, r, u, g);
    case Progress(r) =>
      if s.subs[r].user == u && s.subs[r].game == g {
        OwnProgressKeepsStranded(s, r, u, g);
      } else {
        ForeignProgressKeepsStranded(s, r, u, g);
      }
    case _ => OtherEventsKeepStranded(s, e, u, g);
  }

  lemma LateAbortMeansBegun(s: State, e: Event, u: UserId, g: GameId)
    requires Inv(s) && Enabled(s, e) && (NotBegun(Step(s, e), g) || !PlaysActive(s, u, g))
    ensures LateAbort(s, e, u, g) ==> !NotBegun(Step(s, e), g) && !PlaysActive(Step(s, e), u, g)
    ensures NotBegun(Step(s, e), g) ==> NotBegun(s, g)
  {
    StepEvolves(s, e);
    if LateAbort(s, e, u, g) {
      assert SubOk(s.db, s.subs[e.r]);
    }
  }

  lemma StrandedStep(s: State, e: Event, u: UserId, g: GameId, was: bool)
    requires Inv(s) && Enabled(s, e) && StrandedAsRecorded(s, u, g, was)
    ensures StrandedAsRecorded(Step(s, e), u, g, was || LateAbort(s, e, u, g))
  {
    var s' := Step(s, e);
    if NotBegun(s', g) {
      LateAbortMeansBegun(s, e, u, g);
    }
    if PlaysActive(s', u, g) {
      if PlaysActive(s, u, g) {
        ActiveStep(s, e, u, g);
      } else {
        BecameActive(s, e, u, g);
      }
    }
  }

  lemma BecameActive(s: State, e: Event, u: UserId, g: GameId)
    requires Inv(s) && Enabled(s, e) && PlaysActive(Step(s, e), u, g) && !PlaysActive(s, u, g)
    ensures NotBegun(s, g) && !LateAbort(s, e, u, g) && !Stranded(Step(s, e), u, g)
  {
    StepEvolves(s, e);
    assert !(g in s.db.games && s.db.games[g].status == Active);
    JustStarted(s, e, g);
  }

  /** A game becomes active only by being started, with every index still zero. */
  lemma JustStarted(s: State, e: Event, g: GameId)
    requires Enabled(s, e) && (g in s.db.games ==> GameOk(s.db.games[g]))
    requires g in Step(s, e).db.games && Step(s, e).db.games[g].status == Active
    requires !(g in s.db.games && s.db.games[g].status == Active)
    ensures e.Start? && g in s.db.games && s.db.games[g].status == Pending
    ensures forall v | v in Step(s, e).db.games[g].players :: Step(s, e).db.games[g].players[v] == 0
  {
  }

  lemma {:induction false} StrandedRun(s: State, es: seq<Event>, u: UserId, g: GameId, was: bool)
    requires Inv(s) && ValidRun(s, es) && StrandedAsRecorded(s, u, g, was)
    ensures StrandedAsRecorded(Exec(s, es), u, g, was || LateAborted(s, es, u, g))
    decreases |es|
  {
    if es != [] {
      StrandedStep(s, es[0], u, g, was);
      StepKeepsInv(s, es[0]);
      StrandedRun(Step(s, es[0]), es[1..], u, g, was || LateAbort(s, es[0], u, g));
    }
  }

  /** In any reachable state, a player of an active game is at the end of the problems with nothing in
      flight to finish the game if and only if a submission of theirs was aborted between reaching the
      end and the finishing transaction. */
  lemma StrandedExactly(es: seq<Event>, u: UserId, g: GameId)
    requires ValidRun(Init, es) && PlaysActive(After(es), u, g)
    ensures Stranded(After(es), u, g) <==> LateAborted(Init, es, u, g)
  {
    StrandedRun(Init, es, u, g, false);
  }

  /** Hence without such aborts an active game with no submission in flight has everybody below the end. */
  lemma QuietActiveGameBelowEnd(es: seq<Event>, u: UserId, g: GameId)
    requires ValidRun(Init, es) && PlaysActive(After(es), u, g)
    requires !LateAborted(Init, es, u, g)
    requires forall r | r in After(es).subs :: After(es).subs[r].user != u || After(es).subs[r].game != g
    ensures After(es).db.games[g].players[u] < |After(es).db.games[g].problems|
  {
    StrandedExactly(es, u, g);
    ReachableIsGood(es);
    assert GameOk(After(es).db.games[g]);
  }

  /** Once stranded, stranded as long as the game is active: no later event can finish it for them. */
  lemma StrandedForGood(es: seq<Event>, later: seq<Event>, u: UserId, g: GameId)
    requires ValidRun(Init, es) && ValidRun(After(es), later)
    requires Stranded(After(es), u, g) && PlaysActive(Exec(After(es), later), u, g)
    ensures Stranded(Exec(After(es), later), u, g)
  {
    ReachableIsGood(es);
    StrandedRun(After(es), later, u, g, true);
  }

  // Runs that show it

  /** The run has led to game 0 and nothing else, with submission 5 in flight. */
  ghost predicate At(es: seq<Event>, game: Game, sub: Sub) {
    ValidRun(Init, es) && After(es).db.games == map[0 := game] && After(es).subs == map[5 := sub] && sub.game == 0
  }

  lemma Then(es: seq<Event>, e: Event) returns (longer: seq<Event>)
    requires ValidRun(Init, es) && Enabled(After(es), e)
    ensures ValidRun(Init, longer) && After(longer) == Step(After(es), e) && longer == es + [e]
  {
    OneEvent(After(es), e);
    RunsCompose(Init, es, [e]);
    longer := es + [e];
  }

  /** A started solo game of user 1 with one problem and the given index. */
  function SoloGame(pin: Pin, idx: nat): Game {
    Game(1, None, Active, true, map[1 := idx], [pin])
  }

  lemma ReachStarted(pin: Pin) returns (es: seq<Event>)
    requires PinOk(pin)
    ensures ValidRun(Init, es) && After(es).db.games == map[0 := SoloGame(pin, 0)]
    ensures After(es).subs == map[] && After(es).slots == map[] && After(es).timeouts == map[]
  {
    es := Then([], Reserve);
    es := Then(es, Create(0, 1, true, [pin]));
    es := Then(es, Start(0, 1));
    assert After(es).db.games == map[0 := SoloGame(pin, 0)];
  }

  lemma Proceeds(before: seq<Event>, game: Game, sub: Sub, p: Phase) returns (es: seq<Event>)
    requires At(before, game, sub) && CanProgress(sub.phase) && !sub.phase.Saved? && !sub.phase.Final?
    requires p == NextPhase(After(before).db, sub)
    ensures At(es, game, sub.(phase := p))
  {
    es := Then(before, Progress(5));
  }

  lemma FindsProblem(before: seq<Event>, game: Game, u: UserId) returns (es: seq<Event>)
    requires At(before, game, Sub(u, 0, Started)) && game.status == Active && u in game.players
    requires game.players[u] < |game.problems|
    ensures At(es, game, Sub(u, 0, GotProblem(game.players[u], game.problems[game.players[u]])))
  {
    es := Proceeds(before, game, Sub(u, 0, Started), SawActive);
    es := Proceeds(es, game, Sub(u, 0, SawActive), GotIndex(game.players[u]));
    es := Proceeds(es, game, Sub(u, 0, GotIndex(game.players[u])),
        GotProblem(game.players[u], game.problems[game.players[u]]));
  }

  lemma PassesAndSaves(before: seq<Event>, game: Game, u: UserId, i: nat, pin: Pin) returns (es: seq<Event>)
    requires At(before, game, Sub(u, 0, GotProblem(i, pin)))
    ensures At(es, game, Sub(u, 0, Saved(i, pin)))
  {
    es := Then(before, Judge(5, true));
    assert After(es).subs == map[5 := Sub(u, 0, Accepted(i, pin))];
    es := Then(es, Save(5, true));
  }

  function Moved(game: Game, u: UserId): Game
    requires u in game.players
  {
    game.(players := game.players[u := game.players[u] + 1])
  }

  lemma Counts(before: seq<Event>, game: Game, u: UserId, i: nat, pin: Pin) returns (es: seq<Event>)
    requires At(before, game, Sub(u, 0, Saved(i, pin))) && u in game.players
    ensures At(es, Moved(game, u), Sub(u, 0, Advanced(game.players[u] + 1)))
  {
    var db := After(before).db;
    assert AdvanceRow(db, 0, u) == Ok((PutGame(db, 0, Moved(game, u)), game.players[u] + 1));
    es := Then(before, Progress(5));
    assert After(es).db.games == map[0 := Moved(game, u)];
  }

  /** A submission is accepted, saved and counted. */
  lemma Solves(before: seq<Event>, game: Game, u: UserId) returns (es: seq<Event>)
    requires At(before, game, Sub(u, 0, Started)) && game.status == Active && u in game.players
    requires game.players[u] < |game.problems|
    ensures At(es, Moved(game, u), Sub(u, 0, Advanced(game.players[u] + 1)))
  {
    es := FindsProblem(before, game, u);
    es := PassesAndSaves(es, game, u, game.players[u], game.problems[game.players[u]]);
    es := Counts(es, game, u, game.players[u], game.problems[game.players[u]]);
  }

  /** It does happen: a solo player whose only submission is accepted, saved, counted and then aborted. */
  lemma AbortCanStrand(pin: Pin)
    requires PinOk(pin)
    ensures exists es :: ValidRun(Init, es) && Stranded(After(es), 1, 0) && es != [] && es[|es| - 1] == Abort(5)
  {
    var es := SolvesLast(pin);
    ReachableIsGood(es);
    AbortStrands(After(es), 5, 1, 0);
    es := Then(es, Abort(5));
  }

  lemma SolvesLast(pin: Pin) returns (es: seq<Event>)
    requires PinOk(pin)
    ensures At(es, SoloGame(pin, 1), Sub(1, 0, Advanced(1)))
  {
    var started := ReachStarted(pin);
    var submitted := Then(started, Submit(5, 1, 0));
    es := Solves(submitted, SoloGame(pin, 0), 1);
    assert Moved(SoloGame(pin, 0), 1) == SoloGame(pin, 1);
  }

  // Solo games that somebody else finishes

  /** A submission that finishes a solo game makes the creator its winner, whoever sent it. The creator has then solved
      every problem if and only if the submission was the creator's own, or the creator was at the end already. */
  lemma SoloWinnerSolvedAllExactly(es: seq<Event>, r: ReqId)
    requires ValidRun(Init, es) && Enabled(After(es), Progress(r))
    requires ReportsFinish(After(es), Progress(r), After(es).subs[r].game)
    requires After(es).db.games[After(es).subs[r].game].solo
    ensures var g := After(es).subs[r].game;
            var was, game := After(es).db.games[g], Step(After(es), Progress(r)).db.games[g];
            && game.winner == Some(game.creator) && game.status == Finished && was.creator in was.players
            && (game.players[game.creator] == |game.problems| <==>
                  After(es).subs[r].user == was.creator || was.players[was.creator] == |was.problems|)
  {
    var s := After(es);
    ReachableIsGood(es);
    assert SubOk(s.db, s.subs[r]) && GameOk(s.db.games[s.subs[r].game]);
  }

  /** It does happen, as joining does not look at the kind of the game: player 2 joins and finishes a solo game of
      player 1, who wins without having solved anything. */
  lemma GuestWinsForCreator(pin: Pin)
    requires PinOk(pin)
    ensures exists es ::
              && ValidRun(Init, es) && After(es).subs == map[5 := Sub(2, 0, Done(Won(1)))]
              && After(es).db.games == map[0 := Game(1, Some(1), Finished, true, map[1 := 0, 2 := 1], [pin])]
  {
    var es := ReachStartedWithGuest(pin);
    es := Then(es, Submit(5, 2, 0));
    var game := Game(1, None, Active, true, map[1 := 0, 2 := 0], [pin]);
    es := Solves(es, game, 2);
    assert Moved(game, 2) == Game(1, None, Active, true, map[1 := 0, 2 := 1], [pin]);
    es := Finishes(es, Moved(game, 2), 2);
  }

  /** A submission that has counted the last problem of a solo game finishes it for the creator. */
  lemma Finishes(before: seq<Event>, game: Game, u: UserId) returns (es: seq<Event>)
    requires At(before, game, Sub(u, 0, Advanced(|game.problems|))) && game.problems != []
    requires game.solo && game.status == Active
    ensures At(es, game.(status := Finished, winner := Some(game.creator)), Sub(u, 0, Done(Won(game.creator))))
  {
    es := Proceeds(before, game, Sub(u, 0, Advanced(|game.problems|)), Final(|game.problems|));
    var db := After(es).db;
    assert FinishTx(db, 0, u) == Ok(PutGame(db, 0, game.(status := Finished, winner := Some(game.creator))));
    es := Then(es, Progress(5));
  }

  lemma ReachStartedWithGuest(pin: Pin) returns (es: seq<Event>)
    requires PinOk(pin)
    ensures ValidRun(Init, es)
    ensures After(es).db.games == map[0 := Game(1, None, Active, true, map[1 := 0, 2 := 0], [pin])]
    ensures After(es).subs == map[] && After(es).slots == map[]
  {
    es := Then([], Reserve);
    es := Then(es, Create(0, 1, true, [pin]));
    es := Then(es, Join(0, 2));
    assert After(es).db.games == map[0 := Game(1, None, Pending, true, map[1 := 0, 2 := 0], [pin])];
    es := Then(es, Start(0, 1));
  }
}
