/** GameService (internal/service/game_service.go): its requests, each running alone against the tables. The
    class invariant says that the rows are those some run of the protocol leaves, so that everything proved of
    all runs holds between any two requests. */
module GameServices {
  import opened Common
  import opened GameTables
  import opened GameProtocol
  import opened GameInvariant
  import opened GameRuns
  import ArtifactStore
  import Catalog
  import Uploaders

  /** resolveProblemVersion over the catalog, and the game_problems row made of its answer; `hidden` are the slugs of
      the private problems. */
  function Resolve(cat: Catalog.Tables, hidden: set<string>, requester: UserId, slug: string): Option<Pin> {
    if slug !in cat.problems then None else
    var row := cat.problems[slug];
    if (slug in hidden && row.owner != Some(requester)) || row.current.None?
        || row.current.value !in cat.versions then None
    else Some(Pin(slug, row.current.value, cat.versions[row.current.value].path))
  }

  /** The pin is that of the current version of a problem that the requester may use. */
  ghost predicate ResolvesTo(cat: Catalog.Tables, hidden: set<string>, requester: UserId, slug: string, pin: Pin) {
    && slug in cat.problems && (slug !in hidden || cat.problems[slug].owner == Some(requester))
    && cat.problems[slug].current.Some? && cat.problems[slug].current.value in cat.versions
    && pin == Pin(slug, cat.problems[slug].current.value, cat.versions[cat.problems[slug].current.value].path)
  }

  /** In a catalog in order current versions exist and their paths start with their slug. */
  lemma ResolvesExactly(cat: Catalog.Tables, hidden: set<string>, requester: UserId, slug: string)
    requires ArtifactStore.CurrentsExist(cat) && ArtifactStore.PathsSplit(cat)
    ensures Resolve(cat, hidden, requester, slug).Some? <==>
              && slug in cat.problems && cat.problems[slug].current.Some?
              && (slug !in hidden || cat.problems[slug].owner == Some(requester))
    ensures Resolve(cat, hidden, requester, slug).Some? ==>
              ResolvesTo(cat, hidden, requester, slug, Resolve(cat, hidden, requester, slug).value)
  {
  }

  class GameService {
    var games: map<GameId, Game>
    var nextId: nat
    var solutions: seq<Solution>

    ghost function Db(): Tables
      reads this
    {
      Tables(games, nextId, {}, solutions)
    }

    ghost predicate Valid()
      reads this
    {
      Reachable(Db())
    }

    constructor ()
      ensures Db() == Tables(map[], 0, {}, []) && Valid()
    {
      games, nextId, solutions := map[], 0, [];
      new;
      EmptyReachable();
    }

    /** What every run guarantees of the rows. */
    ghost predicate InOrder()
      reads this
    {
      GamesOk(Db()) && SolutionsUnique(Db())
    }

    lemma ValidIsInOrder()
      requires Valid()
      ensures InOrder()
    {
      ReachableGames(Db());
    }

    /** A created game pins, in order, the versions that are current for its creator. A rolled-back creation leaves
        no rows but does not give its id back. */
    method CreateGame(creator: UserId, slugs: seq<string>, solo: bool, catalog: Uploaders.Uploader, hidden: set<string>)
      returns (r: Result<GameId, Error>)
      requires Valid() && catalog.Valid()
      modifies this
      ensures Valid() && DbEvolves(old(Db()), Db()) && solutions == old(solutions)
      ensures r.Ok? <==> 1 <= |slugs| <= 20 && forall i | 0 <= i < |slugs| ::
                && slugs[i] != "" && slugs[i] in catalog.cat.problems && catalog.cat.problems[slugs[i]].current.Some?
                && (slugs[i] !in hidden || catalog.cat.problems[slugs[i]].owner == Some(creator))
      ensures r.Ok? ==>
                && r.value == old(nextId) && r.value !in old(games) && r.value in games
                && games == old(games)[r.value :=
                  Game(creator, None, Pending, solo, map[creator := 0], games[r.value].problems)]
                && |games[r.value].problems| == |slugs|
                && forall i | 0 <= i < |slugs| ::
                  var version := catalog.cat.problems[slugs[i]].current.value;
                  version in catalog.cat.versions && games[r.value].problems[i]
                      == Pin(slugs[i], version, catalog.cat.versions[version].path)
      ensures r.Ok? ==> forall i | 0 <= i < |games[r.value].problems| && games[r.value].problems[i].slug in hidden ::
                catalog.cat.problems[games[r.value].problems[i].slug].owner == Some(creator)
      ensures r.Err? ==> games == old(games)
      ensures r == Err(Validation) <==> |slugs| == 0 || |slugs| > 20 || "" in slugs
      ensures r.Err? ==> r.error == Validation || r.error == ProblemNotFound
    {
      if |slugs| == 0 || |slugs| > MAX_GAME_PROBLEMS {
        return Err(Validation);
      }
      for i := 0 to |slugs|
        invariant forall j | 0 <= j < i :: slugs[j] != ""
      {
        if slugs[i] == "" {
          return Err(Validation);
        }
      }
      var id := nextId;
      nextId := nextId + 1;
      var resolved := ResolveAll(creator, slugs, catalog, hidden);
      if resolved.None? {
        CreationKeeps(old(Db()), Rollback(id));
        assert Db() == Step(Step(Alone(old(Db())), Reserve), Rollback(id)).db;
        return Err(ProblemNotFound);
      }
      var pins := resolved.value;
      games := games[id := NewGame(creator, solo, pins)];
      ReachableGames(old(Db()));
      CreationKeeps(old(Db()), Create(id, creator, solo, pins));
      assert Db() == Step(Step(Alone(old(Db())), Reserve), Create(id, creator, solo, pins)).db;
      r := Ok(id);
    }

    /** The loop over the slugs: the pins, or none if one of them does not resolve. */
    method ResolveAll(creator: UserId, slugs: seq<string>, catalog: Uploaders.Uploader, hidden: set<string>)
      returns (r: Option<seq<Pin>>)
      requires catalog.Valid()
      ensures r.Some? <==> forall i | 0 <= i < |slugs| ::
                && slugs[i] in catalog.cat.problems && catalog.cat.problems[slugs[i]].current.Some?
                && (slugs[i] !in hidden || catalog.cat.problems[slugs[i]].owner == Some(creator))
      ensures r.Some? ==>
                && |r.value| == |slugs|
                && forall i | 0 <= i < |slugs| ::
                  var version := catalog.cat.problems[slugs[i]].current.value;
                  && version in catalog.cat.versions && PinOk(r.value[i])
                  && r.value[i] == Pin(slugs[i], version, catalog.cat.versions[version].path)
    {
      var pins: seq<Pin> := [];
      for i := 0 to |slugs|
        invariant |pins| == i
        invariant forall j | 0 <= j < i :: ResolvesTo(catalog.cat, hidden, creator, slugs[j], pins[j])
      {
        ResolvesExactly(catalog.cat, hidden, creator, slugs[i]);
        var pin := Resolve(catalog.cat, hidden, creator, slugs[i]);
        if pin.None? {
          return None;
        }
        pins := pins + [pin.value];
      }
      r := Some(pins);
    }

    /** The player joins, at the first problem, exactly a pending game they are not in. */
    method JoinGame(g: GameId, u: UserId) returns (r: Result<Game, Error>)
      requires Valid()
      modifies this`games
      ensures Valid() && DbEvolves(old(Db()), Db())
      ensures r.Ok? <==> g in old(games) && old(games)[g].status == Pending && u !in old(games)[g].players
      ensures r.Ok? <==> Enabled(Alone(old(Db())), Join(g, u))
      ensures r.Ok? ==>
                r.value == old(games)[g] && games == old(games)[g := r.value.(players := r.value.players[u := 0])]
      ensures r.Err? ==> games == old(games)
      ensures r == Err(GameNotFound) <==> g !in old(games)
      ensures r == Err(GameAlreadyStarted) <==> g in old(games) && old(games)[g].status != Pending
      ensures r == Err(AlreadyParticipant) <==>
                g in old(games) && old(games)[g].status == Pending && u in old(games)[g].players
    {
      if g !in games {
        return Err(GameNotFound);
      }
      var game := games[g];
      if game.status != Pending {
        return Err(GameAlreadyStarted);
      }
      if u in game.players {
        return Err(AlreadyParticipant);
      }
      TransactionKeeps(Db(), Join(g, u));
      games := games[g := game.(players := game.players[u := 0])];
      r := Ok(game);
    }

    /** Leaving undoes joining: the player, never the creator, is gone from a pending game. */
    method LeaveGame(g: GameId, u: UserId) returns (r: Result<Game, Error>)
      requires Valid()
      modifies this`games
      ensures Valid() && DbEvolves(old(Db()), Db())
      ensures r.Ok? <==>
                && g in old(games) && old(games)[g].status == Pending
                && u in old(games)[g].players && u != old(games)[g].creator
      ensures r.Ok? <==> Enabled(Alone(old(Db())), Leave(g, u))
      ensures r.Ok? ==>
                r.value == old(games)[g] && games == old(games)[g := r.value.(players := r.value.players - {u})]
      ensures r.Err? ==> games == old(games)
      ensures r == Err(GameNotFound) <==> g !in old(games)
      ensures r == Err(GameAlreadyCancelled) <==> g in old(games) && old(games)[g].status == Cancelled
      ensures r == Err(GameAlreadyStarted) <==>
                g in old(games) && (old(games)[g].status == Active || old(games)[g].status == Finished)
      ensures r == Err(CreatorCannotLeave) <==>
                g in old(games) && old(games)[g].status == Pending && u == old(games)[g].creator
      ensures r == Err(NotParticipant) <==>
                && g in old(games) && old(games)[g].status == Pending
                && u != old(games)[g].creator && u !in old(games)[g].players
    {
      if g !in games {
        return Err(GameNotFound);
      }
      var game := games[g];
      if game.status == Cancelled {
        return Err(GameAlreadyCancelled);
      }
      if game.status != Pending {
        return Err(GameAlreadyStarted);
      }
      if game.creator == u {
        return Err(CreatorCannotLeave);
      }
      var rows := if u in game.players then 1 else 0;
      if rows == 0 {
        return Err(NotParticipant);
      }
      TransactionKeeps(Db(), Leave(g, u));
      games := games[g := game.(players := game.players - {u})];
      r := Ok(game);
    }

    /** The creator starts a pending game with enough players; everybody starts at the first problem. */
    method StartGame(g: GameId, u: UserId) returns (r: Result<Game, Error>)
      requires Valid()
      modifies this`games
      ensures Valid() && DbEvolves(old(Db()), Db())
      ensures r.Ok? <==>
                && g in old(games) && old(games)[g].status == Pending && u == old(games)[g].creator
                && |old(games)[g].players| >= (if old(games)[g].solo then 1 else 2)
      ensures r.Ok? <==> Enabled(Alone(old(Db())), Start(g, u))
      ensures r.Ok? ==>
                && r.value == old(games)[g].(status := Active) && games == old(games)[g := r.value]
                && r.value.winner == None && forall v | v in r.value.players :: r.value.players[v] == 0
      ensures r.Err? ==> games == old(games)
      ensures r == Err(GameNotFound) <==> g !in old(games)
      ensures r == Err(GameAlreadyStarted) <==> g in old(games) && old(games)[g].status != Pending
      ensures r == Err(NotGameCreator) <==>
                g in old(games) && old(games)[g].status == Pending && u != old(games)[g].creator
      ensures r == Err(NotEnoughPlayers) <==>
                && g in old(games) && old(games)[g].status == Pending && u == old(games)[g].creator
                && !old(games)[g].solo && |old(games)[g].players| == 1
    {
      ValidIsInOrder();
      if g !in games {
        return Err(GameNotFound);
      }
      var game := games[g];
      if game.status != Pending {
        return Err(GameAlreadyStarted);
      }
      if game.creator != u {
        return Err(NotGameCreator);
      }
      var minPlayers := 2;
      if game.solo {
        minPlayers := 1;
      }
      if |game.players| < minPlayers {
        return Err(NotEnoughPlayers);
      }
      TransactionKeeps(Db(), Start(g, u));
      games := games[g := game.(status := Active)];
      r := Ok(games[g]);
    }

    /** The creator cancels a game that is not over; it then has no winner. */
    method CancelGame(g: GameId, u: UserId) returns (r: Result<Game, Error>)
      requires Valid()
      modifies this`games
      ensures Valid() && DbEvolves(old(Db()), Db())
      ensures r.Ok? <==>
                && g in old(games) && u == old(games)[g].creator
                && (old(games)[g].status == Pending || old(games)[g].status == Active)
      ensures r.Ok? <==> Enabled(Alone(old(Db())), Cancel(g, u))
      ensures r.Ok? ==>
                && r.value == old(games)[g].(status := Cancelled) && games == old(games)[g := r.value]
                && r.value.winner == None
      ensures r.Err? ==> games == old(games)
      ensures r == Err(GameNotFound) <==> g !in old(games)
      ensures r == Err(NotGameCreator) <==> g in old(games) && u != old(games)[g].creator
      ensures r == Err(CannotCancelFinishedGame) <==>
                g in old(games) && u == old(games)[g].creator && old(games)[g].status == Finished
      ensures r == Err(GameAlreadyCancelled) <==>
                g in old(games) && u == old(games)[g].creator && old(games)[g].status == Cancelled
    {
      ValidIsInOrder();
      if g !in games {
        return Err(GameNotFound);
      }
      var game := games[g];
      if game.creator != u {
        return Err(NotGameCreator);
      }
      if game.status == Finished {
        return Err(CannotCancelFinishedGame);
      }
      if game.status == Cancelled {
        return Err(GameAlreadyCancelled);
      }
      TransactionKeeps(Db(), Cancel(g, u));
      games := games[g := game.(status := Cancelled)];
      r := Ok(games[g]);
    }

    /** completeGame: an active game, and only such, gets a participant as its one winner, for good. */
    method CompleteGameAsWinner(g: GameId, winner: UserId) returns (r: Result<Game, Error>)
      requires Valid()
      modifies this`games
      ensures Valid() && DbEvolves(old(Db()), Db())
      ensures r.Ok? <==> g in old(games) && old(games)[g].status == Active && winner in old(games)[g].players
      ensures r.Ok? <==> Enabled(Alone(old(Db())), Complete(g, winner))
      ensures r.Ok? ==>
                && r.value == old(games)[g].(status := Finished, winner := Some(winner))
                && games == old(games)[g := r.value] && old(games)[g].winner == None
      ensures r.Err? ==> games == old(games)
      ensures r == Err(GameNotFound) <==> g !in old(games)
      ensures r == Err(GameNotInProgress) <==> g in old(games) && old(games)[g].status != Active
      ensures r == Err(InvalidWinner) <==>
                g in old(games) && old(games)[g].status == Active && winner !in old(games)[g].players
    {
      ValidIsInOrder();
      if g !in games {
        return Err(GameNotFound);
      }
      var game := games[g];
      if game.status != Active {
        return Err(GameNotInProgress);
      }
      if winner !in game.players {
        return Err(InvalidWinner);
      }
      TransactionKeeps(Db(), Complete(g, winner));
      games := games[g := game.(status := Finished, winner := Some(winner))];
      r := Ok(games[g]);
    }

    /** Only the creator names a winner. */
    method CompleteGame(g: GameId, caller: UserId, winner: UserId) returns (r: Result<Game, Error>)
      requires Valid()
      modifies this`games
      ensures Valid() && DbEvolves(old(Db()), Db())
      ensures r.Ok? <==>
                && g in old(games) && caller == old(games)[g].creator
                && old(games)[g].status == Active && winner in old(games)[g].players
      ensures r.Ok? ==>
                && r.value == old(games)[g].(status := Finished, winner := Some(winner))
                && games == old(games)[g := r.value] && old(games)[g].winner == None
      ensures r.Err? ==> games == old(games)
      ensures r == Err(GameNotFound) <==> g !in old(games)
      ensures r == Err(NotGameCreator) <==> g in old(games) && caller != old(games)[g].creator
      ensures r == Err(GameNotInProgress) <==>
                g in old(games) && caller == old(games)[g].creator && old(games)[g].status != Active
      ensures r == Err(InvalidWinner) <==>
                && g in old(games) && caller == old(games)[g].creator
                && old(games)[g].status == Active && winner !in old(games)[g].players
    {
      if g !in games {
        return Err(GameNotFound);
      }
      if games[g].creator != caller {
        return Err(NotGameCreator);
      }
      r := CompleteGameAsWinner(g, winner);
    }

    /** An active solo game is over without a winner. */
    method TimeoutGame(g: GameId, u: UserId) returns (r: Result<Game, Error>)
      requires Valid()
      modifies this`games
      ensures Valid() && DbEvolves(old(Db()), Db())
      ensures r.Ok? <==>
                && g in old(games) && old(games)[g].solo
                && u == old(games)[g].creator && old(games)[g].status == Active
      ensures r.Ok? <==> Enabled(Alone(old(Db())), TimeoutCheck(0, g, u))
      ensures r.Ok? ==>
                && r.value == old(games)[g].(status := Finished) && games == old(games)[g := r.value]
                && r.value.winner == None
      ensures r.Err? ==> games == old(games)
      ensures r == Err(GameNotFound) <==> g !in old(games)
      ensures r == Err(Validation) <==> g in old(games) && !old(games)[g].solo
      ensures r == Err(NotGameCreator) <==> g in old(games) && old(games)[g].solo && u != old(games)[g].creator
      ensures r == Err(GameNotInProgress) <==>
                g in old(games) && old(games)[g].solo && u == old(games)[g].creator && old(games)[g].status != Active
    {
      ValidIsInOrder();
      if g !in games {
        return Err(GameNotFound);
      }
      var game := games[g];
      if !game.solo {
        return Err(Validation);
      }
      if game.creator != u {
        return Err(NotGameCreator);
      }
      if game.status != Active {
        return Err(GameNotInProgress);
      }
      TimeoutKeeps(Db(), g, u);
      games := games[g := game.(status := Finished)];
      r := Ok(games[g]);
    }

    method DeleteGame(g: GameId, u: UserId) returns (r: Result<(), Error>)
      requires Valid()
      modifies this`games, this`solutions
      ensures Valid() && DbEvolves(old(Db()), Db())
      ensures r.Ok? <==> g in old(games) && old(games)[g].creator == u
      ensures r.Ok? ==>
                && games == old(games) - {g} && nextId == old(nextId) && |solutions| == |old(solutions)|
                && forall i | 0 <= i < |solutions| :: solutions[i] ==
                    Solution(old(solutions)[i].user,
                      if old(solutions)[i].game == Some(g) then None else old(solutions)[i].game,
                      old(solutions)[i].problem, old(solutions)[i].version)
      ensures r.Err? ==> Db() == old(Db()) && r.error == (if g in old(games) then NotGameCreator else GameNotFound)
    {
      if g !in games {
        return Err(GameNotFound);
      }
      if games[g].creator != u {
        return Err(NotGameCreator);
      }
      TransactionKeeps(Db(), Delete(g));
      games := games - {g};
      var rows: seq<Solution> := [];
      for i := 0 to |solutions|
        invariant |rows| == i
        invariant forall j | 0 <= j < i :: rows[j] == Orphan(solutions[j], g)
      {
        rows := rows + [if solutions[i].game == Some(g) then solutions[i].(game := None) else solutions[i]];
      }
      solutions := rows;
      r := Ok(());
    }

    // The two below are parts of a submission and make a run only together with the rest of it.

    /** HandleAcceptedSubmission when no other request comes between its statements: the player's index
        goes up by one, and on reaching the number of problems an active game is finished. The Boolean says
        whether this call finished the game. */
    method HandleAcceptedSubmission(g: GameId, u: UserId) returns (r: Result<(Game, bool), Error>)
      modifies this`games
      ensures r == Err(NotParticipant) <==> !(g in old(games) && u in old(games)[g].players)
      ensures r == Err(NotParticipant) ==> Db() == old(Db())
      ensures g in old(games) && u in old(games)[g].players ==>
                var game := old(games)[g];
                var moved := game.(players := game.players[u := game.players[u] + 1]);
                var atEnd := |game.problems| > 0 && game.players[u] + 1 >= |game.problems|;
                var won := moved.(status := Finished, winner := Some(if game.solo then game.creator else u));
                if !atEnd then Db() == PutGame(old(Db()), g, moved) && r == Ok((moved, false))
                else if game.status != Active then Db() == PutGame(old(Db()), g, moved) && r == Err(GameAlreadyFinished)
                else Db() == PutGame(old(Db()), g, won) && r == Ok((won, true))
    {
      if g !in games || u !in games[g].players {
        return Err(NotParticipant);
      }
      var newIdx := games[g].players[u] + 1;
      games := games[g := games[g].(players := games[g].players[u := newIdx])];
      var totalProblems := |games[g].problems|;
      if totalProblems == 0 || newIdx < totalProblems {
        return Ok((games[g], false));
      }
      var game := games[g];
      if game.status != Active {
        return Err(GameAlreadyFinished);
      }
      var winner := u;
      if game.solo {
        winner := game.creator;
      }
      games := games[g := game.(status := Finished, winner := Some(winner))];
      r := Ok((games[g], true));
    }

    /** InsertSolution: the first row of a user, game and problem stays. */
    method InsertSolution(row: Solution)
      modifies this`solutions
      ensures Db() == InsertRow(old(Db()), row)
      ensures var taken := row.game.Some? && exists i | 0 <= i < |old(solutions)| ::
                && old(solutions)[i].user == row.user && old(solutions)[i].game == row.game
                && old(solutions)[i].problem == row.problem;
              solutions == if taken then old(solutions) else old(solutions) + [row]
    {
      for i := 0 to |solutions|
        invariant solutions == old(solutions)
        invariant forall j | 0 <= j < i :: !SameKey(solutions[j], row)
      {
        if SameKey(solutions[i], row) {
          return;
        }
      }
      solutions := solutions + [row];
    }
  }
}
