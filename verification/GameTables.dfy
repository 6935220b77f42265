/** The rows behind internal/service/game_service.go and what each transaction does to them
    (internal/db/sqlc/games.sql.go, game_participants.sql.go, game_problems.sql.go, solutions.sql.go). */
module GameTables {
  import opened Common
  import opened Paths

  type GameId = nat

  datatype Status = Pending | Active | Finished | Cancelled

  /** A game_problems row joined with its problem version. */
  datatype Pin = Pin(slug: string, versionId: nat, artifactPath: string)

  /** A games row together with the game_participants rows (user to current_problem_index) and the
      game_problems rows that refer to it; both go with the game because their foreign keys cascade. */
  datatype Game = Game(
    creator: UserId,
    winner: Option<UserId>,
    status: Status,
    solo: bool,
    players: map<UserId, nat>,
    problems: seq<Pin>)

  /** A solutions row; deleting the game sets game_id to null. */
  datatype Solution = Solution(user: UserId, game: Option<GameId>, problem: string, version: nat)

  /** `nextId` is the SERIAL sequence: no id at or above it was ever handed out. `reserved` are the ids that
      creations still in progress were given. */
  datatype Tables = Tables(games: map<GameId, Game>, nextId: nat, reserved: set<GameId>, solutions: seq<Solution>)

  datatype Error =
    | Validation
    | ProblemNotFound
    | GameNotFound
    | GameAlreadyStarted
    | AlreadyParticipant
    | NotParticipant
    | NotGameCreator
    | NotEnoughPlayers
    | GameNotInProgress
    | GameAlreadyFinished
    | InvalidWinner
    | CannotCancelFinishedGame
    | GameAlreadyCancelled
    | CreatorCannotLeave

  const MAX_GAME_PROBLEMS := 20

  /** No game with this id was committed yet. */
  predicate Unused(db: Tables, g: GameId) {
    g >= db.nextId || g in db.reserved
  }

  function PutGame(db: Tables, g: GameId, game: Game): Tables {
    db.(games := db.games[g := game])
  }

  function NewGame(creator: UserId, solo: bool, pins: seq<Pin>): Game {
    Game(creator, None, Pending, solo, map[creator := 0], pins)
  }

  function JoinTx(db: Tables, g: GameId, u: UserId): Result<Tables, Error> {
    if g !in db.games then Err(GameNotFound) else
    var game := db.games[g];
    if game.status != Pending then Err(GameAlreadyStarted)
    else if u in game.players then Err(AlreadyParticipant)
    else Ok(PutGame(db, g, game.(players := game.players[u := 0])))
  }

  function LeaveTx(db: Tables, g: GameId, u: UserId): Result<Tables, Error> {
    if g !in db.games then Err(GameNotFound) else
    var game := db.games[g];
    if game.status == Cancelled then Err(GameAlreadyCancelled)
    else if game.status != Pending then Err(GameAlreadyStarted)
    else if game.creator == u then Err(CreatorCannotLeave)
    else if u !in game.players then Err(NotParticipant)
    else Ok(PutGame(db, g, game.(players := game.players - {u})))
  }

  function MinPlayers(game: Game): nat {
    if game.solo then 1 else 2
  }

  function StartTx(db: Tables, g: GameId, u: UserId): Result<Tables, Error> {
    if g !in db.games then Err(GameNotFound) else
    var game := db.games[g];
    if game.status != Pending then Err(GameAlreadyStarted)
    else if game.creator != u then Err(NotGameCreator)
    else if |game.players| < MinPlayers(game) then Err(NotEnoughPlayers)
    else Ok(PutGame(db, g, game.(status := Active)))
  }

  function CancelTx(db: Tables, g: GameId, u: UserId): Result<Tables, Error> {
    if g !in db.games then Err(GameNotFound) else
    var game := db.games[g];
    if game.creator != u then Err(NotGameCreator)
    else if game.status == Finished then Err(CannotCancelFinishedGame)
    else if game.status == Cancelled then Err(GameAlreadyCancelled)
    else Ok(PutGame(db, g, game.(status := Cancelled)))
  }

  /** completeGame: the transaction shared by CompleteGame and CompleteGameAsWinner. */
  function CompleteTx(db: Tables, g: GameId, winner: UserId): Result<Tables, Error> {
    if g !in db.games then Err(GameNotFound) else
    var game := db.games[g];
    if game.status != Active then Err(GameNotInProgress)
    else if winner !in game.players then Err(InvalidWinner)
    else Ok(PutGame(db, g, game.(status := Finished, winner := Some(winner))))
  }

  /** The finishing transaction of HandleAcceptedSubmission. */
  function FinishTx(db: Tables, g: GameId, u: UserId): Result<Tables, Error> {
    if g !in db.games then Err(GameNotFound) else
    var game := db.games[g];
    if game.status != Active then Err(GameAlreadyFinished)
    else Ok(PutGame(db, g, game.(status := Finished, winner := Some(if game.solo then game.creator else u))))
  }

  /** The reads and checks of TimeoutGame that precede its write. */
  function TimeoutRead(db: Tables, g: GameId, u: UserId): Result<(), Error> {
    if g !in db.games then Err(GameNotFound) else
    var game := db.games[g];
    if !game.solo then Err(Validation)
    else if game.creator != u then Err(NotGameCreator)
    else if game.status != Active then Err(GameNotInProgress)
    else Ok(())
  }

  /** The TimeoutGame statement: no condition beyond the id. */
  function TimeoutWrite(db: Tables, g: GameId): Tables {
    if g in db.games then PutGame(db, g, db.games[g].(status := Finished)) else db
  }

  function Orphan(row: Solution, g: GameId): Solution {
    if row.game == Some(g) then row.(game := None) else row
  }

  function DeleteRows(db: Tables, g: GameId): Tables {
    db.(games := db.games - {g},
        solutions := seq(|db.solutions|, i requires 0 <= i < |db.solutions| => Orphan(db.solutions[i], g)))
  }

  /** AdvanceParticipantProblem: one UPDATE outside any transaction. */
  function AdvanceRow(db: Tables, g: GameId, u: UserId): Result<(Tables, nat), Error> {
    if g in db.games && u in db.games[g].players then
      var game := db.games[g];
      var next := game.players[u] + 1;
      Ok((PutGame(db, g, game.(players := game.players[u := next])), next))
    else Err(NotParticipant)
  }

  ghost predicate HasSolution(db: Tables, u: UserId, g: GameId, slug: string) {
    exists i :: 0 <= i < |db.solutions| && db.solutions[i].user == u && db.solutions[i].game == Some(g)
        && db.solutions[i].problem == slug
  }

  predicate SameKey(a: Solution, b: Solution) {
    a.user == b.user && a.game.Some? && a.game == b.game && a.problem == b.problem
  }

  /** INSERT ... ON CONFLICT (user_id, game_id, problem_id) DO NOTHING. */
  function InsertRow(db: Tables, row: Solution): Tables {
    if exists i :: 0 <= i < |db.solutions| && SameKey(db.solutions[i], row) then db
    else db.(solutions := db.solutions + [row])
  }

  /** The problem id a submission records: the slug split off the artifact path when it is loaded. */
  function SolutionFor(u: UserId, g: GameId, pin: Pin): Solution {
    Solution(u, Some(g), SlugOf(pin.artifactPath), pin.versionId)
  }

  function CountGameProblems(db: Tables, g: GameId): nat {
    if g in db.games then |db.games[g].problems| else 0
  }
}
