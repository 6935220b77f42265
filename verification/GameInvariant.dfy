/** What every step of the game protocol keeps, and how one step may change a game. */
module GameInvariant {
  import opened Common
  import opened GameTables
  import opened GameProtocol
  import Slots

  ghost predicate GameOk(game: Game) {
    && 1 <= |game.problems| <= MAX_GAME_PROBLEMS
    && (forall i | 0 <= i < |game.problems| :: PinOk(game.problems[i]))
    && game.creator in game.players
    && (forall u | u in game.players :: game.players[u] <= |game.problems|)
    && (game.status.Pending? ==> forall u | u in game.players :: game.players[u] == 0)
    && (game.winner.Some? ==> game.status.Finished? && game.winner.value in game.players)
    && (!game.solo && (game.status.Active? || game.status.Finished?) ==> |game.players.Keys| >= 2)
  }

  function Rank(status: Status): nat {
    match status
    case Pending => 0
    case Active => 1
    case Finished => 2
    case Cancelled => 2
  }

  /** How a game may change over time: the lifecycle, the winner, the players and their progress. */
  ghost predicate Evolves(a: Game, b: Game) {
    && a.creator == b.creator && a.solo == b.solo && a.problems == b.problems
    && Rank(a.status) <= Rank(b.status)
    && (a.status.Finished? ==> b.status.Finished?)
    && (!a.solo && Rank(a.status) == 2 ==> b.status == a.status)
    && (a.winner.Some? ==> b.winner == a.winner)
    && (!a.status.Pending? ==> a.players.Keys == b.players.Keys)
    && (!a.status.Pending? ==> forall u | u in a.players :: a.players[u] <= b.players[u])
  }

  /** Every game that exists afterwards existed before and evolved, or has an id not used before. */
  ghost predicate DbEvolves(a: Tables, b: Tables) {
    && (forall g: GameId | Unused(b, g) :: Unused(a, g))
    && (forall g | g in b.games ::
          if g in a.games then Evolves(a.games[g], b.games[g]) else Unused(a, g))
  }

  /** No index of u moves in a game that has begun. */
  ghost predicate IndexKept(a: Tables, b: Tables, u: UserId) {
    forall g | g in b.games && g in a.games && !a.games[g].status.Pending? && u in a.games[g].players ::
      u in b.games[g].players && b.games[g].players[u] == a.games[g].players[u]
  }

  ghost predicate GamesOk(db: Tables) {
    && (forall g | g in db.games :: !Unused(db, g) && GameOk(db.games[g]))
    && (forall g | g in db.reserved :: g < db.nextId)
  }

  ghost predicate Begun(db: Tables, g: GameId) {
    !Unused(db, g) && (g in db.games ==> !db.games[g].status.Pending?)
  }

  ghost predicate AtIndex(db: Tables, sub: Sub, i: nat) {
    && Begun(db, sub.game)
    && (sub.game in db.games ==> sub.user in db.games[sub.game].players && db.games[sub.game].players[sub.user] == i)
  }

  /** What a submission knows in each phase: the index it read is still the stored one, because only
      this submission may move it. */
  ghost predicate SubOk(db: Tables, sub: Sub) {
    var g := sub.game;
    match sub.phase
    case Started => true
    case SawActive => Begun(db, g)
    case GotIndex(i) => AtIndex(db, sub, i)
    case GotProblem(i, pin) => AtIndex(db, sub, i)
        && (g in db.games ==> i < |db.games[g].problems| && db.games[g].problems[i] == pin)
    case Accepted(i, pin) => AtIndex(db, sub, i)
        && (g in db.games ==> i < |db.games[g].problems| && db.games[g].problems[i] == pin)
    case Saved(i, pin) => AtIndex(db, sub, i)
        && (g in db.games ==> i < |db.games[g].problems| && db.games[g].problems[i] == pin)
    case Advanced(k) => AtIndex(db, sub, k)
    case NonFinal(k) => AtIndex(db, sub, k) && (g in db.games ==> k < |db.games[g].problems|)
    case ReadGame(k) => AtIndex(db, sub, k) && (g in db.games ==> k < |db.games[g].problems|)
    case ReadBack(k) => AtIndex(db, sub, k) && (g in db.games ==> k < |db.games[g].problems|)
    case Final(k) => AtIndex(db, sub, k) && (g in db.games ==> k == |db.games[g].problems|)
    case Done(_) => true
  }

  ghost predicate SubsOk(s: State) {
    forall r | r in s.subs :: SubOk(s.db, s.subs[r])
  }

  /** Slot exclusion: a submission in flight holds its user's slot, and no other does. */
  ghost predicate SlotsOk(s: State) {
    && (forall r | r in s.subs :: Slots.Held(s.slots, SubmitKey(s.subs[r].user)))
    && (forall r, q | r in s.subs && q in s.subs && s.subs[r].user == s.subs[q].user :: r == q)
  }

  ghost predicate TimeoutsOk(s: State) {
    forall t | t in s.timeouts ::
      Begun(s.db, s.timeouts[t]) && (s.timeouts[t] in s.db.games ==> s.db.games[s.timeouts[t]].solo)
  }

  /** UNIQUE (user_id, game_id, problem_id). */
  ghost predicate SolutionsUnique(db: Tables) {
    forall i, j | 0 <= i < j < |db.solutions| :: !SameKey(db.solutions[i], db.solutions[j])
  }

  ghost predicate Inv(s: State) {
    GamesOk(s.db) && SubsOk(s) && SlotsOk(s) && TimeoutsOk(s) && SolutionsUnique(s.db)
  }

  lemma EvolvesTransitive(a: Game, b: Game, c: Game)
    requires Evolves(a, b) && Evolves(b, c)
    ensures Evolves(a, c)
  {
  }

  lemma DbEvolvesTransitive(a: Tables, b: Tables, c: Tables)
    requires GamesOk(a) && DbEvolves(a, b) && DbEvolves(b, c)
    ensures DbEvolves(a, c)
  {
    forall g | g in c.games && g in a.games ensures Evolves(a.games[g], c.games[g]) {
      if g in b.games {
        EvolvesTransitive(a.games[g], b.games[g], c.games[g]);
      }
    }
  }

  // One step: the rows

  /** A write that keeps the games good, evolves them, and moves no index of a begun game. */
  ghost predicate QuietWrite(a: Tables, b: Tables) {
    GamesOk(b) && DbEvolves(a, b) && (forall u :: IndexKept(a, b, u))
  }

  lemma PutGameQuiet(db: Tables, g: GameId, game: Game)
    requires GamesOk(db) && g in db.games && GameOk(game) && Evolves(db.games[g], game)
    requires !db.games[g].status.Pending? ==> game.players == db.games[g].players
    ensures QuietWrite(db, PutGame(db, g, game))
  {
  }

  lemma JoinQuiet(db: Tables, g: GameId, u: UserId)
    requires GamesOk(db) && JoinTx(db, g, u).Ok?
    ensures QuietWrite(db, JoinTx(db, g, u).value)
  {
    PutGameQuiet(db, g, db.games[g].(players := db.games[g].players[u := 0]));
  }

  lemma LeaveQuiet(db: Tables, g: GameId, u: UserId)
    requires GamesOk(db) && LeaveTx(db, g, u).Ok?
    ensures QuietWrite(db, LeaveTx(db, g, u).value)
  {
    PutGameQuiet(db, g, db.games[g].(players := db.games[g].players - {u}));
  }

  lemma StartQuiet(db: Tables, g: GameId, u: UserId)
    requires GamesOk(db) && StartTx(db, g, u).Ok?
    ensures QuietWrite(db, StartTx(db, g, u).value)
  {
    PutGameQuiet(db, g, db.games[g].(status := Active));
  }

  lemma CancelQuiet(db: Tables, g: GameId, u: UserId)
    requires GamesOk(db) && CancelTx(db, g, u).Ok?
    ensures QuietWrite(db, CancelTx(db, g, u).value)
  {
    PutGameQuiet(db, g, db.games[g].(status := Cancelled));
  }

  lemma CompleteQuiet(db: Tables, g: GameId, winner: UserId)
    requires GamesOk(db) && CompleteTx(db, g, winner).Ok?
    ensures QuietWrite(db, CompleteTx(db, g, winner).value)
  {
    PutGameQuiet(db, g, db.games[g].(status := Finished, winner := Some(winner)));
  }

  lemma FinishQuiet(db: Tables, g: GameId, u: UserId)
    requires GamesOk(db) && FinishTx(db, g, u).Ok? && u in db.games[g].players
    ensures QuietWrite(db, FinishTx(db, g, u).value)
  {
    var game := db.games[g];
    PutGameQuiet(db, g, game.(status := Finished, winner := Some(if game.solo then game.creator else u)));
  }

  lemma TimeoutQuiet(db: Tables, g: GameId)
    requires GamesOk(db) && Begun(db, g) && (g in db.games ==> db.games[g].solo)
    ensures QuietWrite(db, TimeoutWrite(db, g))
  {
    if g in db.games {
      PutGameQuiet(db, g, db.games[g].(status := Finished));
    }
  }

  lemma CreateQuiet(s: State, e: Event)
    requires GamesOk(s.db) && e.Create? && Enabled(s, e)
    ensures QuietWrite(s.db, Step(s, e).db)
  {
  }

  lemma DeleteQuiet(db: Tables, g: GameId)
    requires GamesOk(db)
    ensures QuietWrite(db, DeleteRows(db, g))
  {
  }

  lemma AdvancedGameOk(game: Game, u: UserId)
    requires GameOk(game) && !game.status.Pending? && u in game.players && game.players[u] < |game.problems|
    ensures var game' := game.(players := game.players[u := game.players[u] + 1]);
            GameOk(game') && Evolves(game, game') && game'.players.Keys == game.players.Keys
  {
    var game' := game.(players := game.players[u := game.players[u] + 1]);
    assert game'.players.Keys == game.players.Keys;
  }

  lemma PutGameMoves(db: Tables, g: GameId, game: Game, u: UserId)
    requires GamesOk(db) && g in db.games && GameOk(game) && Evolves(db.games[g], game)
    requires forall v | v in db.games[g].players && v != u ::
              v in game.players && game.players[v] == db.games[g].players[v]
    ensures GamesOk(PutGame(db, g, game)) && DbEvolves(db, PutGame(db, g, game))
    ensures forall v | v != u :: IndexKept(db, PutGame(db, g, game), v)
  {
  }

  lemma AdvanceMovesOne(db: Tables, g: GameId, u: UserId)
    requires GamesOk(db) && AdvanceRow(db, g, u).Ok?
    requires Begun(db, g) && db.games[g].players[u] < |db.games[g].problems|
    ensures GamesOk(AdvanceRow(db, g, u).value.0) && DbEvolves(db, AdvanceRow(db, g, u).value.0)
    ensures forall v | v != u :: IndexKept(db, AdvanceRow(db, g, u).value.0, v)
  {
    var game := db.games[g];
    AdvancedGameOk(game, u);
    var game' := game.(players := game.players[u := game.players[u] + 1]);
    assert AdvanceRow(db, g, u).value.0 == PutGame(db, g, game');
    PutGameMoves(db, g, game', u);
  }

  /** Every step keeps the games good and evolves them; only the submission of u moves an index of u. */
  lemma StepEvolves(s: State, e: Event)
    requires Inv(s) && Enabled(s, e)
    ensures GamesOk(Step(s, e).db) && DbEvolves(s.db, Step(s, e).db)
    ensures forall u | !(e.Progress? && s.subs[e.r].user == u && s.subs[e.r].phase.Saved?) ::
              IndexKept(s.db, Step(s, e).db, u)
  {
    match e
    case Create(_, _, _, _) => CreateQuiet(s, e);
    case Join(g, u) => JoinQuiet(s.db, g, u);
    case Leave(g, u) => LeaveQuiet(s.db, g, u);
    case Start(g, u) => StartQuiet(s.db, g, u);
    case Cancel(g, u) => CancelQuiet(s.db, g, u);
    case Complete(g, winner) => CompleteQuiet(s.db, g, winner);
    case Delete(g) => DeleteQuiet(s.db, g);
    case TimeoutApply(t) => TimeoutQuiet(s.db, s.timeouts[t]);
    case Progress(r) => ProgressEvolves(s, r);
    case _ =>
  }

  lemma ProgressEvolves(s: State, r: ReqId)
    requires Inv(s) && Enabled(s, Progress(r))
    ensures var db' := NextDb(s.db, s.subs[r]);
            && GamesOk(db') && DbEvolves(s.db, db')
            && forall u | !(s.subs[r].user == u && s.subs[r].phase.Saved?) :: IndexKept(s.db, db', u)
  {
    var sub := s.subs[r];
    assert SubOk(s.db, sub);
    if sub.phase.Saved? && AdvanceRow(s.db, sub.game, sub.user).Ok? {
      AdvanceMovesOne(s.db, sub.game, sub.user);
    } else if sub.phase.Final? && FinishTx(s.db, sub.game, sub.user).Ok? {
      FinishQuiet(s.db, sub.game, sub.user);
    }
  }

  // One step: the requests in flight

  /** A submission's knowledge survives whatever others do, as long as nobody else moves its user's index. */
  lemma SubStable(a: Tables, b: Tables, sub: Sub)
    requires DbEvolves(a, b) && IndexKept(a, b, sub.user) && SubOk(a, sub)
    ensures SubOk(b, sub)
  {
  }

  /** A submission's own statement leads to a phase whose knowledge holds. */
  lemma ProgressKeepsSub(db: Tables, sub: Sub)
    requires GamesOk(db) && SubOk(db, sub) && CanProgress(sub.phase)
    ensures SubOk(NextDb(db, sub), sub.(phase := NextPhase(db, sub)))
  {
  }

  lemma OthersStable(s: State, e: Event, q: ReqId)
    requires Inv(s) && Enabled(s, e) && q in s.subs && (e.Progress? ==> e.r != q)
    ensures SubOk(Step(s, e).db, s.subs[q])
  {
    StepEvolves(s, e);
    SubStable(s.db, Step(s, e).db, s.subs[q]);
  }

  lemma SubsKept(s: State, e: Event)
    requires Inv(s) && Enabled(s, e)
    ensures SubsOk(Step(s, e))
  {
    var s' := Step(s, e);
    forall q | q in s'.subs ensures SubOk(s'.db, s'.subs[q]) {
      if e.Progress? && e.r == q {
        ProgressKeepsSub(s.db, s.subs[q]);
      } else if q in s.subs {
        OthersStable(s, e, q);
      }
    }
  }

  /** Only Submit, Release and Evict touch the slots or the set of requests. */
  lemma RequestsKept(s: State, e: Event)
    requires Enabled(s, e) && !e.Submit? && !e.Release? && !e.Evict?
    ensures Step(s, e).slots == s.slots && Step(s, e).subs.Keys == s.subs.Keys
    ensures forall q | q in s.subs :: Step(s, e).subs[q].user == s.subs[q].user
  {
  }

  lemma SlotsKept(s: State, e: Event)
    requires SlotsOk(s) && Enabled(s, e)
    ensures SlotsOk(Step(s, e))
  {
    match e
    case Submit(r, u, _) =>
      assert forall q | q in s.subs :: s.subs[q].user != u;
    case Release(r) =>
    case Evict(u, hasLimiter) =>
    case _ => RequestsKept(s, e);
  }

  lemma TimeoutsOnlyAdded(s: State, e: Event)
    requires Enabled(s, e) && !e.TimeoutCheck?
    ensures forall t | t in Step(s, e).timeouts :: t in s.timeouts && Step(s, e).timeouts[t] == s.timeouts[t]
  {
  }

  lemma TimeoutsKept(s: State, e: Event)
    requires Inv(s) && Enabled(s, e)
    ensures TimeoutsOk(Step(s, e))
  {
    if !e.TimeoutCheck? {
      TimeoutsOnlyAdded(s, e);
      StepEvolves(s, e);
    }
  }

  lemma InsertKeepsUnique(db: Tables, row: Solution)
    requires SolutionsUnique(db)
    ensures SolutionsUnique(InsertRow(db, row))
  {
  }

  lemma DeleteKeepsUnique(db: Tables, g: GameId)
    requires SolutionsUnique(db)
    ensures SolutionsUnique(DeleteRows(db, g))
  {
  }

  lemma SolutionsUntouched(s: State, e: Event)
    requires Enabled(s, e) && !e.Delete? && !e.Save?
    ensures Step(s, e).db.solutions == s.db.solutions
  {
  }

  lemma SolutionsKept(s: State, e: Event)
    requires SolutionsUnique(s.db) && Enabled(s, e)
    ensures SolutionsUnique(Step(s, e).db)
  {
    if e.Delete? {
      DeleteKeepsUnique(s.db, e.g);
    } else if e.Save? {
      InsertKeepsUnique(s.db, SolutionFor(s.subs[e.r].user, s.subs[e.r].game, s.subs[e.r].phase.pin));
    } else {
      SolutionsUntouched(s, e);
    }
  }

  /** Every step keeps the invariant. */
  lemma StepKeepsInv(s: State, e: Event)
    requires Inv(s) && Enabled(s, e)
    ensures Inv(Step(s, e)) && DbEvolves(s.db, Step(s, e).db)
  {
    StepEvolves(s, e);
    SubsKept(s, e);
    SlotsKept(s, e);
    TimeoutsKept(s, e);
    SolutionsKept(s, e);
  }

  /** Over every run from a good state the invariant holds and the games only evolve. */
  lemma {:induction false} RunKeepsInv(s: State, es: seq<Event>)
    requires Inv(s) && ValidRun(s, es)
    ensures Inv(Exec(s, es)) && DbEvolves(s.db, Exec(s, es).db)
    decreases |es|
  {
    if es != [] {
      var s' := Step(s, es[0]);
      StepKeepsInv(s, es[0]);
      RunKeepsInv(s', es[1..]);
      DbEvolvesTransitive(s.db, s'.db, Exec(s, es).db);
    }
  }
}
