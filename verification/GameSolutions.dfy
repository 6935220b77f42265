/** The solutions on record (internal/service/submission_service.go:77-88). An insert that fails is only logged and the
    player moves on, so what is on record is told by the inserts of the run. */
module GameSolutions {
  import opened Common
  import opened GameTables
  import opened GameProtocol
  import opened GameInvariant
  import opened GameTheorems

  datatype Key = Key(user: UserId, game: GameId, slug: string)

  /** What an insert is about. */
  function KeyOf(s: State, e: Event): Key
    requires e.Save? && Enabled(s, e)
  {
    Key(s.subs[e.r].user, s.subs[e.r].game, s.subs[e.r].phase.pin.slug)
  }

  function Inserted(s: State, e: Event): set<Key>
    requires Enabled(s, e)
  {
    if e.Save? then {KeyOf(s, e)} else {}
  }

  /** The keys a run tried to insert. */
  function Tried(s: State, es: seq<Event>): set<Key>
    requires ValidRun(s, es)
    decreases |es|
  {
    if es == [] then {} else Inserted(s, es[0]) + Tried(Step(s, es[0]), es[1..])
  }

  /** The keys of which some insert went through. */
  function Stored(s: State, es: seq<Event>): set<Key>
    requires ValidRun(s, es)
    decreases |es|
  {
    if es == [] then {}
    else (if es[0].Save? && es[0].ok then Inserted(s, es[0]) else {}) + Stored(Step(s, es[0]), es[1..])
  }

  /** The keys of which some insert failed. */
  function Failed(s: State, es: seq<Event>): set<Key>
    requires ValidRun(s, es)
    decreases |es|
  {
    if es == [] then {}
    else (if es[0].Save? && !es[0].ok then Inserted(s, es[0]) else {}) + Failed(Step(s, es[0]), es[1..])
  }

  lemma {:induction false} TriedIsStoredOrFailed(s: State, es: seq<Event>)
    requires ValidRun(s, es)
    ensures Tried(s, es) == Stored(s, es) + Failed(s, es)
    decreases |es|
  {
    if es != [] {
      TriedIsStoredOrFailed(Step(s, es[0]), es[1..]);
    }
  }

  // What a player has passed was tried

  /** Every problem a player has passed, and every one a submission is about to count, was tried. */
  ghost predicate Counted(s: State, tried: set<Key>) {
    && (forall g, u, j: nat | PassedAt(s.db, g, u, j) :: Key(u, g, s.db.games[g].problems[j].slug) in tried)
    && (forall r | r in s.subs && s.subs[r].phase.Saved? ::
          Key(s.subs[r].user, s.subs[r].game, s.subs[r].phase.pin.slug) in tried)
  }

  predicate PassedAt(db: Tables, g: GameId, u: UserId, j: nat) {
    g in db.games && u in db.games[g].players && j < db.games[g].players[u] && j < |db.games[g].problems|
  }

  /** A newly counted problem is the one the submission has just saved; every other count is old. */
  lemma PassedBefore(s: State, e: Event, g: GameId, u: UserId, j: nat)
    requires Inv(s) && Enabled(s, e) && PassedAt(Step(s, e).db, g, u, j)
    ensures g in s.db.games && s.db.games[g].problems == Step(s, e).db.games[g].problems
    ensures PassedAt(s.db, g, u, j)
            || (e.Progress? && s.subs[e.r].phase.Saved? && s.subs[e.r].user == u && s.subs[e.r].game == g
                && s.subs[e.r].phase.pin == s.db.games[g].problems[j])
  {
    CountsMoveOnlyBySaved(s, e, g, u);
    StepEvolves(s, e);
    if e.Progress? && s.subs[e.r].phase.Saved? && s.subs[e.r].game == g && s.subs[e.r].user == u {
      assert SubOk(s.db, s.subs[e.r]);
      CountedWasSaved(s.db, s.subs[e.r], j);
    }
  }

  /** The increment counts the problem that the submission saved. */
  lemma CountedWasSaved(db: Tables, sub: Sub, j: nat)
    requires sub.phase.Saved? && SubOk(db, sub) && PassedAt(NextDb(db, sub), sub.game, sub.user, j)
    ensures sub.game in db.games && db.games[sub.game].problems == NextDb(db, sub).games[sub.game].problems
    ensures PassedAt(db, sub.game, sub.user, j) || db.games[sub.game].problems[j] == sub.phase.pin
  {
  }

  /** An index that is neither zero nor the old one was moved by the saved submission of that player. */
  lemma CountsMoveOnlyBySaved(s: State, e: Event, g: GameId, u: UserId)
    requires Enabled(s, e) && g in Step(s, e).db.games && u in Step(s, e).db.games[g].players
    ensures || Step(s, e).db.games[g].players[u] == 0
            || (g in s.db.games && u in s.db.games[g].players
                && s.db.games[g].players[u] == Step(s, e).db.games[g].players[u])
            || (e.Progress? && s.subs[e.r].phase.Saved? && s.subs[e.r].game == g && s.subs[e.r].user == u)
  {
  }

  /** Only Save leads into the saved phase. */
  lemma OnlySaveSaves(s: State, e: Event, r: ReqId)
    requires Enabled(s, e) && r in Step(s, e).subs && Step(s, e).subs[r].phase.Saved?
    ensures if e.Save? && e.r == r
            then KeyOf(s, e) == Key(Step(s, e).subs[r].user, Step(s, e).subs[r].game, Step(s, e).subs[r].phase.pin.slug)
            else r in s.subs && s.subs[r] == Step(s, e).subs[r]
  {
  }

  lemma StepCounts(s: State, e: Event, tried: set<Key>)
    requires Inv(s) && Enabled(s, e) && Counted(s, tried)
    ensures Counted(Step(s, e), tried + Inserted(s, e))
  {
    var s' := Step(s, e);
    forall g, u, j: nat | PassedAt(s'.db, g, u, j) ensures Key(u, g, s'.db.games[g].problems[j].slug) in tried {
      PassedBefore(s, e, g, u, j);
    }
    forall r | r in s'.subs && s'.subs[r].phase.Saved?
      ensures Key(s'.subs[r].user, s'.subs[r].game, s'.subs[r].phase.pin.slug) in tried + Inserted(s, e)
    {
      OnlySaveSaves(s, e, r);
    }
  }

  lemma {:induction false} RunCounts(s: State, es: seq<Event>, tried: set<Key>)
    requires Inv(s) && Counted(s, tried) && ValidRun(s, es)
    ensures Counted(Exec(s, es), tried + Tried(s, es))
    decreases |es|
  {
    if es == [] {
      assert tried + Tried(s, es) == tried;
    } else {
      StepKeepsInv(s, es[0]);
      StepCounts(s, es[0], tried);
      RunCounts(Step(s, es[0]), es[1..], tried + Inserted(s, es[0]));
      assert tried + Inserted(s, es[0]) + Tried(Step(s, es[0]), es[1..]) == tried + Tried(s, es);
    }
  }

  // Which version a row carries

  /** The row's game exists, and problem and version are those of one of its pins. */
  ghost predicate FromPin(db: Tables, row: Solution) {
    row.game.Some? ==>
      && row.game.value in db.games
      && exists k :: PinnedAt(db.games[row.game.value], k, row)
  }

  ghost predicate PinnedAt(game: Game, k: nat, row: Solution) {
    k < |game.problems| && game.problems[k].slug == row.problem && game.problems[k].versionId == row.version
  }

  ghost predicate RowsPinned(db: Tables) {
    forall i | 0 <= i < |db.solutions| :: FromPin(db, db.solutions[i])
  }

  /** Games keep their problems, and only their own delete removes them. */
  lemma ProblemsStay(s: State, e: Event, g: GameId)
    requires Inv(s) && Enabled(s, e) && g in s.db.games && !(e.Delete? && e.g == g)
    ensures g in Step(s, e).db.games && Step(s, e).db.games[g].problems == s.db.games[g].problems
  {
    GamesStay(s, e, g);
    StepEvolves(s, e);
  }

  lemma GamesStay(s: State, e: Event, g: GameId)
    requires Enabled(s, e) && g in s.db.games && !(e.Delete? && e.g == g)
    ensures g in Step(s, e).db.games
  {
  }

  lemma PinStays(s: State, e: Event, row: Solution)
    requires Inv(s) && Enabled(s, e) && FromPin(s.db, row) && !(e.Delete? && row.game == Some(e.g))
    ensures FromPin(Step(s, e).db, row)
  {
    if row.game.Some? {
      ProblemsStay(s, e, row.game.value);
      var k :| PinnedAt(s.db.games[row.game.value], k, row);
      assert PinnedAt(Step(s, e).db.games[row.game.value], k, row);
    }
  }

  lemma SavedFromPin(s: State, r: ReqId)
    requires Inv(s) && Enabled(s, Save(r, true))
    ensures FromPin(s.db, SolutionFor(s.subs[r].user, s.subs[r].game, s.subs[r].phase.pin))
  {
    var sub := s.subs[r];
    assert SubOk(s.db, sub) && GameOk(s.db.games[sub.game]);
    assert PinnedAt(s.db.games[sub.game], sub.phase.idx, SolutionFor(sub.user, sub.game, sub.phase.pin));
  }

  /** Each row afterwards was there before, or is an orphan, or was just saved. */
  lemma RowBefore(s: State, e: Event, i: nat)
    requires Enabled(s, e) && i < |Step(s, e).db.solutions|
    ensures var row := Step(s, e).db.solutions[i];
            || row.game.None?
            || (e.Save? && e.ok && row == SolutionFor(s.subs[e.r].user, s.subs[e.r].game, s.subs[e.r].phase.pin))
            || (i < |s.db.solutions| && row == s.db.solutions[i] && !(e.Delete? && row.game == Some(e.g)))
  {
  }

  lemma StepKeepsPinned(s: State, e: Event)
    requires Inv(s) && Enabled(s, e) && RowsPinned(s.db)
    ensures RowsPinned(Step(s, e).db)
  {
    var s' := Step(s, e);
    forall i | 0 <= i < |s'.db.solutions| ensures FromPin(s'.db, s'.db.solutions[i]) {
      var row := s'.db.solutions[i];
      RowBefore(s, e, i);
      if row.game.Some? {
        if e.Save? && e.ok && row == SolutionFor(s.subs[e.r].user, s.subs[e.r].game, s.subs[e.r].phase.pin) {
          SavedFromPin(s, e.r);
        }
        PinStays(s, e, row);
      }
    }
  }

  lemma {:induction false} RunKeepsPinned(s: State, es: seq<Event>)
    requires Inv(s) && ValidRun(s, es) && RowsPinned(s.db)
    ensures RowsPinned(Exec(s, es).db)
    decreases |es|
  {
    if es != [] {
      StepKeepsPinned(s, es[0]);
      StepKeepsInv(s, es[0]);
      RunKeepsPinned(Step(s, es[0]), es[1..]);
    }
  }

  /** Over every run, failures or not, a row that names a game carries the problem and the version of one of the
      pins of that game, which exists. */
  lemma RowsCarryPinnedVersions(es: seq<Event>, i: nat)
    requires ValidRun(Init, es) && i < |After(es).db.solutions| && After(es).db.solutions[i].game.Some?
    ensures var db := After(es).db;
            var row := db.solutions[i];
            row.game.value in db.games && exists k :: PinnedAt(db.games[row.game.value], k, row)
  {
    RunKeepsPinned(Init, es);
    assert FromPin(After(es).db, After(es).db.solutions[i]);
  }

  /** The row of a problem, in a game whose equal slugs have equal versions, as those with distinct slugs do, carries
      the
      pinned version. */
  lemma RowVersionIsPinned(es: seq<Event>, g: GameId, u: UserId, j: nat)
    requires ValidRun(Init, es) && g in After(es).db.games && j < |After(es).db.games[g].problems|
    requires HasSolution(After(es).db, u, g, After(es).db.games[g].problems[j].slug)
    requires var problems := After(es).db.games[g].problems;
             forall k, l | 0 <= k < |problems| && 0 <= l < |problems| && problems[k].slug == problems[l].slug ::
               problems[k].versionId == problems[l].versionId
    ensures var pin := After(es).db.games[g].problems[j];
            exists i :: 0 <= i < |After(es).db.solutions|
                && After(es).db.solutions[i] == Solution(u, Some(g), pin.slug, pin.versionId)
  {
    var db := After(es).db;
    var slug := db.games[g].problems[j].slug;
    var i :| 0 <= i < |db.solutions| && db.solutions[i].user == u && db.solutions[i].game == Some(g)
        && db.solutions[i].problem == slug;
    RowsCarryPinnedVersions(es, i);
    var k :| PinnedAt(db.games[g], k, db.solutions[i]);
    assert db.solutions[i] == Solution(u, Some(g), slug, db.games[g].problems[j].versionId);
  }

  // What was stored is on record

  /** The row of a key is there exactly if the history says so, and none before the game is. */
  ghost predicate RowIs(db: Tables, k: Key, was: bool) {
    && (k.game in db.games ==> (HasSolution(db, k.user, k.game, k.slug) <==> was))
    && (Unused(db, k.game) ==> !was)
  }

  lemma RowAppears(s: State, r: ReqId)
    requires Inv(s) && Enabled(s, Save(r, true))
    ensures var k := KeyOf(s, Save(r, true)); HasSolution(Step(s, Save(r, true)).db, k.user, k.game, k.slug)
  {
    var sub := s.subs[r];
    assert SubOk(s.db, sub) && GameOk(s.db.games[sub.game]);
    InsertRecords(s.db, SolutionFor(sub.user, sub.game, sub.phase.pin), sub.game);
  }

  lemma InsertRecords(db: Tables, row: Solution, g: GameId)
    requires row.game == Some(g)
    ensures HasSolution(InsertRow(db, row), row.user, g, row.problem)
  {
    if exists i :: 0 <= i < |db.solutions| && SameKey(db.solutions[i], row) {
      var i :| 0 <= i < |db.solutions| && SameKey(db.solutions[i], row);
      assert db.solutions[i].user == row.user;
    } else {
      assert InsertRow(db, row).solutions[|db.solutions|] == row;
    }
  }

  /** A row of a game stays until the game is deleted. */
  lemma RowStays(s: State, e: Event, k: Key)
    requires Enabled(s, e) && HasSolution(s.db, k.user, k.game, k.slug) && !(e.Delete? && e.g == k.game)
    ensures HasSolution(Step(s, e).db, k.user, k.game, k.slug)
  {
    var i :| 0 <= i < |s.db.solutions| && s.db.solutions[i].user == k.user && s.db.solutions[i].game == Some(k.game)
      && s.db.solutions[i].problem == k.slug;
    assert Step(s, e).db.solutions[i] == s.db.solutions[i];
  }

  /** And it was there before unless it was just stored. */
  lemma RowWasThere(s: State, e: Event, k: Key)
    requires Inv(s) && Enabled(s, e) && HasSolution(Step(s, e).db, k.user, k.game, k.slug)
    ensures HasSolution(s.db, k.user, k.game, k.slug) || (e.Save? && e.ok && KeyOf(s, e) == k)
  {
    var s' := Step(s, e);
    var i :| 0 <= i < |s'.db.solutions| && s'.db.solutions[i].user == k.user && s'.db.solutions[i].game == Some(k.game)
      && s'.db.solutions[i].problem == k.slug;
    RowBefore(s, e, i);
    if e.Save? && e.ok {
      assert SubOk(s.db, s.subs[e.r]) && GameOk(s.db.games[s.subs[e.r].game]);
    }
  }

  lemma NoRowOfUnused(db: Tables, k: Key)
    requires RowsPinned(db) && k.game !in db.games
    ensures !HasSolution(db, k.user, k.game, k.slug)
  {
  }

  lemma StepRow(s: State, e: Event, k: Key, was: bool)
    requires Inv(s) && RowsPinned(s.db) && Enabled(s, e) && RowIs(s.db, k, was)
    ensures RowIs(Step(s, e).db, k, was || (e.Save? && e.ok && KeyOf(s, e) == k))
  {
    var s' := Step(s, e);
    StepEvolves(s, e);
    if e.Save? && e.ok && KeyOf(s, e) == k {
      RowAppears(s, e.r);
    } else if k.game in s'.db.games {
      if HasSolution(s'.db, k.user, k.game, k.slug) {
        RowWasThere(s, e, k);
        if k.game !in s.db.games {
          NoRowOfUnused(s.db, k);
        }
      } else if k.game in s.db.games && was {
        RowStays(s, e, k);
      }
    }
  }

  lemma {:induction false} RunRow(s: State, es: seq<Event>, k: Key, was: bool)
    requires Inv(s) && RowsPinned(s.db) && ValidRun(s, es) && RowIs(s.db, k, was)
    ensures RowIs(Exec(s, es).db, k, was || k in Stored(s, es))
    decreases |es|
  {
    if es != [] {
      StepRow(s, es[0], k, was);
      StepKeepsInv(s, es[0]);
      StepKeepsPinned(s, es[0]);
      RunRow(Step(s, es[0]), es[1..], k, was || (es[0].Save? && es[0].ok && KeyOf(s, es[0]) == k));
    }
  }

  /** Over every run, the row of a user, an existing game and a problem is there if and only if some insert of it went
      through. */
  lemma OnRecordExactly(es: seq<Event>, k: Key)
    requires ValidRun(Init, es) && k.game in After(es).db.games
    ensures HasSolution(After(es).db, k.user, k.game, k.slug) <==> k in Stored(Init, es)
  {
    RunRow(Init, es, k, false);
  }

  /** A problem below a player's index was tried to insert, and its row is missing if and only if every insert of it
      failed; what happened to other users, games and problems does not matter. */
  lemma PassedRowMissingExactly(es: seq<Event>, g: GameId, u: UserId, j: nat)
    requires ValidRun(Init, es)
    requires g in After(es).db.games && u in After(es).db.games[g].players && j < After(es).db.games[g].players[u]
    ensures j < |After(es).db.games[g].problems|
    ensures var slug := After(es).db.games[g].problems[j].slug;
            var k := Key(u, g, slug);
            && k in Tried(Init, es)
            && (HasSolution(After(es).db, u, g, slug) <==> k in Stored(Init, es))
            && (!HasSolution(After(es).db, u, g, slug) ==> k in Failed(Init, es))
  {
    ReachableIsGood(es);
    assert GameOk(After(es).db.games[g]);
    RunCounts(Init, es, {});
    assert PassedAt(After(es).db, g, u, j);
    OnRecordExactly(es, Key(u, g, After(es).db.games[g].problems[j].slug));
    TriedIsStoredOrFailed(Init, es);
  }

  /** So without a failing insert of that very key, the problem has a passed solution of the player on record. */
  lemma PassedProblemsAreOnRecord(es: seq<Event>, g: GameId, u: UserId, j: nat)
    requires ValidRun(Init, es)
    requires g in After(es).db.games && u in After(es).db.games[g].players && j < After(es).db.games[g].players[u]
    requires j < |After(es).db.games[g].problems| ==>
              Key(u, g, After(es).db.games[g].problems[j].slug) !in Failed(Init, es)
    ensures j < |After(es).db.games[g].problems|
    ensures HasSolution(After(es).db, u, g, After(es).db.games[g].problems[j].slug)
  {
    PassedRowMissingExactly(es, g, u, j);
  }

  /** Over every run, failures or not, there is at most one row per user, game and problem. */
  lemma OneRowPerProblem(es: seq<Event>, i: nat, j: nat)
    requires ValidRun(Init, es) && i < j < |After(es).db.solutions|
    ensures !SameKey(After(es).db.solutions[i], After(es).db.solutions[j])
  {
    ReachableIsGood(es);
  }
}
