/** Runs of the game protocol put together, and the tables that requests made one after the other can leave. */
module GameRuns {
  import opened Common
  import opened GameTables
  import opened GameProtocol
  import opened GameInvariant
  import Slots

  /** Some run leads from s to s'. */
  ghost predicate Reaches(s: State, s': State) {
    exists es :: ValidRun(s, es) && Exec(s, es) == s'
  }

  lemma {:induction false} RunsCompose(s: State, es: seq<Event>, fs: seq<Event>)
    requires ValidRun(s, es) && ValidRun(Exec(s, es), fs)
    ensures ValidRun(s, es + fs) && Exec(s, es + fs) == Exec(Exec(s, es), fs)
    decreases |es|
  {
    if es == [] {
      assert es + fs == fs;
    } else {
      assert (es + fs)[0] == es[0] && (es + fs)[1..] == es[1..] + fs;
      RunsCompose(Step(s, es[0]), es[1..], fs);
    }
  }

  lemma ReachesTransitive(s: State, t: State, v: State)
    requires Reaches(s, t) && Reaches(t, v)
    ensures Reaches(s, v)
  {
    var es :| ValidRun(s, es) && Exec(s, es) == t;
    var fs :| ValidRun(t, fs) && Exec(t, fs) == v;
    RunsCompose(s, es, fs);
  }

  lemma OneEvent(s: State, e: Event)
    requires Enabled(s, e)
    ensures ValidRun(s, [e]) && Exec(s, [e]) == Step(s, e)
  {
    assert [e][1..] == [];
    assert ValidRun(Step(s, e), [e][1..]);
  }

  lemma StepReaches(s: State, e: Event)
    requires Enabled(s, e)
    ensures Reaches(s, Step(s, e))
  {
    OneEvent(s, e);
  }

  lemma StaysReaches(s: State)
    ensures Reaches(s, s)
  {
    assert ValidRun(s, []) && Exec(s, []) == s;
  }

  // Requests one after the other

  /** Nothing is in flight. */
  ghost predicate Idle(s: State) {
    s.subs == map[] && s.timeouts == map[] && Slots.HeldSet(s.slots) == {}
  }

  /** Some run from the empty database leaves these rows with nothing in flight. */
  ghost predicate Reachable(db: Tables) {
    exists s :: Reaches(Init, s) && Idle(s) && s.db == db
  }

  lemma EmptyReachable()
    ensures Reachable(Init.db)
  {
    StaysReaches(Init);
    assert Idle(Init);
  }

  lemma ReachableGames(db: Tables)
    requires Reachable(db)
    ensures GamesOk(db) && SolutionsUnique(db)
  {
    var s :| Reaches(Init, s) && Idle(s) && s.db == db;
    var es :| ValidRun(Init, es) && Exec(Init, es) == s;
    RunKeepsInv(Init, es);
  }

  /** A request that is one transaction, running alone on these rows. */
  function Alone(db: Tables): State {
    State(db, map[], map[], map[])
  }

  predicate OneTransaction(e: Event) {
    e.Reserve? || e.Create? || e.Rollback? || e.Join? || e.Leave? || e.Start? || e.Cancel? || e.Complete? || e.Delete?
  }

  lemma TransactionAlone(s: State, e: Event)
    requires OneTransaction(e) && Enabled(Alone(s.db), e)
    ensures Enabled(s, e) && Step(s, e) == s.(db := Step(Alone(s.db), e).db)
  {
  }

  /** It keeps the rows reachable, and games only evolve. */
  lemma TransactionKeeps(db: Tables, e: Event)
    requires Reachable(db) && OneTransaction(e) && Enabled(Alone(db), e)
    ensures Reachable(Step(Alone(db), e).db) && DbEvolves(db, Step(Alone(db), e).db)
  {
    var s :| Reaches(Init, s) && Idle(s) && s.db == db;
    TransactionAlone(s, e);
    StepReaches(s, e);
    ReachesTransitive(Init, s, Step(s, e));
    assert Idle(Step(s, e));
    StepOfReachable(s, e);
  }

  /** A creation gets its id and commits, or rolls back, with nothing in between. */
  lemma CreationKeeps(db: Tables, e: Event)
    requires Reachable(db) && ((e.Create? && e.g == db.nextId) || e == Rollback(db.nextId))
    requires Enabled(Step(Alone(db), Reserve), e)
    ensures var db' := Step(Step(Alone(db), Reserve), e).db; Reachable(db') && DbEvolves(db, db')
  {
    var mid := Step(Alone(db), Reserve).db;
    TransactionKeeps(db, Reserve);
    TransactionKeeps(mid, e);
    ReachableGames(db);
    DbEvolvesTransitive(db, mid, Step(Alone(mid), e).db);
  }

  lemma StepOfReachable(s: State, e: Event)
    requires Reaches(Init, s) && Enabled(s, e)
    ensures Inv(Step(s, e)) && DbEvolves(s.db, Step(s, e).db)
  {
    var es :| ValidRun(Init, es) && Exec(Init, es) == s;
    RunKeepsInv(Init, es);
    StepKeepsInv(s, e);
  }

  /** The same for a timeout whose check and write no other request separates. */
  lemma TimeoutKeeps(db: Tables, g: GameId, u: UserId)
    requires Reachable(db) && TimeoutRead(db, g, u).Ok?
    ensures Reachable(TimeoutWrite(db, g)) && DbEvolves(db, TimeoutWrite(db, g))
  {
    var s :| Reaches(Init, s) && Idle(s) && s.db == db;
    var t := Step(s, TimeoutCheck(0, g, u));
    StepReaches(s, TimeoutCheck(0, g, u));
    ReachesTransitive(Init, s, t);
    StepReaches(t, TimeoutApply(0));
    ReachesTransitive(Init, t, Step(t, TimeoutApply(0)));
    assert Step(t, TimeoutApply(0)).timeouts == map[];
    assert Idle(Step(t, TimeoutApply(0)));
    StepOfReachable(t, TimeoutApply(0));
  }
}
