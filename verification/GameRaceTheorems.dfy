/** What is proved of the protocol with one-step slots, carried over to the slots as they are, for runs whose deletes
    are quiet. */
module GameRaceTheorems {
  import opened Common
  import opened GameTables
  import opened GameProtocol
  import opened GameInvariant
  import opened GameTheorems
  import opened GameRuns
  import opened GameRace
  import GameFaults
  import Slots
  import SlotRace

  ghost predicate IndicesOk(db: Tables) {
    forall g, u | g in db.games && u in db.games[g].players :: db.games[g].players[u] <= |db.games[g].problems|
  }

  /** Indices stay within the problems, and two submissions of a user that have not begun their release are never in
      flight together. */
  lemma QuietRunsBoundIndices(es: seq<FineEvent>)
    requires FineRun(FineInit, es) && QuietRun(FineInit, es)
    ensures var f := FineExec(FineInit, es);
            && IndicesOk(f.game.db)
            && (forall r, q | r in f.game.subs && q in f.game.subs && r !in f.race.giving && q !in f.race.giving
                  && f.game.subs[r].user == f.game.subs[q].user :: r == q)
  {
    QuietRunsAreProtocolRuns(es);
    ReachableIsGood(Trace(FineInit, es));
    var f := FineExec(FineInit, es);
    assert forall r | r in f.game.subs && r !in f.race.giving ::
        r in Coarse(f).subs && Coarse(f).subs[r] == f.game.subs[r];
    assert forall g | g in f.game.db.games :: GameOk(f.game.db.games[g]);
  }

  /** A submission that is done can give its slot back, in both steps. */
  lemma QuietReleasesNeverBlock(es: seq<FineEvent>, r: ReqId)
    requires FineRun(FineInit, es) && QuietRun(FineInit, es)
    requires r in FineExec(FineInit, es).game.subs && FineExec(FineInit, es).game.subs[r].phase.Done?
    ensures var f := FineExec(FineInit, es);
            if r in f.race.giving then FineEnabled(f, Receive(r))
            else FineEnabled(f, GiveLoad(r)) && FineEnabled(FineStep(f, GiveLoad(r)), Receive(r))
  {
    QuietRunsAreProtocolRuns(es);
    var f := FineExec(FineInit, es);
    SlotRace.InvExcludes(f.race);
    assert r in f.race.holders;
  }

  /** How many events of the run answer their caller that game g is now finished with a winner. */
  function Reports(f: Fine, es: seq<FineEvent>, g: GameId): nat
    requires FineRun(f, es)
    decreases |es|
  {
    if es == [] then 0 else
    (if es[0].Request? && ReportsFinish(f.game, es[0].e, g) then 1 else 0) + Reports(FineStep(f, es[0]), es[1..], g)
  }

  lemma {:induction false} FinishReportsAppend(s: State, es: seq<Event>, fs: seq<Event>, g: GameId)
    requires ValidRun(s, es) && ValidRun(Exec(s, es), fs) && ValidRun(s, es + fs)
    ensures FinishReports(s, es + fs, g) == FinishReports(s, es, g) + FinishReports(Exec(s, es), fs, g)
    decreases |es|
  {
    if es == [] {
      assert es + fs == fs;
    } else {
      assert (es + fs)[0] == es[0] && (es + fs)[1..] == es[1..] + fs;
      FinishReportsAppend(Step(s, es[0]), es[1..], fs, g);
    }
  }

  /** Slot events report nothing and abort nothing. */
  lemma {:induction false} SlotEventsSilent(s: State, es: seq<Event>, u: UserId, g: GameId)
    requires ValidRun(s, es) && forall i | 0 <= i < |es| :: !SlotFree(es[i])
    ensures FinishReports(s, es, g) == 0 && !GameFaults.LateAborted(s, es, u, g)
    decreases |es|
  {
    if es != [] {
      assert !SlotFree(es[0]);
      SlotEventsSilent(Step(s, es[0]), es[1..], u, g);
    }
  }

  lemma OneReport(s: State, e: Event, u: UserId, g: GameId)
    requires ValidRun(s, [e])
    ensures FinishReports(s, [e], g) == if ReportsFinish(s, e, g) then 1 else 0
    ensures GameFaults.LateAborted(s, [e], u, g) <==> GameFaults.LateAbort(s, e, u, g)
  {
    assert [e][1..] == [];
  }

  /** A submission whose release has begun neither finishes a game nor is aborted. */
  lemma RequestSame(f: Fine, e: Event, u: UserId, g: GameId)
    requires Matched(f) && FineEnabled(f, Request(e))
    ensures ReportsFinish(Coarse(f), e, g) <==> ReportsFinish(f.game, e, g)
    ensures GameFaults.LateAbort(Coarse(f), e, u, g) <==> GameFaults.LateAbort(f.game, e, u, g)
  {
  }

  lemma SilentOrSame(f: Fine, e: FineEvent, u: UserId, g: GameId)
    requires Matched(f) && FineEnabled(f, e) && ValidRun(Coarse(f), TraceOf(f, e))
    ensures FinishReports(Coarse(f), TraceOf(f, e), g) == if e.Request? && ReportsFinish(f.game, e.e, g) then 1 else 0
    ensures GameFaults.LateAborted(Coarse(f), TraceOf(f, e), u, g) <==>
              e.Request? && GameFaults.LateAbort(f.game, e.e, u, g)
  {
    if e.Request? {
      OneReport(Coarse(f), e.e, u, g);
      RequestSame(f, e.e, u, g);
    } else {
      SlotEventsSilent(Coarse(f), TraceOf(f, e), u, g);
    }
  }

  lemma {:induction false} ReportsOfTrace(f: Fine, es: seq<FineEvent>, g: GameId)
    requires Linked(f) && FineRun(f, es) && QuietRun(f, es)
    ensures ValidRun(Coarse(f), Trace(f, es)) && FinishReports(Coarse(f), Trace(f, es), g) == Reports(f, es, g)
    decreases |es|
  {
    RunSimulates(f, es);
    if es != [] {
      var f' := FineStep(f, es[0]);
      StepGoes(f, es[0]);
      StepLinks(f, es[0]);
      SilentOrSame(f, es[0], 0, g);
      ReportsOfTrace(f', es[1..], g);
      FinishReportsAppend(Coarse(f), TraceOf(f, es[0]), Trace(f', es[1..]), g);
    }
  }

  /** At most one of all submissions and completeGame calls reports finishing a game. */
  lemma QuietAtMostOneFinisher(es: seq<FineEvent>, g: GameId)
    requires FineRun(FineInit, es) && QuietRun(FineInit, es)
    ensures Reports(FineInit, es, g) <= 1
  {
    StartsLinked();
    ReportsOfTrace(FineInit, es, g);
    AtMostOneFinisher(Trace(FineInit, es), g);
  }

  /** A submission of u that had counted the last problem of g was aborted in the run. */
  predicate AbortedLate(f: Fine, es: seq<FineEvent>, u: UserId, g: GameId)
    requires FineRun(f, es)
    decreases |es|
  {
    es != [] && ((es[0].Request? && GameFaults.LateAbort(f.game, es[0].e, u, g))
        || AbortedLate(FineStep(f, es[0]), es[1..], u, g))
  }

  lemma {:induction false} LateAbortedAppend(s: State, es: seq<Event>, fs: seq<Event>, u: UserId, g: GameId)
    requires ValidRun(s, es) && ValidRun(Exec(s, es), fs) && ValidRun(s, es + fs)
    ensures GameFaults.LateAborted(s, es + fs, u, g) <==>
            GameFaults.LateAborted(s, es, u, g) || GameFaults.LateAborted(Exec(s, es), fs, u, g)
    decreases |es|
  {
    if es == [] {
      assert es + fs == fs;
    } else {
      assert (es + fs)[0] == es[0] && (es + fs)[1..] == es[1..] + fs;
      LateAbortedAppend(Step(s, es[0]), es[1..], fs, u, g);
    }
  }

  lemma {:induction false} LateAbortOfTrace(f: Fine, es: seq<FineEvent>, u: UserId, g: GameId)
    requires Linked(f) && FineRun(f, es) && QuietRun(f, es)
    ensures ValidRun(Coarse(f), Trace(f, es))
    ensures GameFaults.LateAborted(Coarse(f), Trace(f, es), u, g) <==> AbortedLate(f, es, u, g)
    decreases |es|
  {
    RunSimulates(f, es);
    if es != [] {
      var f' := FineStep(f, es[0]);
      StepGoes(f, es[0]);
      StepLinks(f, es[0]);
      SilentOrSame(f, es[0], u, g);
      LateAbortOfTrace(f', es[1..], u, g);
      LateAbortedAppend(Coarse(f), TraceOf(f, es[0]), Trace(f', es[1..]), u, g);
    }
  }

  lemma StrandedSame(f: Fine, u: UserId, g: GameId)
    requires Matched(f)
    ensures GameFaults.Stranded(Coarse(f), u, g) <==> GameFaults.Stranded(f.game, u, g)
  {
    assert forall r :: GameFaults.ClosingSub(Coarse(f), r, u, g) <==> GameFaults.ClosingSub(f.game, r, u, g);
  }

  /** A player of an active game is at the end with nothing in flight to finish it if and only if a closing submission
      of theirs was aborted. */
  lemma QuietStrandedExactly(es: seq<FineEvent>, u: UserId, g: GameId)
    requires FineRun(FineInit, es) && QuietRun(FineInit, es)
              && GameFaults.PlaysActive(FineExec(FineInit, es).game, u, g)
    ensures GameFaults.Stranded(FineExec(FineInit, es).game, u, g) <==> AbortedLate(FineInit, es, u, g)
  {
    StartsLinked();
    QuietRunsAreProtocolRuns(es);
    LateAbortOfTrace(FineInit, es, u, g);
    GameFaults.StrandedExactly(Trace(FineInit, es), u, g);
    StrandedSame(FineExec(FineInit, es), u, g);
  }
}
