/** SubmissionService (internal/service/submission_service.go), each request running alone. The executor is an oracle:
    `run(i, stdin)` is what it answers to the i-th execution of the submitted code, with that standard input. */
module SubmissionServices {
  import opened Common
  import opened GameTables
  import opened GameProtocol
  import opened Submission
  import ArtifactStore
  import ExecutionServices
  import GameServices
  import Output
  import RateLimit
  import Slots
  import Uploaders

  datatype Answer = Answer(stdout: string, stderr: string, failed: bool)

  datatype Verdict = Verdict(accepted: bool, failedTest: Option<nat>, stdout: string, stderr: string)

  type Executor = (nat, string) -> Answer

  /** The test ran and printed what it should. */
  ghost predicate Solves(test: ArtifactStore.TestCase, answer: Answer) {
    !answer.failed && Output.CanonicalLines(answer.stdout) == Output.CanonicalLines(test.expected)
  }

  ghost predicate AllPass(tests: seq<ArtifactStore.TestCase>, run: Executor) {
    forall i | 0 <= i < |tests| :: Solves(tests[i], run(i, tests[i].input))
  }

  /** One test: the run did not fail and its output matches the expected one. */
  method JudgeAnswer(test: ArtifactStore.TestCase, answer: Answer) returns (passed: bool)
    ensures passed <==>
              !answer.failed && Output.CanonicalLines(answer.stdout) == Output.CanonicalLines(test.expected)
  {
    Output.MatchIsCanonical(answer.stdout, test.expected);
    passed := !answer.failed && Output.Match(answer.stdout, test.expected);
  }

  /** executeAgainstProblem: tests run in order, each on its own input, up to the first that fails, and the output is
      that of the last one run. A test passes if its run does not fail and prints its expected output, compared line by
      line with blank tails and trailing blank lines aside. */
  method ExecuteAgainstProblem(tests: seq<ArtifactStore.TestCase>, run: Executor) returns (v: Verdict)
    ensures v.accepted <==> forall i | 0 <= i < |tests| ::
              !run(i, tests[i].input).failed
              && Output.CanonicalLines(run(i, tests[i].input).stdout) == Output.CanonicalLines(tests[i].expected)
    ensures v.accepted <==> v.failedTest.None?
    ensures v.failedTest.Some? ==>
              var k := v.failedTest.value;
              && k < |tests|
              && (run(k, tests[k].input).failed
                  || Output.CanonicalLines(run(k, tests[k].input).stdout) != Output.CanonicalLines(tests[k].expected))
              && (forall i | 0 <= i < k ::
                    !run(i, tests[i].input).failed
                    && Output.CanonicalLines(run(i, tests[i].input).stdout) == Output.CanonicalLines(tests[i].expected))
              && v.stdout == run(k, tests[k].input).stdout && v.stderr == run(k, tests[k].input).stderr
    ensures v.accepted && tests != [] ==>
              var last := run(|tests| - 1, tests[|tests| - 1].input);
              v.stdout == last.stdout && v.stderr == last.stderr
    ensures tests == [] ==> v.stdout == "" && v.stderr == ""
  {
    v := Verdict(true, None, "", "");
    for i := 0 to |tests|
      invariant v.accepted && v.failedTest.None?
      invariant forall j | 0 <= j < i ::
                  !run(j, tests[j].input).failed
                  && Output.CanonicalLines(run(j, tests[j].input).stdout) == Output.CanonicalLines(tests[j].expected)
      invariant i == 0 ==> v.stdout == "" && v.stderr == ""
      invariant i > 0 ==>
                  var last := run(i - 1, tests[i - 1].input);
                  v.stdout == last.stdout && v.stderr == last.stderr
    {
      var result := run(i, tests[i].input);
      v := v.(stdout := result.stdout, stderr := result.stderr);
      var passed := JudgeAnswer(tests[i], result);
      if !passed {
        v := v.(accepted := false, failedTest := Some(i));
        return;
      }
    }
  }

  datatype SubmissionResult = SubmissionResult(
    accepted: bool,
    alreadyAdvanced: bool,
    failedTest: Option<nat>,
    stdout: string,
    stderr: string,
    winner: Option<UserId>,
    problemId: string,
    problemIdx: nat)

  datatype SubmitError = ExecutionInProgress | RateLimited | GameError(error: GameTables.Error) | ProblemUnavailable

  const Plain := SubmissionResult(true, false, None, "", "", None, "", 0)

  /** The answer to the caller says what the protocol's outcome says. */
  ghost predicate Tells(r: Result<SubmissionResult, SubmitError>, o: Outcome) {
    match o
    case Failed => r.Err? && r.error != ExecutionInProgress && r.error != RateLimited
    case Rejected =>
      && r.Ok? && !r.value.accepted && !r.value.alreadyAdvanced && r.value.failedTest.Some?
      && r.value.winner.None? && r.value.problemId == "" && r.value.problemIdx == 0
    case AlreadyAdvanced => r == Ok(SubmissionResult(true, true, None, "", "", None, "", 0))
    case Won(w) => r == Ok(SubmissionResult(true, false, None, "", "", Some(w), "", 0))
    case Next(i, slug) => r == Ok(SubmissionResult(true, false, None, "", "", None, slug, i))
  }

  /** A rejection names the first failing test of the problem and carries its output. */
  ghost predicate TellsFailure(r: Result<SubmissionResult, SubmitError>, problem: Option<ArtifactStore.Problem>,
      run: Executor) {
    r.Ok? && !r.value.accepted ==>
      && problem.Some? && r.value.failedTest.Some?
      && var tests, k := problem.value.tests, r.value.failedTest.value;
      && k < |tests|
      && (run(k, tests[k].input).failed
          || Output.CanonicalLines(run(k, tests[k].input).stdout) != Output.CanonicalLines(tests[k].expected))
      && (forall i | 0 <= i < k ::
            !run(i, tests[i].input).failed
            && Output.CanonicalLines(run(i, tests[i].input).stdout) == Output.CanonicalLines(tests[i].expected))
      && r.value.stdout == run(k, tests[k].input).stdout && r.value.stderr == run(k, tests[k].input).stderr
  }

  /** Why a player has no problem to submit to: the first of the reads that does not find what it looks for. */
  ghost predicate TellsRefusal(error: SubmitError, games: map<GameId, Game>, u: UserId, g: GameId) {
    && (error == GameError(GameNotFound) <==>
          g !in games || (games[g].status == Active && u in games[g].players
              && games[g].players[u] >= |games[g].problems|))
    && (error == GameError(GameNotInProgress) <==> g in games && games[g].status != Active)
    && (error == GameError(NotParticipant) <==> g in games && games[g].status == Active && u !in games[g].players)
    && (error == ProblemUnavailable <==>
          g in games && games[g].status == Active && u in games[g].players
              && games[g].players[u] < |games[g].problems|)
  }

  class SubmissionService {
    const execSvc: ExecutionServices.ExecutionService
    const gameSvc: GameServices.GameService
    const store: Uploaders.Store

    constructor (execSvc: ExecutionServices.ExecutionService, gameSvc: GameServices.GameService, store: Uploaders.Store)
      ensures this.execSvc == execSvc && this.gameSvc == gameSvc && this.store == store
    {
      this.execSvc, this.gameSvc, this.store := execSvc, gameSvc, store;
    }

    /** What the directory behind the player's problem holds, if it loads. */
    ghost function Current(u: UserId, g: GameId): Option<ArtifactStore.Problem>
      reads gameSvc, store
    {
      if !HasProblem(gameSvc.Db(), u, g) then None else
      var path := gameSvc.games[g].problems[gameSvc.games[g].players[u]].artifactPath;
      if path in store.disk then ArtifactStore.Load(path, store.disk[path]) else None
    }

    /** getCurrentProblemForSubmission: the version the game pinned at the player's index, whatever is current now. */
    method GetCurrentProblemForSubmission(g: GameId, u: UserId)
        returns (r: Result<(ArtifactStore.Problem, nat), SubmitError>)
      requires store.Valid()
      modifies store`cache
      ensures store.Valid()
      ensures r.Ok? <==> Current(u, g).Some?
      ensures r.Ok? ==>
                && g in gameSvc.games && gameSvc.games[g].status == Active && u in gameSvc.games[g].players
                && gameSvc.games[g].players[u] < |gameSvc.games[g].problems|
                && var pin := gameSvc.games[g].problems[gameSvc.games[g].players[u]];
                && pin.artifactPath in store.disk
                && r.value == (ArtifactStore.Load(pin.artifactPath, store.disk[pin.artifactPath]).value, pin.versionId)
      ensures r.Err? ==> TellsRefusal(r.error, gameSvc.games, u, g)
    {
      if g !in gameSvc.games {
        return Err(GameError(GameNotFound));
      }
      var game := gameSvc.games[g];
      if game.status != Active {
        return Err(GameError(GameNotInProgress));
      }
      if u !in game.players {
        return Err(GameError(NotParticipant));
      }
      var playerIdx := game.players[u];
      if playerIdx >= |game.problems| {
        return Err(GameError(GameNotFound));
      }
      var pin := game.problems[playerIdx];
      var problem := store.GetByPath(pin.artifactPath);
      if problem.None? {
        return Err(ProblemUnavailable);
      }
      r := Ok((problem.value, pin.versionId));
    }

    /** completeAcceptedSubmission does what the protocol's steps after saving come to, and tells the caller so. */
    method CompleteAcceptedSubmission(g: GameId, u: UserId) returns (r: Result<SubmissionResult, SubmitError>)
      modifies gameSvc`games
      ensures gameSvc.Db() == Settled(old(gameSvc.Db()), u, g).0 && Tells(r, Settled(old(gameSvc.Db()), u, g).1)
      ensures r.Ok? ==> r.value.accepted
    {
      var handled := gameSvc.HandleAcceptedSubmission(g, u);
      if handled.Err? {
        if handled.error == GameAlreadyFinished {
          return Ok(Plain.(alreadyAdvanced := true));
        }
        return Err(GameError(handled.error));
      }
      if handled.value.1 {
        return Ok(Plain.(winner := handled.value.0.winner));
      }
      if g !in gameSvc.games || u !in gameSvc.games[g].players {
        return Err(GameError(NotParticipant));
      }
      var playerIdx := gameSvc.games[g].players[u];
      if playerIdx >= |gameSvc.games[g].problems| {
        return Err(GameError(GameNotFound));
      }
      r := Ok(Plain.(problemIdx := playerIdx, problemId := gameSvc.games[g].problems[playerIdx].slug));
    }

    /** Submit: refused exactly while the user's slot is held; always gives the slot back; otherwise does to the rows
        what the protocol's run of a submission does, with the tests passed judged on the pinned problem. */
    method Submit(g: GameId, u: UserId, run: Executor, saved: bool, now: RateLimit.Time,
        ghost before: RateLimit.Time)
      returns (r: Result<SubmissionResult, SubmitError>)
      requires gameSvc.Valid() && store.Valid() && execSvc.Valid(before) && before <= now
      modifies gameSvc`games, gameSvc`solutions, store`cache, execSvc
      ensures gameSvc.Valid() && store.Valid()
      ensures execSvc.Valid(if r == Err(ExecutionInProgress) then before else now)
      ensures Slots.HeldSet(execSvc.slots) == old(Slots.HeldSet(execSvc.slots))
      ensures r == Err(ExecutionInProgress) <==> SubmitKey(u) in old(Slots.HeldSet(execSvc.slots))
      ensures r == Err(ExecutionInProgress) ==> execSvc.limiters == old(execSvc.limiters)
      ensures r == Err(RateLimited) <==>
                SubmitKey(u) !in old(Slots.HeldSet(execSvc.slots))
                    && RateLimit.Available(execSvc.cfg, old(execSvc.limiters), u, now) < 1.0
      ensures r == Err(ExecutionInProgress) || r == Err(RateLimited) ==> gameSvc.Db() == old(gameSvc.Db())
      ensures !(r == Err(ExecutionInProgress) || r == Err(RateLimited)) ==>
                var problem := old(Current(u, g));
                var trial := if problem.None? then Unavailable
                    else Judged(AllPass(problem.value.tests, run), saved);
                var (db, outcome) := SubmitAlone(old(gameSvc.Db()), u, g, trial);
                gameSvc.Db() == db && Tells(r, outcome)
      ensures !(r == Err(ExecutionInProgress) || r == Err(RateLimited)) ==>
                if old(Current(u, g)).None? then r.Err? && TellsRefusal(r.error, old(gameSvc.games), u, g)
                else
                  var tests := old(Current(u, g)).value.tests;
                  r.Ok? && (r.value.accepted <==> forall i | 0 <= i < |tests| ::
                    !run(i, tests[i].input).failed && Output.CanonicalLines(run(i, tests[i].input).stdout)
                        == Output.CanonicalLines(tests[i].expected))
      ensures TellsFailure(r, old(Current(u, g)), run)
    {
      var acquired := execSvc.TryAcquireSlot(SubmitKey(u));
      if !acquired {
        return Err(ExecutionInProgress);
      }
      var allowed := execSvc.CheckRateLimit(u, now, before);
      if !allowed {
        var released := execSvc.ReleaseSlot(SubmitKey(u));
        assert released;
        return Err(RateLimited);
      }
      ghost var problem := Current(u, g);
      ghost var trial :=
        if problem.None? then Unavailable else Judged(AllPass(problem.value.tests, run), saved);
      SubmitKeepsReachable(gameSvc.Db(), u, g, trial);
      r := JudgeSubmission(g, u, run, saved);
      var released := execSvc.ReleaseSlot(SubmitKey(u));
      assert released;
    }

    /** The part of Submit between the rate check and the deferred release. */
    method JudgeSubmission(g: GameId, u: UserId, run: Executor, saved: bool)
      returns (r: Result<SubmissionResult, SubmitError>)
      requires store.Valid()
      modifies gameSvc`games, gameSvc`solutions, store`cache
      ensures store.Valid()
      ensures var problem := old(Current(u, g));
              var trial := if problem.None? then Unavailable
                  else Judged(AllPass(problem.value.tests, run), saved);
              var (db, outcome) := SubmitAlone(old(gameSvc.Db()), u, g, trial);
              gameSvc.Db() == db && Tells(r, outcome)
      ensures if old(Current(u, g)).None? then r.Err? && TellsRefusal(r.error, old(gameSvc.games), u, g)
              else r.Ok? && (r.value.accepted <==> AllPass(old(Current(u, g)).value.tests, run))
      ensures TellsFailure(r, old(Current(u, g)), run)
    {
      ghost var db := gameSvc.Db();
      var current := GetCurrentProblemForSubmission(g, u);
      if current.Err? {
        AloneEnds(db, u, g, Unavailable);
        return Err(current.error);
      }
      var v := ExecuteAgainstProblem(current.value.0.tests, run);
      AloneEnds(db, u, g, Judged(v.accepted, saved));
      if !v.accepted {
        return Ok(Plain.(accepted := false, failedTest := v.failedTest, stdout := v.stdout, stderr := v.stderr));
      }
      r := RecordAccepted(g, u, Solution(u, Some(g), current.value.0.slug, current.value.1), saved);
    }

    /** The end of Submit for a program that passed: save the solution, then move on. */
    method RecordAccepted(g: GameId, u: UserId, row: Solution, saved: bool)
        returns (r: Result<SubmissionResult, SubmitError>)
      modifies gameSvc`games, gameSvc`solutions
      ensures var (db, outcome) := Settled(if saved then InsertRow(old(gameSvc.Db()), row)
                else old(gameSvc.Db()), u, g);
              gameSvc.Db() == db && Tells(r, outcome)
      ensures r.Ok? ==> r.value.accepted
    {
      if saved {
        gameSvc.InsertSolution(row);
      }
      r := CompleteAcceptedSubmission(g, u);
    }
  }
}
