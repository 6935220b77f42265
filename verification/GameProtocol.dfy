/** Every interleaving of the game requests, as a transition system.
    Transactions that lock the game row are one step each. A creation is given its id and commits or rolls
    back later. A submission is split at every database statement, the index increment stands outside any
    transaction, and a timeout is a check and a later write. Requests that fail change nothing and are not
    events. */
module GameProtocol {
  import opened Common
  import opened Paths
  import opened GameTables
  import Slots

  type ReqId = nat

  datatype Outcome = Failed | Rejected | AlreadyAdvanced | Won(winner: UserId) | Next(idx: nat, slug: string)

  /** How far a submission has come; `idx` is the index it last read or wrote. */
  datatype Phase =
    | Started
    | SawActive
    | GotIndex(idx: nat)
    | GotProblem(idx: nat, pin: Pin)
    | Accepted(idx: nat, pin: Pin)
    | Saved(idx: nat, pin: Pin)
    | Advanced(idx: nat)
    | NonFinal(idx: nat)
    | ReadGame(idx: nat)
    | ReadBack(idx: nat)
    | Final(idx: nat)
    | Done(outcome: Outcome)

  datatype Sub = Sub(user: UserId, game: GameId, phase: Phase)

  datatype State = State(db: Tables, slots: Slots.Table, subs: map<ReqId, Sub>, timeouts: map<ReqId, GameId>)

  const Init := State(Tables(map[], 0, {}, []), map[], map[], map[])

  datatype Event =
    | Reserve
    | Create(g: GameId, creator: UserId, solo: bool, pins: seq<Pin>)
    | Rollback(g: GameId)
    | Join(g: GameId, u: UserId)
    | Leave(g: GameId, u: UserId)
    | Start(g: GameId, u: UserId)
    | Cancel(g: GameId, u: UserId)
    | Complete(g: GameId, winner: UserId)
    | Delete(g: GameId)
    | TimeoutCheck(t: ReqId, g: GameId, u: UserId)
    | TimeoutApply(t: ReqId)
    | TimeoutDrop(t: ReqId)
    | Submit(r: ReqId, u: UserId, g: GameId)
    | Progress(r: ReqId)
    | Judge(r: ReqId, accepted: bool)
    | Save(r: ReqId, ok: bool)
    | Abort(r: ReqId)
    | Release(r: ReqId)
    | Evict(u: UserId, hasLimiter: bool)

  function SubmitKey(u: UserId): Slots.Key {
    Slots.Key(u, Slots.Submit)
  }

  /** What the catalog guarantees of a pinned version: its path starts with its slug. */
  predicate PinOk(pin: Pin) {
    SlugOf(pin.artifactPath) == pin.slug
  }

  predicate CanProgress(p: Phase) {
    !p.GotProblem? && !p.Accepted? && !p.Done?
  }

  /** The next statement of a submission, when it neither runs tests nor saves a solution: the phase it leads to. */
  function NextPhase(db: Tables, sub: Sub): Phase
    requires CanProgress(sub.phase)
  {
    var g, u := sub.game, sub.user;
    match sub.phase
    case Started => if g in db.games && db.games[g].status == Active then SawActive else Done(Failed)
    case SawActive => if g in db.games && u in db.games[g].players then GotIndex(db.games[g].players[u])
        else Done(Failed)
    case GotIndex(i) => if g in db.games && i < |db.games[g].problems| then GotProblem(i, db.games[g].problems[i])
        else Done(Failed)
    case Saved(_, _) => (match AdvanceRow(db, g, u) case Ok((_, next)) => Advanced(next) case Err(_) => Done(Failed))
    case Advanced(k) =>
      var total := CountGameProblems(db, g);
      if total == 0 || k < total then NonFinal(k) else Final(k)
    case NonFinal(k) => if g in db.games then ReadGame(k) else Done(Failed)
    case ReadGame(_) => if g in db.games && u in db.games[g].players then ReadBack(db.games[g].players[u])
        else Done(Failed)
    case ReadBack(k) => if g in db.games && k < |db.games[g].problems| then Done(Next(k, db.games[g].problems[k].slug))
        else Done(Failed)
    case Final(_) => (match FinishTx(db, g, u)
                      case Ok(db') => Done(Won(if db.games[g].solo then db.games[g].creator else u))
                      case Err(GameAlreadyFinished) => Done(AlreadyAdvanced)
                      case Err(_) => Done(Failed))
  }

  /** The rows after that statement: only the increment and the finishing transaction write. */
  function NextDb(db: Tables, sub: Sub): Tables {
    match sub.phase
    case Saved(_, _) => (match AdvanceRow(db, sub.game, sub.user) case Ok((db', _)) => db' case Err(_) => db)
    case Final(_) => (match FinishTx(db, sub.game, sub.user) case Ok(db') => db' case Err(_) => db)
    case _ => db
  }

  predicate Enabled(s: State, e: Event) {
    match e
    case Reserve => true
    case Create(g, _, _, pins) => g in s.db.reserved && 1 <= |pins| <= MAX_GAME_PROBLEMS
        && (forall i | 0 <= i < |pins| :: PinOk(pins[i]))
    case Rollback(g) => g in s.db.reserved
    case Join(g, u) => JoinTx(s.db, g, u).Ok?
    case Leave(g, u) => LeaveTx(s.db, g, u).Ok?
    case Start(g, u) => StartTx(s.db, g, u).Ok?
    case Cancel(g, u) => CancelTx(s.db, g, u).Ok?
    case Complete(g, winner) => CompleteTx(s.db, g, winner).Ok?
    case Delete(g) => g in s.db.games
    case TimeoutCheck(t, g, u) => t !in s.timeouts && TimeoutRead(s.db, g, u).Ok?
    case TimeoutApply(t) => t in s.timeouts
    case TimeoutDrop(t) => t in s.timeouts
    case Submit(r, u, _) => r !in s.subs && Slots.TryAcquire(s.slots, SubmitKey(u)).1
    case Progress(r) => r in s.subs && CanProgress(s.subs[r].phase)
    case Judge(r, _) => r in s.subs && s.subs[r].phase.GotProblem?
    case Save(r, ok) => r in s.subs && s.subs[r].phase.Accepted? && (ok ==> s.subs[r].game in s.db.games)
    case Abort(r) => r in s.subs && !s.subs[r].phase.Done?
    case Release(r) => r in s.subs && s.subs[r].phase.Done?
        && Slots.Release(s.slots, SubmitKey(s.subs[r].user)).Released?
    case Evict(_, _) => true
  }

  function SetPhase(s: State, r: ReqId, p: Phase): State
    requires r in s.subs
  {
    s.(subs := s.subs[r := s.subs[r].(phase := p)])
  }

  function Step(s: State, e: Event): State
    requires Enabled(s, e)
  {
    match e
    case Reserve => s.(db := s.db.(nextId := s.db.nextId + 1, reserved := s.db.reserved + {s.db.nextId}))
    case Create(g, creator, solo, pins) =>
      s.(db := PutGame(s.db, g, NewGame(creator, solo, pins)).(reserved := s.db.reserved - {g}))
    case Rollback(g) => s.(db := s.db.(reserved := s.db.reserved - {g}))
    case Join(g, u) => s.(db := JoinTx(s.db, g, u).value)
    case Leave(g, u) => s.(db := LeaveTx(s.db, g, u).value)
    case Start(g, u) => s.(db := StartTx(s.db, g, u).value)
    case Cancel(g, u) => s.(db := CancelTx(s.db, g, u).value)
    case Complete(g, winner) => s.(db := CompleteTx(s.db, g, winner).value)
    case Delete(g) => s.(db := DeleteRows(s.db, g))
    case TimeoutCheck(t, g, _) => s.(timeouts := s.timeouts[t := g])
    case TimeoutApply(t) => s.(db := TimeoutWrite(s.db, s.timeouts[t]), timeouts := s.timeouts - {t})
    case TimeoutDrop(t) => s.(timeouts := s.timeouts - {t})
    case Submit(r, u, g) =>
      s.(slots := Slots.TryAcquire(s.slots, SubmitKey(u)).0, subs := s.subs[r := Sub(u, g, Started)])
    case Progress(r) => SetPhase(s, r, NextPhase(s.db, s.subs[r])).(db := NextDb(s.db, s.subs[r]))
    case Judge(r, accepted) =>
      var p := s.subs[r].phase;
      SetPhase(s, r, if accepted then Accepted(p.idx, p.pin) else Done(Rejected))
    case Save(r, ok) =>
      var sub := s.subs[r];
      var s' := SetPhase(s, r, Saved(sub.phase.idx, sub.phase.pin));
      if ok then s'.(db := InsertRow(s.db, SolutionFor(sub.user, sub.game, sub.phase.pin))) else s'
    case Abort(r) => SetPhase(s, r, Done(Failed))
    case Release(r) => s.(slots := Slots.Release(s.slots, SubmitKey(s.subs[r].user)).table, subs := s.subs - {r})
    case Evict(u, hasLimiter) => s.(slots := Slots.Evict(s.slots, SubmitKey(u), hasLimiter))
  }

  predicate ValidRun(s: State, es: seq<Event>)
    decreases |es|
  {
    es == [] || (Enabled(s, es[0]) && ValidRun(Step(s, es[0]), es[1..]))
  }

  function Exec(s: State, es: seq<Event>): State
    requires ValidRun(s, es)
    decreases |es|
  {
    if es == [] then s else Exec(Step(s, es[0]), es[1..])
  }
}
