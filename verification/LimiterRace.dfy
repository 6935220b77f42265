/** The token buckets at the grain of their map and limiter operations (internal/service/execution_service.go:55-61,
    73-78, 109-112). A rate check loads or stores the user's limiter and then asks it; the cleanup sees a full limiter
    and later deletes its user. Anything may happen in between, and time may pass. */
module LimiterRace {
  import opened Common
  import RateLimit

  type ReqId = nat
  type Time = RateLimit.Time
  type Config = RateLimit.Config

  datatype Loaded = Loaded(user: UserId, lim: nat)

  /** A limiter that left the map still exists for whoever loaded it. `pending` are the checks between load and Allow,
      `seen` the users whose limiter the cleanup has seen full and not yet deleted. */
  datatype State = State(
    now: Time,
    lims: seq<RateLimit.Limiter>,
    table: map<UserId, nat>,
    pending: map<ReqId, Loaded>,
    seen: set<UserId>)

  function Init(now: Time): State {
    State(now, [], map[], map[], {})
  }

  datatype Event =
    | Tick(at: Time)
    | Load(req: ReqId, user: UserId)
    | Allow(req: ReqId)
    | See(user: UserId)
    | Delete(user: UserId)

  predicate FullAt(cfg: Config, s: State, u: UserId) {
    u in s.table && s.table[u] < |s.lims| ==> RateLimit.Tokens(cfg, s.lims[s.table[u]], s.now) >= cfg.burst as real
  }

  predicate Enabled(cfg: Config, s: State, e: Event) {
    match e
    case Tick(at) => s.now <= at
    case Load(r, _) => r !in s.pending
    case Allow(r) => r in s.pending && s.pending[r].lim < |s.lims|
    case See(u) => u in s.table && s.table[u] < |s.lims| && FullAt(cfg, s, u)
    case Delete(u) => u in s.seen
  }

  /** The store half of LoadOrStore: a full limiter for a user that has none. */
  function Store(cfg: Config, s: State, u: UserId): State {
    if u in s.table then s
    else s.(lims := s.lims + [RateLimit.Full(cfg, s.now)], table := s.table[u := |s.lims|])
  }

  function Step(cfg: Config, s: State, e: Event): State
    requires Enabled(cfg, s, e)
  {
    match e
    case Tick(at) => s.(now := at)
    case Load(r, u) =>
      var s' := Store(cfg, s, u);
      s'.(pending := s.pending[r := Loaded(u, s'.table[u])])
    case Allow(r) =>
      var i := s.pending[r].lim;
      s.(lims := s.lims[i := RateLimit.Allow(cfg, s.lims[i], s.now).0], pending := s.pending - {r})
    case See(u) => s.(seen := s.seen + {u})
    case Delete(u) => s.(table := s.table - {u}, seen := s.seen - {u})
  }

  predicate ValidRun(cfg: Config, s: State, es: seq<Event>)
    decreases |es|
  {
    es == [] || (Enabled(cfg, s, es[0]) && ValidRun(cfg, Step(cfg, s, es[0]), es[1..]))
  }

  function Exec(cfg: Config, s: State, es: seq<Event>): State
    requires ValidRun(cfg, s, es)
    decreases |es|
  {
    if es == [] then s else Exec(cfg, Step(cfg, s, es[0]), es[1..])
  }

  /** The verdict of an Allow. */
  function Verdict(cfg: Config, s: State, r: ReqId): bool
    requires Enabled(cfg, s, Allow(r))
  {
    RateLimit.Allow(cfg, s.lims[s.pending[r].lim], s.now).1
  }

  /** The verdicts of a run, in order. */
  function Verdicts(cfg: Config, s: State, es: seq<Event>): seq<bool>
    requires ValidRun(cfg, s, es)
    decreases |es|
  {
    if es == [] then [] else
    (if es[0].Allow? then [Verdict(cfg, s, es[0].req)] else []) + Verdicts(cfg, Step(cfg, s, es[0]), es[1..])
  }

  /** The requests of a run as a service without this grain sees them: each at the moment it is decided. */
  function Trace(cfg: Config, s: State, es: seq<Event>): seq<RateLimit.Event>
    requires ValidRun(cfg, s, es)
    decreases |es|
  {
    if es == [] then [] else
    (if es[0].Allow? then [RateLimit.Request(s.pending[es[0].req].user, s.now)] else [])
    + Trace(cfg, Step(cfg, s, es[0]), es[1..])
  }

  /** The executions of u allowed in [from, to]. */
  function AllowedIn(cfg: Config, s: State, es: seq<Event>, u: UserId, from: Time, to: Time): nat
    requires ValidRun(cfg, s, es)
    decreases |es|
  {
    if es == [] then 0 else
    (if es[0].Allow? && Verdict(cfg, s, es[0].req) && s.pending[es[0].req].user == u && from <= s.now <= to
     then 1 else 0)
    + AllowedIn(cfg, Step(cfg, s, es[0]), es[1..], u, from, to)
  }

  /** The run's verdicts are those of a service that never evicts, started with the limiters `ref`. */
  ghost predicate AsIfKept(cfg: Config, s: State, ref: RateLimit.Limiters, es: seq<Event>)
    requires ValidRun(cfg, s, es)
  {
    Verdicts(cfg, s, es) == RateLimit.KeepAllVerdicts(cfg, ref, Trace(cfg, s, es))
  }

  // Quiet deletes

  ghost predicate PendingOn(s: State, u: UserId) {
    exists r :: r in s.pending && s.pending[r].user == u
  }

  /** A delete finds the limiter full, still, and no check of the user between load and Allow. */
  ghost predicate Quiet(cfg: Config, s: State, e: Event) {
    e.Delete? ==> FullAt(cfg, s, e.user) && !PendingOn(s, e.user)
  }

  ghost predicate QuietRun(cfg: Config, s: State, es: seq<Event>)
    requires ValidRun(cfg, s, es)
    decreases |es|
  {
    es == [] || (Quiet(cfg, s, es[0]) && QuietRun(cfg, Step(cfg, s, es[0]), es[1..]))
  }

  /** The limiters in the map. */
  function View(s: State): RateLimit.Limiters {
    map u | u in s.table && s.table[u] < |s.lims| :: s.lims[s.table[u]]
  }

  ghost predicate Indexed(s: State) {
    && (forall u | u in s.table :: s.table[u] < |s.lims|)
    && (forall u, v | u in s.table && v in s.table && s.table[u] == s.table[v] :: u == v)
  }

  ghost predicate TableOk(s: State) {
    && Indexed(s)
    && (forall r | r in s.pending :: s.pending[r].user in s.table && s.table[s.pending[r].user] == s.pending[r].lim)
  }

  /** No request from now on can tell the limiters in the map from `ref`. */
  ghost predicate Sync(cfg: Config, s: State, ref: RateLimit.Limiters) {
    && TableOk(s) && RateLimit.LimitersOk(cfg, View(s), s.now) && RateLimit.LimitersOk(cfg, ref, s.now)
    && RateLimit.Alike(cfg, View(s), ref, s.now)
  }

  function RefStep(cfg: Config, s: State, ref: RateLimit.Limiters, e: Event): RateLimit.Limiters
    requires Enabled(cfg, s, e)
  {
    if e.Allow? then RateLimit.Check(cfg, ref, s.pending[e.req].user, s.now).0 else ref
  }

  lemma StepTable(cfg: Config, s: State, e: Event)
    requires TableOk(s) && Enabled(cfg, s, e) && Quiet(cfg, s, e)
    ensures TableOk(Step(cfg, s, e))
  {
  }

  lemma StoreUnseen(cfg: Config, s: State, u: UserId)
    requires RateLimit.ConfigOk(cfg) && TableOk(s) && RateLimit.LimitersOk(cfg, View(s), s.now)
    ensures RateLimit.LimitersOk(cfg, View(Store(cfg, s, u)), s.now)
    ensures RateLimit.Alike(cfg, View(Store(cfg, s, u)), View(s), s.now)
  {
    if u !in s.table {
      var s' := Store(cfg, s, u);
      assert View(s') == View(s)[u := RateLimit.Full(cfg, s.now)];
      forall v: UserId, t: Time | t >= s.now
        ensures RateLimit.Available(cfg, View(s'), v, t) == RateLimit.Available(cfg, View(s), v, t)
      {
        RateLimit.AccruedMonotone(cfg, s.now, t);
      }
    }
  }

  /** An Allow on a limiter in the map is a check by the service without this grain. */
  lemma AllowIsCheck(cfg: Config, s: State, r: ReqId)
    requires Indexed(s) && Enabled(cfg, s, Allow(r))
    requires s.pending[r].user in s.table && s.table[s.pending[r].user] == s.pending[r].lim
    ensures Indexed(Step(cfg, s, Allow(r)))
    ensures (View(Step(cfg, s, Allow(r))), Verdict(cfg, s, r)) ==
              RateLimit.Check(cfg, View(s), s.pending[r].user, s.now)
  {
    var u := s.pending[r].user;
    var s' := Step(cfg, s, Allow(r));
    var l := RateLimit.Allow(cfg, s.lims[s.pending[r].lim], s.now).0;
    assert View(s') == View(s)[u := l];
  }

  lemma DeleteIsEvict(cfg: Config, s: State, u: UserId)
    requires TableOk(s) && Enabled(cfg, s, Delete(u)) && FullAt(cfg, s, u)
    ensures View(Step(cfg, s, Delete(u))) == RateLimit.Evict(cfg, View(s), u, s.now)
  {
  }

  lemma AllowSync(cfg: Config, s: State, ref: RateLimit.Limiters, r: ReqId)
    requires RateLimit.ConfigOk(cfg) && Sync(cfg, s, ref) && Enabled(cfg, s, Allow(r))
    ensures var u, s' := s.pending[r].user, Step(cfg, s, Allow(r));
            && Verdict(cfg, s, r) == RateLimit.Check(cfg, ref, u, s.now).1
            && RateLimit.LimitersOk(cfg, View(s'), s.now)
            && RateLimit.LimitersOk(cfg, RateLimit.Check(cfg, ref, u, s.now).0, s.now)
            && RateLimit.Alike(cfg, View(s'), RateLimit.Check(cfg, ref, u, s.now).0, s.now)
  {
    var u := s.pending[r].user;
    AllowIsCheck(cfg, s, r);
    RateLimit.RequestAlike(cfg, View(s), ref, u, s.now, s.now);
    RateLimit.StepKeepsOk(cfg, View(s), RateLimit.Request(u, s.now), s.now);
    RateLimit.StepKeepsOk(cfg, ref, RateLimit.Request(u, s.now), s.now);
  }

  lemma DeleteSync(cfg: Config, s: State, ref: RateLimit.Limiters, u: UserId)
    requires RateLimit.ConfigOk(cfg) && Sync(cfg, s, ref) && Enabled(cfg, s, Delete(u)) && FullAt(cfg, s, u)
    ensures var s' := Step(cfg, s, Delete(u));
            RateLimit.LimitersOk(cfg, View(s'), s.now) && RateLimit.Alike(cfg, View(s'), ref, s.now)
  {
    DeleteIsEvict(cfg, s, u);
    RateLimit.EvictAlike(cfg, View(s), u, s.now, s.now);
    var s' := Step(cfg, s, Delete(u));
    forall v: UserId, t: Time | t >= s.now
      ensures RateLimit.Available(cfg, View(s'), v, t) == RateLimit.Available(cfg, ref, v, t)
    {
      assert RateLimit.Available(cfg, View(s'), v, t) == RateLimit.Available(cfg, View(s), v, t);
    }
  }

  lemma LoadSync(cfg: Config, s: State, ref: RateLimit.Limiters, r: ReqId, u: UserId)
    requires RateLimit.ConfigOk(cfg) && Sync(cfg, s, ref) && Enabled(cfg, s, Load(r, u))
    ensures var s' := Step(cfg, s, Load(r, u));
            RateLimit.LimitersOk(cfg, View(s'), s.now) && RateLimit.Alike(cfg, View(s'), ref, s.now)
  {
    StoreUnseen(cfg, s, u);
    var s' := Step(cfg, s, Load(r, u));
    assert View(s') == View(Store(cfg, s, u));
    forall v: UserId, t: Time | t >= s.now
      ensures RateLimit.Available(cfg, View(s'), v, t) == RateLimit.Available(cfg, ref, v, t)
    {
      assert RateLimit.Available(cfg, View(s'), v, t) == RateLimit.Available(cfg, View(s), v, t);
    }
  }

  lemma TickSync(cfg: Config, s: State, ref: RateLimit.Limiters, at: Time)
    requires Sync(cfg, s, ref) && s.now <= at
    ensures Sync(cfg, s.(now := at), ref)
  {
    assert View(s.(now := at)) == View(s);
  }

  lemma StepSync(cfg: Config, s: State, ref: RateLimit.Limiters, e: Event)
    requires RateLimit.ConfigOk(cfg) && Sync(cfg, s, ref) && Enabled(cfg, s, e) && Quiet(cfg, s, e)
    ensures Sync(cfg, Step(cfg, s, e), RefStep(cfg, s, ref, e))
  {
    StepTable(cfg, s, e);
    match e
    case Tick(at) => TickSync(cfg, s, ref, at);
    case Load(r, u) => LoadSync(cfg, s, ref, r, u);
    case Allow(r) => AllowSync(cfg, s, ref, r);
    case Delete(u) => DeleteSync(cfg, s, ref, u);
    case See(u) => assert View(Step(cfg, s, e)) == View(s);
  }

  /** Verdicts, window counts and order of a quiet run are those of its trace. */
  lemma {:induction false} QuietRunSync(cfg: Config, s: State, ref: RateLimit.Limiters, es: seq<Event>, u: UserId,
      from: Time, to: Time)
    requires RateLimit.ConfigOk(cfg) && Sync(cfg, s, ref) && ValidRun(cfg, s, es) && QuietRun(cfg, s, es)
    ensures AsIfKept(cfg, s, ref, es)
    ensures RateLimit.InOrder(Trace(cfg, s, es), s.now)
    ensures AllowedIn(cfg, s, es, u, from, to) == RateLimit.AllowedIn(cfg, ref, Trace(cfg, s, es), u, from, to)
    decreases |es|
  {
    if es != [] {
      var s', ref' := Step(cfg, s, es[0]), RefStep(cfg, s, ref, es[0]);
      StepSync(cfg, s, ref, es[0]);
      QuietRunSync(cfg, s', ref', es[1..], u, from, to);
      var rest := Trace(cfg, s', es[1..]);
      Unroll(cfg, s, es, u, from, to);
      if es[0].Allow? {
        AllowSync(cfg, s, ref, es[0].req);
        RequestFirst(cfg, ref, s.pending[es[0].req].user, s.now, rest, u, from, to);
      } else {
        InOrderEarlier(rest, s'.now, s.now);
      }
    }
  }

  lemma Unroll(cfg: Config, s: State, es: seq<Event>, u: UserId, from: Time, to: Time)
    requires es != [] && ValidRun(cfg, s, es)
    ensures var s', rest := Step(cfg, s, es[0]), es[1..];
            if es[0].Allow? then
              var v, ok := s.pending[es[0].req].user, Verdict(cfg, s, es[0].req);
              && Trace(cfg, s, es) == [RateLimit.Request(v, s.now)] + Trace(cfg, s', rest)
              && Verdicts(cfg, s, es) == [ok] + Verdicts(cfg, s', rest)
              && AllowedIn(cfg, s, es, u, from, to)
                 == (if ok && v == u && from <= s.now <= to then 1 else 0) + AllowedIn(cfg, s', rest, u, from, to)
            else
              && Trace(cfg, s, es) == Trace(cfg, s', rest) && Verdicts(cfg, s, es) == Verdicts(cfg, s', rest)
              && AllowedIn(cfg, s, es, u, from, to) == AllowedIn(cfg, s', rest, u, from, to)
  {
    if !es[0].Allow? {
      assert [] + Trace(cfg, Step(cfg, s, es[0]), es[1..]) == Trace(cfg, Step(cfg, s, es[0]), es[1..]);
      assert [] + Verdicts(cfg, Step(cfg, s, es[0]), es[1..]) == Verdicts(cfg, Step(cfg, s, es[0]), es[1..]);
    }
  }

  /** A request in front of a trace. */
  lemma RequestFirst(cfg: Config, ref: RateLimit.Limiters, v: UserId, now: Time, rest: seq<RateLimit.Event>, u: UserId,
      from: Time, to: Time)
    requires RateLimit.InOrder(rest, now)
    ensures var all, ref' := [RateLimit.Request(v, now)] + rest, RateLimit.Check(cfg, ref, v, now).0;
            && RateLimit.InOrder(all, now)
            && RateLimit.KeepAllVerdicts(cfg, ref, all)
               == [RateLimit.Check(cfg, ref, v, now).1] + RateLimit.KeepAllVerdicts(cfg, ref', rest)
            && RateLimit.AllowedIn(cfg, ref, all, u, from, to)
               == (if RateLimit.Check(cfg, ref, v, now).1 && v == u && from <= now <= to then 1 else 0)
                  + RateLimit.AllowedIn(cfg, ref', rest, u, from, to)
  {
    assert ([RateLimit.Request(v, now)] + rest)[1..] == rest;
  }

  lemma InOrderEarlier(es: seq<RateLimit.Event>, now: Time, before: Time)
    requires RateLimit.InOrder(es, now) && before <= now
    ensures RateLimit.InOrder(es, before)
  {
  }

  lemma StartsSynced(cfg: Config, start: Time)
    ensures Sync(cfg, Init(start), map[])
  {
    assert View(Init(start)) == map[];
  }

  /** In every run whose deletes are quiet each check gets the verdict of a service that never evicts. */
  lemma QuietEvictionUnobservable(cfg: Config, start: Time, es: seq<Event>)
    requires RateLimit.ConfigOk(cfg) && ValidRun(cfg, Init(start), es) && QuietRun(cfg, Init(start), es)
    ensures AsIfKept(cfg, Init(start), map[], es)
  {
    StartsSynced(cfg, start);
    QuietRunSync(cfg, Init(start), map[], es, 0, 0.0, 0.0);
  }

  /** And the executions allowed to a user in any window are at most burst + rate * length. */
  lemma QuietWindowBound(cfg: Config, start: Time, es: seq<Event>, u: UserId, from: Time, to: Time)
    requires RateLimit.ConfigOk(cfg) && ValidRun(cfg, Init(start), es) && QuietRun(cfg, Init(start), es) && from <= to
    ensures AllowedIn(cfg, Init(start), es, u, from, to) as real <= cfg.burst as real + cfg.rate * (to - from)
  {
    StartsSynced(cfg, start);
    QuietRunSync(cfg, Init(start), map[], es, u, from, to);
    RateLimit.WindowBound(cfg, Trace(cfg, Init(start), es), u, start, from, to);
  }

  /** A quiet run leaves limiters that no request can tell from those its trace leaves. */
  lemma {:induction false} QuietRunEnds(cfg: Config, s: State, ref: RateLimit.Limiters, es: seq<Event>)
    requires RateLimit.ConfigOk(cfg) && Sync(cfg, s, ref) && ValidRun(cfg, s, es) && QuietRun(cfg, s, es)
    ensures Sync(cfg, Exec(cfg, s, es), RateLimit.Exec(cfg, ref, Trace(cfg, s, es)))
    ensures RateLimit.EndTime(Trace(cfg, s, es), s.now) <= Exec(cfg, s, es).now
    decreases |es|
  {
    if es != [] {
      var s', ref' := Step(cfg, s, es[0]), RefStep(cfg, s, ref, es[0]);
      StepSync(cfg, s, ref, es[0]);
      QuietRunEnds(cfg, s', ref', es[1..]);
      Unroll(cfg, s, es, 0, 0.0, 0.0);
      var rest := Trace(cfg, s', es[1..]);
      if es[0].Allow? {
        assert Trace(cfg, s, es)[1..] == rest;
      }
    }
  }

  /** Its windows hold what those of its trace hold. */
  lemma QuietCounts(cfg: Config, start: Time, es: seq<Event>, u: UserId, to: Time)
    requires RateLimit.ConfigOk(cfg) && ValidRun(cfg, Init(start), es) && QuietRun(cfg, Init(start), es)
    ensures RateLimit.InOrder(Trace(cfg, Init(start), es), start)
    ensures forall from: Time :: AllowedIn(cfg, Init(start), es, u, from, to)
              == RateLimit.AllowedIn(cfg, map[], Trace(cfg, Init(start), es), u, from, to)
  {
    StartsSynced(cfg, start);
    forall from: Time
      ensures AllowedIn(cfg, Init(start), es, u, from, to)
              == RateLimit.AllowedIn(cfg, map[], Trace(cfg, Init(start), es), u, from, to)
    {
      QuietRunSync(cfg, Init(start), map[], es, u, from, to);
    }
    QuietRunSync(cfg, Init(start), map[], es, u, to, to);
  }

  lemma QuietVerdict(cfg: Config, start: Time, es: seq<Event>, r: ReqId)
    requires RateLimit.ConfigOk(cfg) && ValidRun(cfg, Init(start), es) && QuietRun(cfg, Init(start), es)
    requires Enabled(cfg, Exec(cfg, Init(start), es), Allow(r))
    ensures var s, trace := Exec(cfg, Init(start), es), Trace(cfg, Init(start), es);
            && RateLimit.EndTime(trace, start) <= s.now
            && Verdict(cfg, s, r) == RateLimit.Check(cfg, RateLimit.Exec(cfg, map[], trace), s.pending[r].user, s.now).1
  {
    StartsSynced(cfg, start);
    QuietRunEnds(cfg, Init(start), map[], es);
    var s, trace := Exec(cfg, Init(start), es), Trace(cfg, Init(start), es);
    AllowSync(cfg, s, RateLimit.Exec(cfg, map[], trace), r);
  }

  /** And a check is allowed if and only if no window that ends with it would then hold more than
      burst + rate * length executions of its user. */
  lemma QuietAllowedExactly(cfg: Config, start: Time, es: seq<Event>, r: ReqId)
    requires RateLimit.ConfigOk(cfg) && ValidRun(cfg, Init(start), es) && QuietRun(cfg, Init(start), es)
    requires Enabled(cfg, Exec(cfg, Init(start), es), Allow(r))
    ensures var s := Exec(cfg, Init(start), es);
            var u := s.pending[r].user;
            Verdict(cfg, s, r) <==> forall from: Time | from <= s.now ::
              RateLimit.Fits(cfg, AllowedIn(cfg, Init(start), es, u, from, s.now), from, s.now)
  {
    var s, trace := Exec(cfg, Init(start), es), Trace(cfg, Init(start), es);
    var u := s.pending[r].user;
    QuietCounts(cfg, start, es, u, s.now);
    QuietVerdict(cfg, start, es, r);
    RateLimit.AllowedExactly(cfg, trace, u, start, s.now);
    if Verdict(cfg, s, r) {
      forall from: Time | from <= s.now
        ensures RateLimit.Fits(cfg, AllowedIn(cfg, Init(start), es, u, from, s.now), from, s.now)
      {
        assert RateLimit.Fits(cfg, RateLimit.AllowedIn(cfg, map[], trace, u, from, s.now), from, s.now);
      }
    } else {
      var from: Time :| from <= s.now
          && !RateLimit.Fits(cfg, RateLimit.AllowedIn(cfg, map[], trace, u, from, s.now), from, s.now);
      assert !RateLimit.Fits(cfg, AllowedIn(cfg, Init(start), es, u, from, s.now), from, s.now);
    }
  }

  // Deletes that are not quiet

  /** One check of u from load to Allow. */
  function Check(q: ReqId, u: UserId): seq<Event> {
    [Load(q, u), Allow(q)]
  }

  /** What u would find in the map. */
  function Available(cfg: Config, s: State, u: UserId): real {
    RateLimit.Available(cfg, View(s), u, s.now)
  }

  lemma StoreAvailable(cfg: Config, s: State, u: UserId)
    requires Indexed(s)
    ensures Indexed(Store(cfg, s, u)) && Available(cfg, Store(cfg, s, u), u) == Available(cfg, s, u)
  {
    RateLimit.TokensNow(cfg, RateLimit.Full(cfg, s.now));
  }

  /** A check costs a token of the limiter in the map exactly if one is there. */
  lemma CheckCosts(cfg: Config, s: State, q: ReqId, u: UserId)
    requires Indexed(s) && q !in s.pending && Available(cfg, s, u) <= cfg.burst as real
    ensures ValidRun(cfg, s, Check(q, u))
    ensures var s1 := Step(cfg, s, Load(q, u));
            var s2 := Exec(cfg, s, Check(q, u));
            && Enabled(cfg, s1, Allow(q)) && s1.now == s.now && s1.pending[q].user == u && s2 == Step(cfg, s1, Allow(q))
            && Verdict(cfg, s1, q) == (Available(cfg, s, u) >= 1.0)
            && Indexed(s2) && s2.pending == s.pending && s2.now == s.now
            && Available(cfg, s2, u) == Available(cfg, s, u) - (if Available(cfg, s, u) >= 1.0 then 1.0 else 0.0)
  {
    var s1 := Step(cfg, s, Load(q, u));
    LoadAvailable(cfg, s, q, u);
    AllowCosts(cfg, s1, q);
    TwoEvents(cfg, s, Load(q, u), Allow(q));
    assert Step(cfg, s1, Allow(q)).pending == s.pending;
  }

  lemma LoadAvailable(cfg: Config, s: State, q: ReqId, u: UserId)
    requires Indexed(s) && q !in s.pending
    ensures var s1 := Step(cfg, s, Load(q, u));
            && Indexed(s1) && Available(cfg, s1, u) == Available(cfg, s, u) && s1.now == s.now
            && s1.pending == s.pending[q := Loaded(u, s1.table[u])]
  {
    StoreAvailable(cfg, s, u);
    assert View(Step(cfg, s, Load(q, u))) == View(Store(cfg, s, u));
  }

  lemma AllowCosts(cfg: Config, s: State, q: ReqId)
    requires Indexed(s) && Enabled(cfg, s, Allow(q))
    requires s.pending[q].user in s.table && s.table[s.pending[q].user] == s.pending[q].lim
    requires Available(cfg, s, s.pending[q].user) <= cfg.burst as real
    ensures var u, s' := s.pending[q].user, Step(cfg, s, Allow(q));
            && Indexed(s') && Verdict(cfg, s, q) == (Available(cfg, s, u) >= 1.0)
            && Available(cfg, s', u) == Available(cfg, s, u) - (if Available(cfg, s, u) >= 1.0 then 1.0 else 0.0)
  {
    AllowIsCheck(cfg, s, q);
    RefCheck(cfg, View(s), s.pending[q].user, s.now);
  }

  lemma TwoEvents(cfg: Config, s: State, a: Event, b: Event)
    requires Enabled(cfg, s, a) && Enabled(cfg, Step(cfg, s, a), b)
    ensures ValidRun(cfg, s, [a, b]) && Exec(cfg, s, [a, b]) == Step(cfg, Step(cfg, s, a), b)
  {
    assert [a, b][1..] == [b] && [b][1..] == [];
    var s2 := Step(cfg, Step(cfg, s, a), b);
    assert ValidRun(cfg, s2, []) && Exec(cfg, s2, []) == s2;
    assert ValidRun(cfg, Step(cfg, s, a), [b]) && Exec(cfg, Step(cfg, s, a), [b]) == s2;
  }

  /** A check in front of a run. */
  lemma CheckFirst(cfg: Config, s: State, q: ReqId, u: UserId, es: seq<Event>, from: Time, to: Time)
    requires ValidRun(cfg, s, Check(q, u)) && ValidRun(cfg, Exec(cfg, s, Check(q, u)), es)
    requires q !in s.pending && Enabled(cfg, Step(cfg, s, Load(q, u)), Allow(q))
    requires Exec(cfg, s, Check(q, u)) == Step(cfg, Step(cfg, s, Load(q, u)), Allow(q))
    ensures var s1, s2 := Step(cfg, s, Load(q, u)), Exec(cfg, s, Check(q, u));
            && ValidRun(cfg, s, Check(q, u) + es)
            && Verdicts(cfg, s, Check(q, u) + es) == [Verdict(cfg, s1, q)] + Verdicts(cfg, s2, es)
            && Trace(cfg, s, Check(q, u) + es) == [RateLimit.Request(u, s.now)] + Trace(cfg, s2, es)
            && (QuietRun(cfg, s2, es) ==> QuietRun(cfg, s, Check(q, u) + es))
            && AllowedIn(cfg, s, Check(q, u) + es, u, from, to)
               == (if Verdict(cfg, s1, q) && from <= s.now <= to then 1 else 0) + AllowedIn(cfg, s2, es, u, from, to)
  {
    var all := Check(q, u) + es;
    assert all[0] == Load(q, u) && all[1..] == [Allow(q)] + es;
    assert ([Allow(q)] + es)[0] == Allow(q) && ([Allow(q)] + es)[1..] == es;
    var s1 := Step(cfg, s, Load(q, u));
    assert ValidRun(cfg, s1, [Allow(q)] + es);
  }

  /** Checks at one moment, one after the other: if the map has n tokens for u and the service that never evicts has
      fewer, the verdicts differ before n checks are over. */
  lemma {:induction false} FewerTokensShow(cfg: Config, s: State, ref: RateLimit.Limiters, q: ReqId, u: UserId, n: nat)
      returns (es: seq<Event>)
    requires Indexed(s) && q !in s.pending && Available(cfg, s, u) == n as real && n <= cfg.burst
    requires 0.0 <= RateLimit.Available(cfg, ref, u, s.now) < n as real
    ensures ValidRun(cfg, s, es) && QuietRun(cfg, s, es) && !AsIfKept(cfg, s, ref, es)
    decreases n
  {
    var y := RateLimit.Available(cfg, ref, u, s.now);
    CheckCosts(cfg, s, q, u);
    RefCheck(cfg, ref, u, s.now);
    var s2 := Exec(cfg, s, Check(q, u));
    var rest := [];
    if y >= 1.0 {
      rest := FewerTokensShow(cfg, s2, RateLimit.Check(cfg, ref, u, s.now).0, q, u, n - 1);
    }
    CheckFirst(cfg, s, q, u, rest, s.now, s.now);
    KeptAfterCheck(cfg, s, ref, q, u, rest);
    es := Check(q, u) + rest;
  }

  /** A check followed by more is decided as if nothing was evicted exactly if both are. */
  lemma KeptAfterCheck(cfg: Config, s: State, ref: RateLimit.Limiters, q: ReqId, u: UserId, rest: seq<Event>)
    requires ValidRun(cfg, s, Check(q, u)) && ValidRun(cfg, Exec(cfg, s, Check(q, u)), rest) && q !in s.pending
    requires Enabled(cfg, Step(cfg, s, Load(q, u)), Allow(q))
    requires Exec(cfg, s, Check(q, u)) == Step(cfg, Step(cfg, s, Load(q, u)), Allow(q))
    ensures ValidRun(cfg, s, Check(q, u) + rest)
    ensures AsIfKept(cfg, s, ref, Check(q, u) + rest) <==>
              && Verdict(cfg, Step(cfg, s, Load(q, u)), q) == RateLimit.Check(cfg, ref, u, s.now).1
              && AsIfKept(cfg, Exec(cfg, s, Check(q, u)), RateLimit.Check(cfg, ref, u, s.now).0, rest)
  {
    var s2 := Exec(cfg, s, Check(q, u));
    CheckFirst(cfg, s, q, u, rest, s.now, s.now);
    KeepAllFirst(cfg, ref, u, s.now, Trace(cfg, s2, rest));
    SameHeadAndTail(Verdict(cfg, Step(cfg, s, Load(q, u)), q), Verdicts(cfg, s2, rest),
        RateLimit.Check(cfg, ref, u, s.now).1,
                    RateLimit.KeepAllVerdicts(cfg, RateLimit.Check(cfg, ref, u, s.now).0, Trace(cfg, s2, rest)));
  }

  lemma SameHeadAndTail(a: bool, x: seq<bool>, b: bool, y: seq<bool>)
    ensures [a] + x == [b] + y <==> a == b && x == y
  {
    if [a] + x == [b] + y {
      assert ([a] + x)[0] == ([b] + y)[0] && ([a] + x)[1..] == ([b] + y)[1..];
    }
  }

  lemma RefCheck(cfg: Config, ref: RateLimit.Limiters, u: UserId, now: Time)
    requires RateLimit.Available(cfg, ref, u, now) <= cfg.burst as real
    ensures RateLimit.Check(cfg, ref, u, now).1 == (RateLimit.Available(cfg, ref, u, now) >= 1.0)
    ensures var y := RateLimit.Available(cfg, ref, u, now);
            RateLimit.Available(cfg, RateLimit.Check(cfg, ref, u, now).0, u, now) == y - (if y >= 1.0 then 1.0 else 0.0)
  {
    RateLimit.RequestCost(cfg, ref, u, now);
    RateLimit.TokensNow(cfg, RateLimit.Full(cfg, now));
  }

  lemma KeepAllFirst(cfg: Config, ref: RateLimit.Limiters, u: UserId, now: Time, rest: seq<RateLimit.Event>)
    ensures RateLimit.KeepAllVerdicts(cfg, ref, [RateLimit.Request(u, now)] + rest)
            == [RateLimit.Check(cfg, ref, u, now).1] + RateLimit.KeepAllVerdicts(cfg,
                RateLimit.Check(cfg, ref, u, now).0, rest)
  {
    assert ([RateLimit.Request(u, now)] + rest)[1..] == rest;
  }

  /** With n tokens in the map, n checks at one moment are all allowed. */
  lemma {:induction false} AllAllowed(cfg: Config, s: State, q: ReqId, u: UserId, n: nat) returns (es: seq<Event>)
    requires Indexed(s) && q !in s.pending && Available(cfg, s, u) == n as real && n <= cfg.burst
    ensures ValidRun(cfg, s, es) && QuietRun(cfg, s, es) && AllowedIn(cfg, s, es, u, s.now, s.now) == n
    decreases n
  {
    if n == 0 {
      es := [];
    } else {
      CheckCosts(cfg, s, q, u);
      var rest := AllAllowed(cfg, Exec(cfg, s, Check(q, u)), q, u, n - 1);
      CheckFirst(cfg, s, q, u, rest, s.now, s.now);
      es := Check(q, u) + rest;
    }
  }

  lemma DeleteIndexed(cfg: Config, s: State, u: UserId)
    requires TableOk(s) && Enabled(cfg, s, Delete(u))
    ensures var s1 := Step(cfg, s, Delete(u)); Indexed(s1) && Available(cfg, s1, u) == cfg.burst as real
  {
  }

  /** An Allow in front of a run. */
  lemma AllowFirst(cfg: Config, s: State, ref: RateLimit.Limiters, r: ReqId, es: seq<Event>)
    requires Enabled(cfg, s, Allow(r)) && ValidRun(cfg, Step(cfg, s, Allow(r)), es)
    ensures var s2 := Step(cfg, s, Allow(r));
            var u := s.pending[r].user;
            && ValidRun(cfg, s, [Allow(r)] + es)
            && (QuietRun(cfg, s2, es) ==> QuietRun(cfg, s, [Allow(r)] + es))
            && (!AsIfKept(cfg, s2, RateLimit.Check(cfg, ref, u, s.now).0, es) ==>
                  !AsIfKept(cfg, s, ref, [Allow(r)] + es))
  {
    var u, s2 := s.pending[r].user, Step(cfg, s, Allow(r));
    assert ([Allow(r)] + es)[1..] == es;
    KeepAllFirst(cfg, ref, u, s.now, Trace(cfg, s2, es));
    var all := [Allow(r)] + es;
    Unroll(cfg, s, all, u, s.now, s.now);
    SameHeadAndTail(Verdict(cfg, s, r), Verdicts(cfg, s2, es), RateLimit.Check(cfg, ref, u, s.now).1,
                    RateLimit.KeepAllVerdicts(cfg, RateLimit.Check(cfg, ref, u, s.now).0, Trace(cfg, s2, es)));
  }

  /** The tokens a synced user has are between none and the burst, in the map as in `ref`. */
  lemma SyncedTokens(cfg: Config, s: State, ref: RateLimit.Limiters, u: UserId)
    requires RateLimit.ConfigOk(cfg) && Sync(cfg, s, ref)
    ensures 0.0 <= RateLimit.Available(cfg, ref, u, s.now) == Available(cfg, s, u) <= cfg.burst as real
    ensures u in s.table ==> (FullAt(cfg, s, u) <==> RateLimit.Available(cfg, ref, u, s.now) == cfg.burst as real)
  {
    RateLimit.RefillBounds(cfg, ref, u, s.now, s.now);
    assert RateLimit.Available(cfg, View(s), u, s.now) == RateLimit.Available(cfg, ref, u, s.now);
  }

  /** After a delete that is not quiet some continuation, without further such deletes, shows it. */
  lemma UnquietDeleteShows(cfg: Config, s: State, ref: RateLimit.Limiters, u: UserId) returns (es: seq<Event>)
    requires RateLimit.ConfigOk(cfg) && cfg.burst >= 1 && Sync(cfg, s, ref) && Enabled(cfg, s, Delete(u))
    requires !FullAt(cfg, s, u) || PendingOn(s, u)
    ensures ValidRun(cfg, Step(cfg, s, Delete(u)), es) && QuietRun(cfg, Step(cfg, s, Delete(u)), es)
    ensures !AsIfKept(cfg, Step(cfg, s, Delete(u)), ref, es)
  {
    var s1 := Step(cfg, s, Delete(u));
    var q := LargerThanAll(s.pending.Keys);
    SyncedTokens(cfg, s, ref, u);
    DeleteIndexed(cfg, s, u);
    if !FullAt(cfg, s, u) {
      es := FewerTokensShow(cfg, s1, ref, q, u, cfg.burst);
    } else {
      var r :| r in s.pending && s.pending[r].user == u;
      es := PendingShows(cfg, s1, ref, u, r, q);
    }
  }

  /** A check that was pending takes its token from the limiter that has left the map. */
  lemma PendingShows(cfg: Config, s: State, ref: RateLimit.Limiters, u: UserId, r: ReqId, q: ReqId)
      returns (es: seq<Event>)
    requires cfg.burst >= 1 && Indexed(s) && u !in s.table && q !in s.pending
    requires r in s.pending && s.pending[r].user == u && s.pending[r].lim < |s.lims|
    requires forall v | v in s.table :: s.table[v] != s.pending[r].lim
    requires RateLimit.Available(cfg, ref, u, s.now) == cfg.burst as real
    ensures ValidRun(cfg, s, es) && QuietRun(cfg, s, es) && !AsIfKept(cfg, s, ref, es)
  {
    var s2 := Step(cfg, s, Allow(r));
    RefCheck(cfg, ref, u, s.now);
    assert Available(cfg, s2, u) == cfg.burst as real;
    var rest := FewerTokensShow(cfg, s2, RateLimit.Check(cfg, ref, u, s.now).0, q, u, cfg.burst);
    AllowFirst(cfg, s, ref, r, rest);
    es := [Allow(r)] + rest;
  }

  /** The exact condition: from a good state, with a burst of at least one, deleting u's limiter leaves every quiet
      continuation with the verdicts of the service that never evicts if and only if the limiter is full at the delete
      and no check of u is between its load and its Allow. */
  lemma DeleteUnobservableExactly(cfg: Config, s: State, ref: RateLimit.Limiters, u: UserId)
    requires RateLimit.ConfigOk(cfg) && cfg.burst >= 1 && Sync(cfg, s, ref) && Enabled(cfg, s, Delete(u))
    ensures (FullAt(cfg, s, u) && !PendingOn(s, u)) <==>
            forall es | ValidRun(cfg, Step(cfg, s, Delete(u)), es) && QuietRun(cfg, Step(cfg, s, Delete(u)), es) ::
              AsIfKept(cfg, Step(cfg, s, Delete(u)), ref, es)
  {
    var s1 := Step(cfg, s, Delete(u));
    if FullAt(cfg, s, u) && !PendingOn(s, u) {
      StepSync(cfg, s, ref, Delete(u));
      forall es | ValidRun(cfg, s1, es) && QuietRun(cfg, s1, es) ensures AsIfKept(cfg, s1, ref, es) {
        QuietRunSync(cfg, s1, ref, es, u, 0.0, 0.0);
      }
    } else {
      var es := UnquietDeleteShows(cfg, s, ref, u);
    }
  }

  // It does happen

  /** The cleanup sees the limiter full, a check is allowed, and then the cleanup deletes it. */
  function SeeAllowDelete(u: UserId): seq<Event> {
    [Load(0, u), See(u), Allow(0), Delete(u)]
  }

  lemma Spent(cfg: Config, start: Time, u: UserId) returns (s: State)
    requires cfg.burst >= 1
    ensures ValidRun(cfg, Init(start), SeeAllowDelete(u)) && s == Exec(cfg, Init(start), SeeAllowDelete(u))
    ensures Indexed(s) && s.now == start && s.pending == map[] && Available(cfg, s, u) == cfg.burst as real
    ensures AllowedIn(cfg, Init(start), SeeAllowDelete(u), u, start, start) == 1
  {
    var s0 := Init(start);
    RateLimit.TokensNow(cfg, RateLimit.Full(cfg, start));
    var s1 := Step(cfg, s0, Load(0, u));
    assert s1.lims == [RateLimit.Full(cfg, start)];
    var s2 := Step(cfg, s1, See(u));
    var s3 := Step(cfg, s2, Allow(0));
    s := Step(cfg, s3, Delete(u));
    TwoEvents(cfg, s2, Allow(0), Delete(u));
    assert SeeAllowDelete(u)[1..] == [See(u), Allow(0), Delete(u)];
    assert [See(u), Allow(0), Delete(u)][1..] == [Allow(0), Delete(u)];
    assert [Allow(0), Delete(u)][1..] == [Delete(u)] && [Delete(u)][1..] == [];
    assert AllowedIn(cfg, s3, [Delete(u)], u, start, start) == 0;
    assert AllowedIn(cfg, s2, [Allow(0), Delete(u)], u, start, start) == 1;
    assert ValidRun(cfg, s1, [See(u), Allow(0), Delete(u)]);
    assert AllowedIn(cfg, s1, [See(u), Allow(0), Delete(u)], u, start, start) == 1;
  }

  /** So at any burst of at least one, and any rate, some run allows a user burst + 1 executions at one moment: one
      check
      falls between what the cleanup sees and its delete, and the next ones find a new limiter. */
  lemma WindowCanBeExceeded(cfg: Config, start: Time, u: UserId)
    requires RateLimit.ConfigOk(cfg) && cfg.burst >= 1
    ensures exists es ::
              && ValidRun(cfg, Init(start), SeeAllowDelete(u) + es)
              && AllowedIn(cfg, Init(start), SeeAllowDelete(u) + es, u, start, start) == cfg.burst + 1
  {
    var s := Spent(cfg, start, u);
    var es := AllAllowed(cfg, s, 1, u, cfg.burst);
    Concat(cfg, Init(start), SeeAllowDelete(u), es, u, start, start);
  }

  lemma {:induction false} Concat(cfg: Config, s: State, es: seq<Event>, fs: seq<Event>, u: UserId, from: Time,
      to: Time)
    requires ValidRun(cfg, s, es) && ValidRun(cfg, Exec(cfg, s, es), fs)
    ensures ValidRun(cfg, s, es + fs)
    ensures AllowedIn(cfg, s, es + fs, u, from, to)
            == AllowedIn(cfg, s, es, u, from, to) + AllowedIn(cfg, Exec(cfg, s, es), fs, u, from, to)
    decreases |es|
  {
    if es == [] {
      assert es + fs == fs;
    } else {
      assert (es + fs)[0] == es[0] && (es + fs)[1..] == es[1..] + fs;
      Concat(cfg, Step(cfg, s, es[0]), es[1..], fs, u, from, to);
    }
  }
}
