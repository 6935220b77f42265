/** The per-user token buckets of internal/service/execution_service.go, over real-valued tokens and
    a clock that does not go back. A bucket refills at `rate`, is capped at `burst` and pays one token
    for an allowed execution; a user without a limiter gets a full one on the next request. */
module RateLimit {
  import opened Common

  type Time = real

  datatype Config = Config(rate: real, burst: nat)

  predicate ConfigOk(cfg: Config) {
    cfg.rate >= 0.0
  }

  /** A rate.Limiter: the tokens it had at time `last`. */
  datatype Limiter = Limiter(tokens: real, last: Time)

  type Limiters = map<UserId, Limiter>

  function Min(a: real, b: real): real {
    if a <= b then a else b
  }

  function Full(cfg: Config, now: Time): Limiter {
    Limiter(cfg.burst as real, now)
  }

  /** What the rate yields up to time t; between two times a bucket gains the difference. */
  function Accrued(cfg: Config, t: Time): real {
    t * cfg.rate
  }

  /** Limiter.Tokens at `now`: refilled since `last` and capped. */
  function Tokens(cfg: Config, l: Limiter, now: Time): real {
    Min(cfg.burst as real, l.tokens + Accrued(cfg, now) - Accrued(cfg, l.last))
  }

  /** Limiter.Allow at `now`: a refused request leaves the limiter as it was. */
  function Allow(cfg: Config, l: Limiter, now: Time): (Limiter, bool) {
    var tokens := Tokens(cfg, l, now);
    if tokens >= 1.0 then (Limiter(tokens - 1.0, now), true) else (l, false)
  }

  /** CheckRateLimit: LoadOrStore a full limiter, then Allow. */
  function Check(cfg: Config, ls: Limiters, u: UserId, now: Time): (Limiters, bool) {
    var l := if u in ls then ls[u] else Full(cfg, now);
    var (l', ok) := Allow(cfg, l, now);
    (ls[u := l'], ok)
  }

  /** The per-key cleanup action: drop a limiter that is full again. */
  function Evict(cfg: Config, ls: Limiters, u: UserId, now: Time): Limiters {
    if u in ls && Tokens(cfg, ls[u], now) >= cfg.burst as real then ls - {u} else ls
  }

  datatype Event = Request(user: UserId, at: Time) | Cleanup(user: UserId, at: Time)

  /** Times do not decrease, starting at `now`. */
  predicate InOrder(es: seq<Event>, now: Time)
  {
    es == [] || (now <= es[0].at && InOrder(es[1..], es[0].at))
  }

  function Apply(cfg: Config, ls: Limiters, e: Event): Limiters {
    match e
    case Request(u, t) => Check(cfg, ls, u, t).0
    case Cleanup(u, t) => Evict(cfg, ls, u, t)
  }

  /** The event is a request that was allowed. */
  predicate Allowed(cfg: Config, ls: Limiters, e: Event) {
    e.Request? && Check(cfg, ls, e.user, e.at).1
  }

  /** The tokens u would find at `now`: an absent limiter counts as full. */
  function Available(cfg: Config, ls: Limiters, u: UserId, now: Time): real {
    if u in ls then Tokens(cfg, ls[u], now) else cfg.burst as real
  }

  ghost predicate LimitersOk(cfg: Config, ls: Limiters, now: Time) {
    forall u | u in ls :: ls[u].last <= now && 0.0 <= ls[u].tokens <= cfg.burst as real
  }

  // The window bound

  /** Allowed executions of u whose time lies in [from, to]. */
  function AllowedIn(cfg: Config, ls: Limiters, es: seq<Event>, u: UserId, from: Time, to: Time): nat
    decreases |es|
  {
    if es == [] then 0 else
    (if Allowed(cfg, ls, es[0]) && es[0].user == u && from <= es[0].at <= to then 1 else 0)
    + AllowedIn(cfg, Apply(cfg, ls, es[0]), es[1..], u, from, to)
  }

  lemma RefillBounds(cfg: Config, ls: Limiters, u: UserId, now: Time, later: Time)
    requires ConfigOk(cfg) && LimitersOk(cfg, ls, now) && now <= later
    ensures 0.0 <= Available(cfg, ls, u, now) <= Available(cfg, ls, u, later) <= cfg.burst as real
    ensures Available(cfg, ls, u, later) <= Available(cfg, ls, u, now) + Accrued(cfg, later) - Accrued(cfg, now)
  {
    if u in ls {
      var l := ls[u];
      AccruedMonotone(cfg, l.last, now);
      AccruedMonotone(cfg, now, later);
    } else {
      AccruedMonotone(cfg, now, later);
    }
  }

  lemma GrowsBy(a: real, d: real, b: real, rate: real)
    requires b == a + d && d >= 0.0 && rate >= 0.0
    ensures b * rate == a * rate + d * rate && d * rate >= 0.0
  {
  }

  lemma AccruedMonotone(cfg: Config, a: Time, b: Time)
    requires ConfigOk(cfg) && a <= b
    ensures Accrued(cfg, a) <= Accrued(cfg, b)
  {
    GrowsBy(a, b - a, b, cfg.rate);
  }

  lemma AccruedOver(cfg: Config, a: Time, b: Time)
    ensures Accrued(cfg, b) - Accrued(cfg, a) == cfg.rate * (b - a)
  {
  }

  lemma StepKeepsOk(cfg: Config, ls: Limiters, e: Event, now: Time)
    requires ConfigOk(cfg) && LimitersOk(cfg, ls, now) && now <= e.at
    ensures LimitersOk(cfg, Apply(cfg, ls, e), e.at)
  {
    RefillBounds(cfg, ls, e.user, now, e.at);
    if e.user in ls {
      RefillBounds(cfg, ls, e.user, e.at, e.at);
    }
  }

  /** One event at time t costs its user one token exactly when it is an allowed request; eviction is free. */
  lemma StepCost(cfg: Config, ls: Limiters, e: Event, u: UserId, now: Time)
    requires ConfigOk(cfg) && LimitersOk(cfg, ls, now) && now <= e.at
    ensures Available(cfg, Apply(cfg, ls, e), u, e.at)
            == Available(cfg, ls, u, e.at) - (if Allowed(cfg, ls, e) && e.user == u then 1.0 else 0.0)
  {
    if e.user == u {
      RefillBounds(cfg, ls, u, now, e.at);
      match e
      case Request(_, t) => RequestCost(cfg, ls, u, t);
      case Cleanup(_, _) =>
    }
  }

  lemma TokensNow(cfg: Config, l: Limiter)
    ensures Tokens(cfg, l, l.last) == Min(cfg.burst as real, l.tokens)
  {
  }

  lemma RequestCost(cfg: Config, ls: Limiters, u: UserId, t: Time)
    requires Available(cfg, ls, u, t) <= cfg.burst as real
    ensures Available(cfg, Check(cfg, ls, u, t).0, u, t) ==
              Available(cfg, ls, u, t) - (if Check(cfg, ls, u, t).1 then 1.0 else 0.0)
  {
    var l := if u in ls then ls[u] else Full(cfg, t);
    var (l', ok) := Allow(cfg, l, t);
    assert Check(cfg, ls, u, t) == (ls[u := l'], ok);
    TokensNow(cfg, Full(cfg, t));
    if ok {
      TokensNow(cfg, l');
    }
  }

  /** What the rest of a window that ends at `to` can still cost, seen at `now`. */
  function Budget(cfg: Config, ls: Limiters, u: UserId, now: Time, to: Time): real {
    Available(cfg, ls, u, now) + Accrued(cfg, to) - Accrued(cfg, now)
  }

  lemma BudgetNonnegative(cfg: Config, ls: Limiters, u: UserId, now: Time, to: Time)
    requires ConfigOk(cfg) && LimitersOk(cfg, ls, now) && now <= to
    ensures Budget(cfg, ls, u, now, to) >= 0.0
  {
    RefillBounds(cfg, ls, u, now, now);
    AccruedMonotone(cfg, now, to);
  }

  /** Waiting never raises the budget. */
  lemma BudgetDecays(cfg: Config, ls: Limiters, u: UserId, now: Time, later: Time, to: Time)
    requires ConfigOk(cfg) && LimitersOk(cfg, ls, now) && now <= later <= to
    ensures Budget(cfg, ls, u, later, to) <= Budget(cfg, ls, u, now, to)
  {
    RefillBounds(cfg, ls, u, now, later);
  }

  /** An event inside the window pays for itself out of the budget. */
  lemma BudgetPays(cfg: Config, ls: Limiters, e: Event, u: UserId, now: Time, to: Time)
    requires ConfigOk(cfg) && LimitersOk(cfg, ls, now) && now <= e.at <= to
    ensures Budget(cfg, Apply(cfg, ls, e), u, e.at, to) + (if Allowed(cfg, ls, e) && e.user == u then 1.0 else 0.0)
            <= Budget(cfg, ls, u, now, to)
  {
    StepCost(cfg, ls, e, u, now);
    BudgetDecays(cfg, ls, u, now, e.at, to);
  }

  lemma {:induction false} NothingAfter(cfg: Config, ls: Limiters, es: seq<Event>, u: UserId, from: Time, to: Time,
      now: Time)
    requires InOrder(es, now) && to < now
    ensures AllowedIn(cfg, ls, es, u, from, to) == 0
    decreases |es|
  {
    if es != [] {
      NothingAfter(cfg, Apply(cfg, ls, es[0]), es[1..], u, from, to, es[0].at);
    }
  }

  /** From inside the window the budget pays for every allowed execution left in it. */
  lemma {:induction false} WindowFromInside(cfg: Config, ls: Limiters, es: seq<Event>, u: UserId, from: Time, to: Time,
      now: Time)
    requires ConfigOk(cfg) && LimitersOk(cfg, ls, now) && InOrder(es, now) && from <= now <= to
    ensures AllowedIn(cfg, ls, es, u, from, to) as real <= Budget(cfg, ls, u, now, to)
    decreases |es|
  {
    if es == [] {
      BudgetNonnegative(cfg, ls, u, now, to);
    } else if es[0].at > to {
      NothingAfter(cfg, Apply(cfg, ls, es[0]), es[1..], u, from, to, es[0].at);
      BudgetNonnegative(cfg, ls, u, now, to);
    } else {
      StepKeepsOk(cfg, ls, es[0], now);
      BudgetPays(cfg, ls, es[0], u, now, to);
      WindowFromInside(cfg, Apply(cfg, ls, es[0]), es[1..], u, from, to, es[0].at);
    }
  }

  lemma BudgetAtMost(cfg: Config, ls: Limiters, u: UserId, from: Time, now: Time, to: Time)
    requires ConfigOk(cfg) && LimitersOk(cfg, ls, now) && from <= now <= to
    ensures Budget(cfg, ls, u, now, to) <= cfg.burst as real + Accrued(cfg, to) - Accrued(cfg, from)
  {
    RefillBounds(cfg, ls, u, now, now);
    AccruedMonotone(cfg, from, now);
  }

  lemma {:induction false} WindowFromBefore(cfg: Config, ls: Limiters, es: seq<Event>, u: UserId, from: Time, to: Time,
      now: Time)
    requires ConfigOk(cfg) && LimitersOk(cfg, ls, now) && InOrder(es, now) && from <= to
    ensures AllowedIn(cfg, ls, es, u, from, to) as real <= cfg.burst as real + Accrued(cfg, to) - Accrued(cfg, from)
    decreases |es|
  {
    if from <= now <= to {
      WindowFromInside(cfg, ls, es, u, from, to, now);
      BudgetAtMost(cfg, ls, u, from, now, to);
    } else if to < now || es == [] {
      if to < now { NothingAfter(cfg, ls, es, u, from, to, now); }
      AccruedMonotone(cfg, from, to);
    } else if es[0].at < from {
      StepKeepsOk(cfg, ls, es[0], now);
      WindowFromBefore(cfg, Apply(cfg, ls, es[0]), es[1..], u, from, to, es[0].at);
    } else {
      assert LimitersOk(cfg, ls, from) && InOrder(es, from);
      WindowFromInside(cfg, ls, es, u, from, to, from);
      BudgetAtMost(cfg, ls, u, from, from, to);
    }
  }

  /** Over every run, evictions included, the executions allowed to a user in any window are at most
      burst + rate * length. */
  lemma WindowBound(cfg: Config, es: seq<Event>, u: UserId, start: Time, from: Time, to: Time)
    requires ConfigOk(cfg) && InOrder(es, start) && from <= to
    ensures AllowedIn(cfg, map[], es, u, from, to) as real <= cfg.burst as real + cfg.rate * (to - from)
  {
    WindowFromBefore(cfg, map[], es, u, from, to, start);
    AccruedOver(cfg, from, to);
  }

  // Eviction is unobservable

  /** The verdicts of the requests, in order. */
  function Verdicts(cfg: Config, ls: Limiters, es: seq<Event>): seq<bool>
    decreases |es|
  {
    if es == [] then [] else
    (if es[0].Request? then [Check(cfg, ls, es[0].user, es[0].at).1] else [])
    + Verdicts(cfg, Apply(cfg, ls, es[0]), es[1..])
  }

  /** The same service without the cleanup: evictions do nothing. */
  function KeepAll(cfg: Config, ls: Limiters, e: Event): Limiters {
    if e.Request? then Check(cfg, ls, e.user, e.at).0 else ls
  }

  function KeepAllVerdicts(cfg: Config, ls: Limiters, es: seq<Event>): seq<bool>
    decreases |es|
  {
    if es == [] then [] else
    (if es[0].Request? then [Check(cfg, ls, es[0].user, es[0].at).1] else [])
    + KeepAllVerdicts(cfg, KeepAll(cfg, ls, es[0]), es[1..])
  }

  /** Two limiter tables that no request from `now` on can tell apart. */
  ghost predicate Alike(cfg: Config, a: Limiters, b: Limiters, now: Time) {
    forall u: UserId, t: Time | t >= now :: Available(cfg, a, u, t) == Available(cfg, b, u, t)
  }

  /** A limiter full at one time is full at every later one, so dropping it changes nothing. */
  lemma EvictAlike(cfg: Config, ls: Limiters, u: UserId, now: Time, at: Time)
    requires ConfigOk(cfg) && LimitersOk(cfg, ls, now) && now <= at
    ensures Alike(cfg, Evict(cfg, ls, u, at), ls, at)
  {
    forall v: UserId, t: Time | t >= at
      ensures Available(cfg, Evict(cfg, ls, u, at), v, t) == Available(cfg, ls, v, t)
    {
      assert LimitersOk(cfg, ls, at);
      RefillBounds(cfg, ls, v, at, t);
    }
  }

  lemma RequestAlike(cfg: Config, a: Limiters, b: Limiters, u: UserId, now: Time, at: Time)
    requires ConfigOk(cfg) && now <= at && Alike(cfg, a, b, now)
    requires LimitersOk(cfg, a, now) && LimitersOk(cfg, b, now)
    ensures Check(cfg, a, u, at).1 == Check(cfg, b, u, at).1
    ensures Alike(cfg, Check(cfg, a, u, at).0, Check(cfg, b, u, at).0, at)
  {
    FullStaysFull(cfg, at);
    assert Available(cfg, a, u, at) == Available(cfg, b, u, at);
    var a', b' := Check(cfg, a, u, at).0, Check(cfg, b, u, at).0;
    forall v: UserId, t: Time | t >= at ensures Available(cfg, a', v, t) == Available(cfg, b', v, t) {
      assert Available(cfg, a, v, t) == Available(cfg, b, v, t);
      AccruedMonotone(cfg, at, t);
      if v == u && !Check(cfg, a, u, at).1 {
        RefusedKeepsAvailable(cfg, a, u, at, t);
        RefusedKeepsAvailable(cfg, b, u, at, t);
      }
    }
  }

  lemma FullStaysFull(cfg: Config, at: Time)
    requires ConfigOk(cfg)
    ensures Tokens(cfg, Full(cfg, at), at) == cfg.burst as real
  {
  }

  lemma RefusedKeepsAvailable(cfg: Config, ls: Limiters, u: UserId, at: Time, t: Time)
    requires ConfigOk(cfg) && !Check(cfg, ls, u, at).1 && at <= t
    ensures Available(cfg, Check(cfg, ls, u, at).0, u, t) == Available(cfg, ls, u, t)
  {
    AccruedMonotone(cfg, at, t);
  }

  lemma {:induction false} AlikeRuns(cfg: Config, a: Limiters, b: Limiters, es: seq<Event>, now: Time)
    requires ConfigOk(cfg) && Alike(cfg, a, b, now) && InOrder(es, now)
    requires LimitersOk(cfg, a, now) && LimitersOk(cfg, b, now)
    ensures Verdicts(cfg, a, es) == KeepAllVerdicts(cfg, b, es)
    decreases |es|
  {
    if es != [] {
      var e := es[0];
      StepKeepsOk(cfg, a, e, now);
      match e {
        case Request(u, t) =>
          StepKeepsOk(cfg, b, e, now);
          RequestAlike(cfg, a, b, u, now, t);
        case Cleanup(u, t) =>
          EvictAlike(cfg, a, u, now, t);
          assert Alike(cfg, Evict(cfg, a, u, t), b, t);
      }
      AlikeRuns(cfg, Apply(cfg, a, e), KeepAll(cfg, b, e), es[1..], e.at);
    }
  }

  /** Over every run, the service that evicts full limiters gives every request the verdict of one that never evicts. */
  lemma EvictionUnobservable(cfg: Config, es: seq<Event>, start: Time)
    requires ConfigOk(cfg) && InOrder(es, start)
    ensures Verdicts(cfg, map[], es) == KeepAllVerdicts(cfg, map[], es)
  {
    AlikeRuns(cfg, map[], map[], es, start);
  }

  // Exactly when a request is allowed

  /** The limiters after a run. */
  function Exec(cfg: Config, ls: Limiters, es: seq<Event>): Limiters
    decreases |es|
  {
    if es == [] then ls else Exec(cfg, Apply(cfg, ls, es[0]), es[1..])
  }

  function EndTime(es: seq<Event>, start: Time): Time {
    if es == [] then start else es[|es| - 1].at
  }

  lemma {:induction false} RunAppend(cfg: Config, ls: Limiters, es: seq<Event>, e: Event, u: UserId, from: Time,
      to: Time)
    ensures Exec(cfg, ls, es + [e]) == Apply(cfg, Exec(cfg, ls, es), e)
    ensures AllowedIn(cfg, ls, es + [e], u, from, to) == AllowedIn(cfg, ls, es, u, from, to)
              + (if Allowed(cfg, Exec(cfg, ls, es), e) && e.user == u && from <= e.at <= to then 1 else 0)
    decreases |es|
  {
    if es == [] {
      assert es + [e] == [e] && [e][1..] == [];
    } else {
      assert (es + [e])[1..] == es[1..] + [e];
      RunAppend(cfg, Apply(cfg, ls, es[0]), es[1..], e, u, from, to);
    }
  }

  lemma {:induction false} InOrderAppend(es: seq<Event>, e: Event, start: Time)
    ensures InOrder(es + [e], start) <==> InOrder(es, start) && EndTime(es, start) <= e.at
    decreases |es|
  {
    if es == [] {
      assert es + [e] == [e] && [e][1..] == [];
    } else {
      assert (es + [e])[1..] == es[1..] + [e];
      InOrderAppend(es[1..], e, es[0].at);
    }
  }

  lemma {:induction false} RunKeepsOk(cfg: Config, ls: Limiters, es: seq<Event>, start: Time)
    requires ConfigOk(cfg) && LimitersOk(cfg, ls, start) && InOrder(es, start)
    ensures LimitersOk(cfg, Exec(cfg, ls, es), EndTime(es, start)) && start <= EndTime(es, start)
    decreases |es|
  {
    if es != [] {
      StepKeepsOk(cfg, ls, es[0], start);
      RunKeepsOk(cfg, Apply(cfg, ls, es[0]), es[1..], es[0].at);
    }
  }

  /** Nothing happens after the end of a run: windows that reach past it count the same, and later ones nothing. */
  lemma {:induction false} CountAtEnd(cfg: Config, ls: Limiters, es: seq<Event>, u: UserId, start: Time, from: Time,
      to: Time)
    requires InOrder(es, start) && EndTime(es, start) <= to
    ensures start <= EndTime(es, start)
    ensures AllowedIn(cfg, ls, es, u, from, to) == AllowedIn(cfg, ls, es, u, from, EndTime(es, start))
    ensures from > EndTime(es, start) ==> AllowedIn(cfg, ls, es, u, from, to) == 0
    decreases |es|
  {
    if es != [] {
      CountAtEnd(cfg, Apply(cfg, ls, es[0]), es[1..], u, es[0].at, from, to);
    }
  }

  /** What a window that starts at `from` leaves, at time t, of burst + rate * length. */
  function Room(cfg: Config, es: seq<Event>, u: UserId, from: Time, t: Time): real {
    cfg.burst as real + Accrued(cfg, t) - Accrued(cfg, from) - AllowedIn(cfg, map[], es, u, from, t) as real
  }

  /** The amount is the least room of all windows that end at t. */
  ghost predicate LeastRoom(cfg: Config, es: seq<Event>, u: UserId, t: Time, amount: real) {
    && (forall from: Time | from <= t :: amount <= Room(cfg, es, u, from, t))
    && (exists from: Time :: from <= t && amount == Room(cfg, es, u, from, t))
  }

  /** Waiting adds what the rate yields, up to the burst. */
  lemma WaitingRefills(cfg: Config, ls: Limiters, u: UserId, now: Time, t: Time)
    requires ConfigOk(cfg) && LimitersOk(cfg, ls, now) && now <= t
    ensures Available(cfg, ls, u, t)
            == Min(cfg.burst as real, Available(cfg, ls, u, now) + Accrued(cfg, t) - Accrued(cfg, now))
  {
    AccruedMonotone(cfg, now, t);
    if u in ls {
      AccruedMonotone(cfg, ls[u].last, now);
    }
  }

  lemma RoomWhileWaiting(cfg: Config, es: seq<Event>, u: UserId, start: Time, from: Time, t: Time)
    requires InOrder(es, start) && EndTime(es, start) <= t && from <= t
    ensures var end := EndTime(es, start);
            Room(cfg, es, u, from, t) == if from <= end then Room(cfg, es, u, from, end) + Accrued(cfg, t)
                - Accrued(cfg, end) else cfg.burst as real + Accrued(cfg, t) - Accrued(cfg, from)
  {
    CountAtEnd(cfg, map[], es, u, start, from, t);
  }

  lemma LeastRoomWhileWaiting(cfg: Config, es: seq<Event>, u: UserId, start: Time, t: Time, amount: real)
    requires ConfigOk(cfg) && InOrder(es, start) && EndTime(es, start) <= t
    requires LeastRoom(cfg, es, u, EndTime(es, start), amount)
    ensures LeastRoom(cfg, es, u, t,
              Min(cfg.burst as real, amount + Accrued(cfg, t) - Accrued(cfg, EndTime(es, start))))
  {
    var end := EndTime(es, start);
    var later := Min(cfg.burst as real, amount + Accrued(cfg, t) - Accrued(cfg, end));
    forall from: Time | from <= t ensures later <= Room(cfg, es, u, from, t) {
      RoomWhileWaiting(cfg, es, u, start, from, t);
      AccruedMonotone(cfg, from, t);
    }
    var w: Time :| w <= end && amount == Room(cfg, es, u, w, end);
    RoomWhileWaiting(cfg, es, u, start, w, t);
    RoomWhileWaiting(cfg, es, u, start, t, t);
    if t == end {
      assert amount <= Room(cfg, es, u, t, end) <= cfg.burst as real;
    }
    assert later == Room(cfg, es, u, w, t) || later == Room(cfg, es, u, t, t);
  }

  lemma RoomAfterEvent(cfg: Config, es: seq<Event>, e: Event, u: UserId, amount: real)
    requires LeastRoom(cfg, es, u, e.at, amount)
    ensures var paid := if Allowed(cfg, Exec(cfg, map[], es), e) && e.user == u then 1.0 else 0.0;
            LeastRoom(cfg, es + [e], u, e.at, amount - paid)
  {
    var paid := if Allowed(cfg, Exec(cfg, map[], es), e) && e.user == u then 1.0 else 0.0;
    forall from: Time | from <= e.at
      ensures Room(cfg, es + [e], u, from, e.at) == Room(cfg, es, u, from, e.at) - paid
    {
      RunAppend(cfg, map[], es, e, u, from, e.at);
    }
    var w: Time :| w <= e.at && amount == Room(cfg, es, u, w, e.at);
    assert amount - paid == Room(cfg, es + [e], u, w, e.at);
  }

  /** After every run the tokens a user would find are the least room of all windows that end now. */
  lemma {:induction false} AvailableIsLeastRoom(cfg: Config, es: seq<Event>, u: UserId, start: Time, t: Time)
    requires ConfigOk(cfg) && InOrder(es, start) && EndTime(es, start) <= t
    ensures LeastRoom(cfg, es, u, t, Available(cfg, Exec(cfg, map[], es), u, t))
    decreases |es|
  {
    var ls := Exec(cfg, map[], es);
    if es == [] {
      forall from: Time | from <= t ensures cfg.burst as real <= Room(cfg, es, u, from, t) {
        AccruedMonotone(cfg, from, t);
      }
      assert cfg.burst as real == Room(cfg, es, u, t, t);
    } else {
      var init, e := es[..|es| - 1], es[|es| - 1];
      assert es == init + [e];
      InOrderAppend(init, e, start);
      RunAppend(cfg, map[], init, e, u, t, t);
      var before := Exec(cfg, map[], init);
      RunKeepsOk(cfg, map[], init, start);
      RunKeepsOk(cfg, map[], es, start);
      AvailableIsLeastRoom(cfg, init, u, start, e.at);
      StepCost(cfg, before, e, u, EndTime(init, start));
      RoomAfterEvent(cfg, init, e, u, Available(cfg, before, u, e.at));
      LeastRoomWhileWaiting(cfg, es, u, start, t, Available(cfg, ls, u, e.at));
      WaitingRefills(cfg, ls, u, e.at, t);
    }
  }

  lemma CheckIsAvailable(cfg: Config, ls: Limiters, u: UserId, now: Time)
    ensures Check(cfg, ls, u, now).1 <==> Available(cfg, ls, u, now) >= 1.0
  {
    TokensNow(cfg, Full(cfg, now));
  }

  lemma AvailableAlone(cfg: Config, ls: Limiters, u: UserId, now: Time)
    ensures Available(cfg, ls, u, now) >= 1.0 <==>
              cfg.burst >= 1 && (u in ls ==> ls[u].tokens + cfg.rate * (now - ls[u].last) >= 1.0)
  {
    if u in ls {
      var l := ls[u];
      AccruedOver(cfg, l.last, now);
      MinAtLeastOne(cfg.burst, l.tokens + Accrued(cfg, now) - Accrued(cfg, l.last));
    }
  }

  lemma MinAtLeastOne(n: nat, x: real)
    ensures Min(n as real, x) >= 1.0 <==> n >= 1 && x >= 1.0
  {
  }

  /** One more execution at time t would leave a window from `from` on, which holds n, within
      burst + rate * length. */
  predicate Fits(cfg: Config, n: nat, from: Time, t: Time) {
    n as real + 1.0 <= cfg.burst as real + cfg.rate * (t - from)
  }

  lemma FitsExactly(cfg: Config, n: nat, from: Time, t: Time)
    ensures Fits(cfg, n, from, t) <==> cfg.burst as real + Accrued(cfg, t) - Accrued(cfg, from) - n as real >= 1.0
  {
    AccruedOver(cfg, from, t);
  }

  /** After every run, evictions included, a request is allowed if and only if no window that ends with it would then
      hold more than burst + rate * length executions of its user. */
  lemma AllowedExactly(cfg: Config, es: seq<Event>, u: UserId, start: Time, t: Time)
    requires ConfigOk(cfg) && InOrder(es, start) && EndTime(es, start) <= t
    ensures Check(cfg, Exec(cfg, map[], es), u, t).1 <==> forall from: Time | from <= t ::
              Fits(cfg, AllowedIn(cfg, map[], es, u, from, t), from, t)
  {
    var ls := Exec(cfg, map[], es);
    var n := Available(cfg, ls, u, t);
    AvailableIsLeastRoom(cfg, es, u, start, t);
    CheckIsAvailable(cfg, ls, u, t);
    forall from: Time | from <= t
      ensures Fits(cfg, AllowedIn(cfg, map[], es, u, from, t), from, t) <==> Room(cfg, es, u, from, t) >= 1.0
    {
      FitsExactly(cfg, AllowedIn(cfg, map[], es, u, from, t), from, t);
    }
    var w: Time :| w <= t && n == Room(cfg, es, u, w, t);
    assert n < 1.0 ==> !Fits(cfg, AllowedIn(cfg, map[], es, u, w, t), w, t);
  }
}
