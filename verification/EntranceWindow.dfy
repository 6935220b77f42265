/** How many code comparisons a time window can hold when no verification succeeds and no mail or read fails in it,
    with up to k SendCode calls for the email between their check and their upsert. Of a VerifyCode only the increment
    that pays for its comparison matters, wherever its earlier read fell. */
module EntranceWindow {
  import opened Common
  import opened Entrance

  /** The row, and how many SendCode calls have passed their check and not yet upserted. */
  datatype State = State(row: Option<Row>, sends: nat)

  const Init := State(None, 0)

  datatype Event = Check(at: Time) | Upsert(at: Time, code: nat) | Drop(at: Time) | Attempt(at: Time) | Delete(at: Time)

  predicate Enabled(cfg: Config, k: nat, s: State, e: Event) {
    match e
    case Check(t) => !RecentlySent(cfg, s.row, t) && s.sends < k
    case Upsert(_, _) => s.sends > 0
    case Drop(_) => s.sends > 0
    case Attempt(_) => true
    case Delete(_) => true
  }

  function Step(cfg: Config, s: State, e: Event): State {
    match e
    case Check(_) => s.(sends := s.sends + 1)
    case Upsert(t, code) => State(Some(Issue(cfg, code, t)), if s.sends > 0 then s.sends - 1 else 0)
    case Drop(_) => s.(sends := if s.sends > 0 then s.sends - 1 else 0)
    case Attempt(_) => if BelowLimit(cfg, s.row) then s.(row := Some(Increment(s.row.value))) else s
    case Delete(_) => s.(row := None)
  }

  /** Times do not decrease, starting at `now`, and no more than k calls are in flight. */
  predicate ValidRun(cfg: Config, k: nat, s: State, es: seq<Event>, now: Time)
    decreases |es|
  {
    es == [] || (now <= es[0].at && Enabled(cfg, k, s, es[0])
        && ValidRun(cfg, k, Step(cfg, s, es[0]), es[1..], es[0].at))
  }

  function Exec(cfg: Config, s: State, es: seq<Event>): State
    decreases |es|
  {
    if es == [] then s else Exec(cfg, Step(cfg, s, es[0]), es[1..])
  }

  /** An attempt that is let through to compare its code. */
  predicate Compares(cfg: Config, s: State, e: Event) {
    e.Attempt? && BelowLimit(cfg, s.row)
  }

  function Comparisons(cfg: Config, s: State, es: seq<Event>): nat
    decreases |es|
  {
    if es == [] then 0 else
    (if Compares(cfg, s, es[0]) then 1 else 0) + Comparisons(cfg, Step(cfg, s, es[0]), es[1..])
  }

  /** The least time between two codes of calls that do not overlap: min(60 s, CodeTTL). */
  function Spacing(cfg: Config): real {
    if cfg.codeTtl < SEND_COOLDOWN then cfg.codeTtl else SEND_COOLDOWN
  }

  /** The earliest time at or after `now` at which SendCode would let a call pass. */
  function NextSend(cfg: Config, row: Option<Row>, now: Time): Time {
    if RecentlySent(cfg, row, now) then row.value.expiresAt - CooldownThreshold(cfg) else now
  }

  /** After a code is issued no call passes before Spacing is over. */
  lemma CodesAreSpaced(cfg: Config, code: nat, t: Time)
    requires ConfigOk(cfg)
    ensures RecentlySent(cfg, Some(Issue(cfg, code, t)), t)
    ensures NextSend(cfg, Some(Issue(cfg, code, t)), t) == t + Spacing(cfg)
    ensures Spacing(cfg) == (if cfg.codeTtl <= 60.0 then cfg.codeTtl else 60.0)
  {
  }

  /** While a code is recent at most k - 1 calls are in flight, because they all passed before it was issued; and no row
      lives longer than its time. */
  ghost predicate Inv(cfg: Config, k: nat, s: State, now: Time) {
    && s.sends <= k && (RecentlySent(cfg, s.row, now) ==> s.sends + 1 <= k)
    && (s.row.Some? ==> s.row.value.expiresAt <= now + cfg.codeTtl)
  }

  lemma StepKeepsInv(cfg: Config, k: nat, s: State, e: Event, now: Time)
    requires ConfigOk(cfg) && Inv(cfg, k, s, now) && now <= e.at && Enabled(cfg, k, s, e)
    ensures Inv(cfg, k, s, e.at) && Inv(cfg, k, Step(cfg, s, e), e.at)
  {
  }

  lemma {:induction false} RunKeepsInv(cfg: Config, k: nat, s: State, es: seq<Event>, now: Time, end: Time)
    requires ConfigOk(cfg) && Inv(cfg, k, s, now) && ValidRun(cfg, k, s, es, now) && now <= end
    requires forall i | 0 <= i < |es| :: es[i].at <= end
    ensures Inv(cfg, k, Exec(cfg, s, es), end)
    decreases |es|
  {
    if es != [] {
      StepKeepsInv(cfg, k, s, es[0], now);
      RunKeepsInv(cfg, k, Step(cfg, s, es[0]), es[1..], es[0].at, end);
    }
  }

  // The budget of a window

  function Left(cfg: Config, row: Option<Row>): nat {
    if BelowLimit(cfg, row) then cfg.maxAttempts - row.value.attempts else 0
  }

  /** At most this many moments at which calls pass, Spacing apart, lie between `next` and `to`. */
  function SendsLeft(cfg: Config, next: Time, to: Time): real
    requires ConfigOk(cfg)
  {
    if next <= to then (to - next) / Spacing(cfg) + 1.0 else 0.0
  }

  /** At most this many codes can still be issued up to `to`. */
  function Codes(cfg: Config, k: nat, s: State, now: Time, to: Time): real
    requires ConfigOk(cfg)
  {
    (if RecentlySent(cfg, s.row, now) then s.sends as real else 0.0)
    + Times(k, SendsLeft(cfg, NextSend(cfg, s.row, now), to))
  }

  /** What can still be compared up to `to`. */
  function Budget(cfg: Config, k: nat, s: State, now: Time, to: Time): real
    requires ConfigOk(cfg)
  {
    Left(cfg, s.row) as real + Times(cfg.maxAttempts, Codes(cfg, k, s, now, to))
  }

  lemma {:induction false} DivideMonotone(x: real, y: real, c: real)
    requires c > 0.0 && x <= y
    ensures x / c <= y / c
    ensures (x - c) / c == x / c - 1.0
  {
    assert y / c - x / c == (y - x) / c;
    assert (x - c) / c == x / c - c / c;
  }

  lemma SendsLeftAntitone(cfg: Config, next: Time, later: Time, to: Time)
    requires ConfigOk(cfg) && next <= later
    ensures SendsLeft(cfg, later, to) <= SendsLeft(cfg, next, to)
    ensures SendsLeft(cfg, next, to) >= 0.0
  {
    DivideMonotone(to - later, to - next, Spacing(cfg));
    if next <= to {
      DivideMonotone(0.0, to - next, Spacing(cfg));
    }
  }

  /** A code issued inside the window uses up one of the sends that were left. */
  lemma SendUsesOne(cfg: Config, t: Time, to: Time)
    requires ConfigOk(cfg) && t <= to
    ensures 1.0 + SendsLeft(cfg, t + Spacing(cfg), to) <= SendsLeft(cfg, t, to)
  {
    DivideMonotone(to - t, to - t, Spacing(cfg));
    DivideMonotone(0.0, to - t, Spacing(cfg));
    assert to - (t + Spacing(cfg)) == (to - t) - Spacing(cfg);
  }

  /** n times x, so that bounds can be reasoned about without products. */
  function Times(n: nat, x: real): real {
    if n == 0 then 0.0 else Times(n - 1, x) + x
  }

  lemma {:induction false} TimesMonotone(n: nat, x: real, y: real)
    requires x <= y
    ensures Times(n, x) <= Times(n, y) && Times(n, 0.0) == 0.0
  {
    if n > 0 {
      TimesMonotone(n - 1, x, y);
    }
  }

  lemma {:induction false} TimesOneMore(n: nat, x: real, y: real)
    requires 1.0 + x <= y
    ensures n as real + Times(n, x) <= Times(n, y)
  {
    if n > 0 {
      TimesOneMore(n - 1, x, y);
    }
  }

  lemma {:induction false} TimesIsProduct(n: nat, x: real)
    ensures Times(n, x) == n as real * x
  {
    if n > 0 {
      TimesIsProduct(n - 1, x);
      var a, b := n as real, (n - 1) as real;
      assert a == b + 1.0;
      assert a * x == b * x + x;
    }
  }

  /** Waiting never raises the number of codes that can still be issued. */
  lemma CodesDecay(cfg: Config, k: nat, s: State, now: Time, later: Time, to: Time)
    requires ConfigOk(cfg) && now <= later
    ensures 0.0 <= Codes(cfg, k, s, later, to) <= Codes(cfg, k, s, now, to)
  {
    var a, b := NextSend(cfg, s.row, now), NextSend(cfg, s.row, later);
    SendsLeftAntitone(cfg, a, b, to);
    SendsLeftAntitone(cfg, b, b, to);
    TimesMonotone(k, SendsLeft(cfg, b, to), SendsLeft(cfg, a, to));
    TimesMonotone(k, 0.0, SendsLeft(cfg, b, to));
  }

  /** An upsert uses up one of the codes that could still be issued, whether or not another was issued just before. */
  lemma UpsertUsesOne(cfg: Config, k: nat, s: State, t: Time, code: nat, to: Time)
    requires ConfigOk(cfg) && Inv(cfg, k, s, t) && s.sends > 0 && t <= to
    ensures 1.0 + Codes(cfg, k, Step(cfg, s, Upsert(t, code)), t, to) <= Codes(cfg, k, s, t, to)
  {
    CodesAreSpaced(cfg, code, t);
    var after, before := SendsLeft(cfg, t + Spacing(cfg), to), SendsLeft(cfg, NextSend(cfg, s.row, t), to);
    if RecentlySent(cfg, s.row, t) {
      SendsLeftAntitone(cfg, NextSend(cfg, s.row, t), t + Spacing(cfg), to);
      TimesMonotone(k, after, before);
    } else {
      SendUsesOne(cfg, t, to);
      TimesOneMore(k, after, before);
    }
  }

  /** One event inside the window is paid for by the budget and leaves the budget of what follows. */
  lemma BudgetPays(cfg: Config, k: nat, s: State, e: Event, now: Time, to: Time)
    requires ConfigOk(cfg) && Inv(cfg, k, s, now) && now <= e.at <= to && Enabled(cfg, k, s, e) && !e.Delete?
    ensures (if Compares(cfg, s, e) then 1.0 else 0.0) + Budget(cfg, k, Step(cfg, s, e), e.at, to)
            <= Budget(cfg, k, s, now, to)
  {
    StepKeepsInv(cfg, k, s, e, now);
    CodesDecay(cfg, k, s, now, e.at, to);
    var m, s' := cfg.maxAttempts, Step(cfg, s, e);
    var a, c := Codes(cfg, k, s', e.at, to), Codes(cfg, k, s, now, to);
    if e.Upsert? {
      UpsertUsesOne(cfg, k, s, e.at, e.code, to);
      TimesOneMore(m, a, c);
      assert Left(cfg, s'.row) == m;
    } else {
      QuietCodes(cfg, k, s, e, to);
      TimesMonotone(m, a, c);
    }
  }

  lemma QuietCodes(cfg: Config, k: nat, s: State, e: Event, to: Time)
    requires ConfigOk(cfg) && Enabled(cfg, k, s, e) && (e.Check? || e.Drop? || e.Attempt?)
    ensures Codes(cfg, k, Step(cfg, s, e), e.at, to) <= Codes(cfg, k, s, e.at, to)
    ensures Left(cfg, Step(cfg, s, e).row) == Left(cfg, s.row) - (if Compares(cfg, s, e) then 1 else 0)
  {
    assert RecentlySent(cfg, Step(cfg, s, e).row, e.at) == RecentlySent(cfg, s.row, e.at);
    assert NextSend(cfg, Step(cfg, s, e).row, e.at) == NextSend(cfg, s.row, e.at);
  }

  /** The events lie in the window, and none deletes the row. */
  predicate Within(es: seq<Event>, to: Time) {
    forall i | 0 <= i < |es| :: es[i].at <= to && !es[i].Delete?
  }

  lemma {:induction false} ComparisonsWithinBudget(cfg: Config, k: nat, s: State, es: seq<Event>, now: Time, to: Time)
    requires ConfigOk(cfg) && Inv(cfg, k, s, now) && ValidRun(cfg, k, s, es, now) && Within(es, to)
    ensures Comparisons(cfg, s, es) as real <= Budget(cfg, k, s, now, to)
    decreases |es|
  {
    if es == [] {
      CodesDecay(cfg, k, s, now, now, to);
      TimesMonotone(cfg.maxAttempts, 0.0, Codes(cfg, k, s, now, to));
    } else {
      assert es[0].at <= to && !es[0].Delete?;
      assert Within(es[1..], to) by {
        forall i | 0 <= i < |es[1..]| ensures es[1..][i].at <= to && !es[1..][i].Delete? {
          assert es[1..][i] == es[i + 1];
        }
      }
      StepKeepsInv(cfg, k, s, es[0], now);
      BudgetPays(cfg, k, s, es[0], now, to);
      ComparisonsWithinBudget(cfg, k, Step(cfg, s, es[0]), es[1..], es[0].at, to);
    }
  }

  /** T / c + 2, with T the length of the window and c = min(60 s, CodeTTL). */
  function Periods(cfg: Config, from: Time, to: Time): real
    requires ConfigOk(cfg)
  {
    (to - from) / Spacing(cfg) + 2.0
  }

  lemma CodesAtMost(cfg: Config, k: nat, s: State, from: Time, to: Time)
    requires ConfigOk(cfg) && k >= 1 && Inv(cfg, k, s, from) && from <= to
    ensures 1.0 + Codes(cfg, k, s, from, to) <= Times(k, Periods(cfg, from, to))
  {
    var next := NextSend(cfg, s.row, from);
    SendsLeftAntitone(cfg, from, next, to);
    TimesOneMore(k, SendsLeft(cfg, next, to), Periods(cfg, from, to));
  }

  lemma WindowTimes(cfg: Config, k: nat, s: State, es: seq<Event>, from: Time, to: Time)
    requires ConfigOk(cfg) && k >= 1 && Inv(cfg, k, s, from) && from <= to && ValidRun(cfg, k, s, es, from)
              && Within(es, to)
    ensures Comparisons(cfg, s, es) as real <= Times(cfg.maxAttempts, Times(k, Periods(cfg, from, to)))
  {
    ComparisonsWithinBudget(cfg, k, s, es, from, to);
    CodesAtMost(cfg, k, s, from, to);
    TimesOneMore(cfg.maxAttempts, Codes(cfg, k, s, from, to), Times(k, Periods(cfg, from, to)));
    assert Left(cfg, s.row) <= cfg.maxAttempts;
  }

  function Product(m: nat, k: nat, x: real): real {
    m as real * (k as real * x)
  }

  /** In every run with at most k SendCode calls in flight, a window without deletes holds at most
      MaxAttempts * k * (T / c + 2) comparisons. With calls that do not overlap, k is 1. */
  lemma WindowBound(cfg: Config, k: nat, before: seq<Event>, es: seq<Event>, start: Time, from: Time, to: Time)
    requires ConfigOk(cfg) && k >= 1 && start <= from <= to
    requires ValidRun(cfg, k, Init, before, start) && (forall i | 0 <= i < |before| :: before[i].at <= from)
    requires ValidRun(cfg, k, Exec(cfg, Init, before), es, from) && Within(es, to)
    ensures Comparisons(cfg, Exec(cfg, Init, before), es) as real
            <= Product(cfg.maxAttempts, k, (to - from) / (if cfg.codeTtl <= 60.0 then cfg.codeTtl else 60.0) + 2.0)
  {
    RunKeepsInv(cfg, k, Init, before, start, from);
    WindowTimes(cfg, k, Exec(cfg, Init, before), es, from, to);
    TimesTwice(cfg.maxAttempts, k, Periods(cfg, from, to));
    PeriodsAre(cfg, from, to);
  }

  lemma PeriodsAre(cfg: Config, from: Time, to: Time)
    requires ConfigOk(cfg)
    ensures Periods(cfg, from, to) == (to - from) / (if cfg.codeTtl <= 60.0 then cfg.codeTtl else 60.0) + 2.0
  {
  }

  lemma TimesTwice(m: nat, k: nat, x: real)
    ensures Times(m, Times(k, x)) == Product(m, k, x)
  {
    TimesIsProduct(k, x);
    TimesIsProduct(m, k as real * x);
  }

  /** A call that gives up between its check and its upsert leaves everything as it was. */
  lemma DropUndoesCheck(cfg: Config, k: nat, s: State, t: Time)
    requires Enabled(cfg, k, s, Check(t))
    ensures Enabled(cfg, k, Step(cfg, s, Check(t)), Drop(t)) && Step(cfg, Step(cfg, s, Check(t)), Drop(t)) == s
  {
  }

  /** Once the row is deleted, by a successful verification or after a mail that failed, the next call passes. */
  lemma DeleteLiftsCooldown(cfg: Config, k: nat, s: State, t: Time)
    requires s.sends < k
    ensures Enabled(cfg, k, s, Delete(t)) && Enabled(cfg, k, Step(cfg, s, Delete(t)), Check(t))
  {
  }

  // That overlapping calls do add up

  lemma {:induction false} Attempts(cfg: Config, k: nat, s: State, t: Time, n: nat) returns (es: seq<Event>)
    requires s.row.Some? && s.row.value.attempts + n == cfg.maxAttempts
    ensures ValidRun(cfg, k, s, es, t) && Within(es, t) && Comparisons(cfg, s, es) == n
    ensures Exec(cfg, s, es) == s.(row := Some(s.row.value.(attempts := cfg.maxAttempts)))
    decreases n
  {
    if n == 0 {
      es := [];
    } else {
      var rest := Attempts(cfg, k, Step(cfg, s, Attempt(t)), t, n - 1);
      es := [Attempt(t)] + rest;
      assert es[1..] == rest;
    }
  }

  lemma {:induction false} Concat(cfg: Config, k: nat, s: State, es: seq<Event>, fs: seq<Event>, t: Time)
    requires ValidRun(cfg, k, s, es, t) && Within(es, t) && ValidRun(cfg, k, Exec(cfg, s, es), fs, t) && Within(fs, t)
    ensures ValidRun(cfg, k, s, es + fs, t) && Within(es + fs, t)
    ensures Comparisons(cfg, s, es + fs) == Comparisons(cfg, s, es) + Comparisons(cfg, Exec(cfg, s, es), fs)
    ensures Exec(cfg, s, es + fs) == Exec(cfg, Exec(cfg, s, es), fs)
    decreases |es|
  {
    if es == [] {
      assert es + fs == fs;
    } else {
      assert (es + fs)[0] == es[0] && (es + fs)[1..] == es[1..] + fs;
      assert es[0].at == t && Within(es[1..], t);
      Concat(cfg, k, Step(cfg, s, es[0]), es[1..], fs, t);
    }
  }

  lemma {:induction false} Checks(cfg: Config, k: nat, s: State, t: Time) returns (es: seq<Event>)
    requires s.row.None? && s.sends <= k
    ensures ValidRun(cfg, k, s, es, t) && Within(es, t) && Comparisons(cfg, s, es) == 0
    ensures Exec(cfg, s, es) == State(None, k)
    decreases k - s.sends
  {
    if s.sends == k {
      es := [];
    } else {
      var rest := Checks(cfg, k, Step(cfg, s, Check(t)), t);
      es := [Check(t)] + rest;
      assert es[1..] == rest;
    }
  }

  /** Each call in flight issues a code, and each code is compared as often as it may be. */
  lemma {:induction false} Upserts(cfg: Config, k: nat, s: State, t: Time) returns (es: seq<Event>)
    requires s.sends <= k
    ensures ValidRun(cfg, k, s, es, t) && Within(es, t) && Comparisons(cfg, s, es) == s.sends * cfg.maxAttempts
    decreases s.sends
  {
    if s.sends == 0 {
      es := [];
    } else {
      var s1 := Step(cfg, s, Upsert(t, 0));
      var tries := Attempts(cfg, k, s1, t, cfg.maxAttempts);
      var rest := Upserts(cfg, k, Exec(cfg, s1, tries), t);
      Concat(cfg, k, s1, tries, rest, t);
      es := [Upsert(t, 0)] + (tries + rest);
      assert es[1..] == tries + rest;
      assert s.sends * cfg.maxAttempts == cfg.maxAttempts + (s.sends - 1) * cfg.maxAttempts;
    }
  }

  /** It does happen: k calls that pass their check together let k times MaxAttempts comparisons through at one moment,
      which for k of three or more is beyond what calls that do not overlap can do. */
  lemma OverlappingCallsAddUp(cfg: Config, k: nat, t: Time)
    requires ConfigOk(cfg)
    ensures exists es :: ValidRun(cfg, k, Init, es, t) && Within(es, t)
              && Comparisons(cfg, Init, es) == k * cfg.maxAttempts
  {
    var es := Checks(cfg, k, Init, t);
    var fs := Upserts(cfg, k, State(None, k), t);
    Concat(cfg, k, Init, es, fs, t);
  }
}
