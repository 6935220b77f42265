/** Each issued code is compared at most MaxAttempts times, under every interleaving of requests for one email. */
module EntranceCodes {
  import opened Common
  import opened Entrance

  type ReqId = nat

  /** Where a request stands: SendCode after its check; VerifyCode after its read, and after the increment
      that handed it a code to compare. */
  datatype Phase = Checked | Read | Incremented(code: nat)

  /** `issued` counts the codes so far and `compared[c]` the comparisons with code c. */
  datatype State = State(row: Option<Row>, issued: nat, reqs: map<ReqId, Phase>, compared: map<nat, nat>)

  const Init := State(None, 0, map[], map[])

  datatype Event =
    | SendCheck(r: ReqId, now: Time, readFailed: bool)
    | Upsert(r: ReqId, now: Time)
    | VerifyRead(r: ReqId, now: Time)
    | TryIncrement(r: ReqId)
    | Compare(r: ReqId)
    | DeleteRow
    | Drop(r: ReqId)

  predicate Enabled(cfg: Config, s: State, e: Event) {
    match e
    case SendCheck(r, now, readFailed) => r !in s.reqs && (readFailed || !RecentlySent(cfg, s.row, now))
    case Upsert(r, _) => r in s.reqs && s.reqs[r].Checked?
    case VerifyRead(r, now) => r !in s.reqs && s.row.Some? && now <= s.row.value.expiresAt
    case TryIncrement(r) => r in s.reqs && s.reqs[r].Read?
    case Compare(r) => r in s.reqs && s.reqs[r].Incremented?
    case DeleteRow => true
    case Drop(r) => r in s.reqs
  }

  function Count(m: map<nat, nat>, c: nat): nat {
    if c in m then m[c] else 0
  }

  /** A SendCode whose read of the row fails skips the cooldown, as the source does. The increment and the
      comparison it pays for are separate steps; the row may change in between, but the comparison uses the hash
      the increment returned. A failed increment ends the request. */
  function Step(cfg: Config, s: State, e: Event): State
    requires Enabled(cfg, s, e)
  {
    match e
    case SendCheck(r, _, _) => s.(reqs := s.reqs[r := Checked])
    case Upsert(r, now) => s.(row := Some(Issue(cfg, s.issued, now)), issued := s.issued + 1, reqs := s.reqs - {r})
    case VerifyRead(r, _) => s.(reqs := s.reqs[r := Read])
    case TryIncrement(r) =>
      if BelowLimit(cfg, s.row) then
        s.(row := Some(Increment(s.row.value)), reqs := s.reqs[r := Incremented(s.row.value.code)])
      else s.(reqs := s.reqs - {r})
    case Compare(r) =>
      var c := s.reqs[r].code;
      s.(reqs := s.reqs - {r}, compared := s.compared[c := Count(s.compared, c) + 1])
    case DeleteRow => s.(row := None)
    case Drop(r) => s.(reqs := s.reqs - {r})
  }

  predicate ValidRun(cfg: Config, s: State, es: seq<Event>)
    decreases |es|
  {
    es == [] || (Enabled(cfg, s, es[0]) && ValidRun(cfg, Step(cfg, s, es[0]), es[1..]))
  }

  function Exec(cfg: Config, s: State, es: seq<Event>): State
    requires ValidRun(cfg, s, es)
    decreases |es|
  {
    if es == [] then s else Exec(cfg, Step(cfg, s, es[0]), es[1..])
  }

  /** The requests that hold a right to compare code c. */
  function Owed(s: State, c: nat): set<ReqId> {
    set r | r in s.reqs && s.reqs[r] == Incremented(c)
  }

  /** Comparisons with c, made or owed, are at most the attempts its row has counted. */
  ghost predicate CodeOk(cfg: Config, s: State, c: nat) {
    && Count(s.compared, c) + |Owed(s, c)| <= cfg.maxAttempts
    && (s.row.Some? && s.row.value.code == c ==>
          Count(s.compared, c) + |Owed(s, c)| <= s.row.value.attempts <= cfg.maxAttempts)
    && (c >= s.issued ==> Count(s.compared, c) + |Owed(s, c)| == 0)
    && (s.row.Some? ==> s.row.value.code < s.issued)
  }

  lemma StepKeepsCode(cfg: Config, s: State, e: Event, c: nat)
    requires CodeOk(cfg, s, c) && Enabled(cfg, s, e)
    ensures CodeOk(cfg, Step(cfg, s, e), c)
  {
    if e.Drop? {
      OwedShrinks(s, Step(cfg, s, e), c);
    } else {
      OwedAfter(cfg, s, e, c);
    }
  }

  /** A right to compare is gained by an increment, used by a comparison, and dropped with its request. */
  lemma OwedAfter(cfg: Config, s: State, e: Event, c: nat)
    requires Enabled(cfg, s, e) && !e.Drop?
    ensures Owed(Step(cfg, s, e), c) ==
            if e.TryIncrement? && BelowLimit(cfg, s.row) && s.row.value.code == c then Owed(s, c) + {e.r}
            else if e.Compare? then Owed(s, c) - {e.r}
            else Owed(s, c)
  {
  }

  lemma OwedShrinks(s: State, s': State, c: nat)
    requires forall r | r in s'.reqs :: r in s.reqs && s.reqs[r] == s'.reqs[r]
    ensures |Owed(s', c)| <= |Owed(s, c)|
  {
    assert Owed(s', c) <= Owed(s, c);
    Subset(Owed(s', c), Owed(s, c));
  }

  lemma {:induction false} RunKeepsCode(cfg: Config, s: State, es: seq<Event>, c: nat)
    requires CodeOk(cfg, s, c) && ValidRun(cfg, s, es)
    ensures CodeOk(cfg, Exec(cfg, s, es), c)
    decreases |es|
  {
    if es != [] {
      StepKeepsCode(cfg, s, es[0], c);
      RunKeepsCode(cfg, Step(cfg, s, es[0]), es[1..], c);
    }
  }

  /** Whatever the interleaving, no issued code is ever compared more than MaxAttempts times. */
  lemma CodeComparedAtMostMax(cfg: Config, es: seq<Event>, c: nat)
    requires ValidRun(cfg, Init, es)
    ensures Count(Exec(cfg, Init, es).compared, c) <= cfg.maxAttempts
  {
    assert Owed(Init, c) == {};
    RunKeepsCode(cfg, Init, es, c);
  }

  /** The SendCode calls that passed their check and have not upserted yet. */
  function Sending(s: State): set<ReqId> {
    set r | r in s.reqs && s.reqs[r].Checked?
  }

  function Checks(es: seq<Event>): nat {
    if es == [] then 0 else (if es[0].SendCheck? then 1 else 0) + Checks(es[1..])
  }

  /** A call is on its way from its check to its upsert. */
  lemma SendingAfter(cfg: Config, s: State, e: Event)
    requires Enabled(cfg, s, e)
    ensures Sending(Step(cfg, s, e)) ==
            if e.SendCheck? then Sending(s) + {e.r} else if e.Upsert? || e.Drop? then Sending(s) - {e.r} else Sending(s)
    ensures e.Upsert? ==> e.r in Sending(s)
    ensures Step(cfg, s, e).issued == s.issued + (if e.Upsert? then 1 else 0)
  {
  }

  lemma {:induction false} RunSending(cfg: Config, s: State, es: seq<Event>)
    requires ValidRun(cfg, s, es)
    ensures Exec(cfg, s, es).issued + |Sending(Exec(cfg, s, es))| <= s.issued + |Sending(s)| + Checks(es)
    decreases |es|
  {
    if es != [] {
      SendingAfter(cfg, s, es[0]);
      RunSending(cfg, Step(cfg, s, es[0]), es[1..]);
    }
  }

  /** Every issued code is paid for by a check of its own. */
  lemma CodesAtMostChecks(cfg: Config, es: seq<Event>)
    requires ValidRun(cfg, Init, es)
    ensures Exec(cfg, Init, es).issued <= Checks(es)
  {
    assert Sending(Init) == {};
    RunSending(cfg, Init, es);
  }

  /** After a code is issued at time t, and while its row stays, a check that reads the row passes exactly from
      t + min(60 s, CodeTTL) on; one whose read fails passes always. */
  lemma CooldownAfterIssue(cfg: Config, s: State, r: ReqId, t: Time, q: ReqId, now: Time)
    requires ConfigOk(cfg) && Enabled(cfg, s, Upsert(r, t)) && q !in s.reqs && t <= now
    ensures var s' := Step(cfg, s, Upsert(r, t));
            && (Enabled(cfg, s', SendCheck(q, now, false)) <==>
                  now >= t + (if cfg.codeTtl <= 60.0 then cfg.codeTtl else 60.0))
            && Enabled(cfg, s', SendCheck(q, now, true))
  {
  }

  // The bound is reached by every code

  lemma {:induction false} Concat(cfg: Config, s: State, es: seq<Event>, fs: seq<Event>)
    requires ValidRun(cfg, s, es) && ValidRun(cfg, Exec(cfg, s, es), fs)
    ensures ValidRun(cfg, s, es + fs) && Exec(cfg, s, es + fs) == Exec(cfg, Exec(cfg, s, es), fs)
    decreases |es|
  {
    if es == [] {
      assert es + fs == fs;
    } else {
      assert (es + fs)[0] == es[0] && (es + fs)[1..] == es[1..] + fs;
      Concat(cfg, Step(cfg, s, es[0]), es[1..], fs);
    }
  }

  lemma OneEvent(cfg: Config, s: State, e: Event)
    requires Enabled(cfg, s, e)
    ensures ValidRun(cfg, s, [e]) && Exec(cfg, s, [e]) == Step(cfg, s, e)
  {
    assert [e][1..] == [];
    assert ValidRun(cfg, Step(cfg, s, e), []);
  }

  /** A VerifyCode that nothing interrupts compares the code of the row and counts it. */
  lemma OneAttempt(cfg: Config, s: State, now: Time) returns (es: seq<Event>)
    requires s.row.Some? && now <= s.row.value.expiresAt && s.row.value.attempts < cfg.maxAttempts
    ensures ValidRun(cfg, s, es)
    ensures var c, s' := s.row.value.code, Exec(cfg, s, es);
            && s'.row == Some(Row(c, s.row.value.expiresAt, s.row.value.attempts + 1))
            && Count(s'.compared, c) == Count(s.compared, c) + 1
  {
    var q := LargerThanAll(s.reqs.Keys);
    var s1 := Step(cfg, s, VerifyRead(q, now));
    var s2 := Step(cfg, s1, TryIncrement(q));
    OneEvent(cfg, s, VerifyRead(q, now));
    OneEvent(cfg, s1, TryIncrement(q));
    OneEvent(cfg, s2, Compare(q));
    Concat(cfg, s1, [TryIncrement(q)], [Compare(q)]);
    Concat(cfg, s, [VerifyRead(q, now)], [TryIncrement(q)] + [Compare(q)]);
    es := [VerifyRead(q, now)] + ([TryIncrement(q)] + [Compare(q)]);
  }

  lemma {:induction false} Attempts(cfg: Config, s: State, now: Time, n: nat) returns (es: seq<Event>)
    requires s.row.Some? && now <= s.row.value.expiresAt && s.row.value.attempts + n <= cfg.maxAttempts
    ensures ValidRun(cfg, s, es)
    ensures Count(Exec(cfg, s, es).compared, s.row.value.code) == Count(s.compared, s.row.value.code) + n
    decreases n
  {
    if n == 0 {
      es := [];
    } else {
      var first := OneAttempt(cfg, s, now);
      var rest := Attempts(cfg, Exec(cfg, s, first), now, n - 1);
      Concat(cfg, s, first, rest);
      es := first + rest;
    }
  }

  /** Whenever a SendCode gets to its upsert, the code it issues can be compared MaxAttempts times after that, whatever
      was compared before. */
  lemma NewCodeGetsAllAttempts(cfg: Config, es: seq<Event>, r: ReqId, now: Time)
    requires ConfigOk(cfg) && ValidRun(cfg, Init, es) && Enabled(cfg, Exec(cfg, Init, es), Upsert(r, now))
    ensures var s := Exec(cfg, Init, es);
            exists later :: ValidRun(cfg, s, [Upsert(r, now)] + later)
              && Count(Exec(cfg, s, [Upsert(r, now)] + later).compared, s.issued) == cfg.maxAttempts
  {
    var s := Exec(cfg, Init, es);
    assert Owed(Init, s.issued) == {};
    RunKeepsCode(cfg, Init, es, s.issued);
    OneEvent(cfg, s, Upsert(r, now));
    var later := Attempts(cfg, Step(cfg, s, Upsert(r, now)), now, cfg.maxAttempts);
    Concat(cfg, s, [Upsert(r, now)], later);
  }
}
