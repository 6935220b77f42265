/** ExecutionService (internal/service/execution_service.go): the limiters and slots maps and the
    calls that change them, each running alone. */
module ExecutionServices {
  import opened Common
  import RateLimit
  import Slots

  class ExecutionService {
    const cfg: RateLimit.Config
    var limiters: RateLimit.Limiters
    var slots: Slots.Table

    /** The limiters are as some run up to `now` leaves them. */
    ghost predicate Valid(now: RateLimit.Time)
      reads this
    {
      RateLimit.ConfigOk(cfg) && RateLimit.LimitersOk(cfg, limiters, now)
    }

    constructor (cfg: RateLimit.Config)
      requires RateLimit.ConfigOk(cfg)
      ensures this.cfg == cfg && limiters == map[] && slots == map[]
      ensures forall now :: Valid(now)
    {
      this.cfg := cfg;
      limiters := map[];
      slots := map[];
    }

    method CheckRateLimit(u: UserId, now: RateLimit.Time, ghost before: RateLimit.Time) returns (ok: bool)
      requires Valid(before) && before <= now
      modifies this`limiters
      ensures Valid(now)
      ensures (limiters, ok) == RateLimit.Check(cfg, old(limiters), u, now)
      ensures ok <==> RateLimit.Available(cfg, old(limiters), u, now) >= 1.0
      ensures ok <==> cfg.burst >= 1 && (u in old(limiters) ==>
                old(limiters)[u].tokens + cfg.rate * (now - old(limiters)[u].last) >= 1.0)
      ensures u in limiters && forall v | v != u ::
                (v in limiters <==> v in old(limiters)) && (v in limiters ==> limiters[v] == old(limiters)[v])
    {
      RateLimit.AvailableAlone(cfg, limiters, u, now);
      RateLimit.StepKeepsOk(cfg, limiters, RateLimit.Request(u, now), before);
      RateLimit.FullStaysFull(cfg, now);
      if u !in limiters {
        limiters := limiters[u := RateLimit.Full(cfg, now)];
      }
      var tokens := RateLimit.Tokens(cfg, limiters[u], now);
      ok := tokens >= 1.0;
      if ok {
        limiters := limiters[u := RateLimit.Limiter(tokens - 1.0, now)];
      }
      assert limiters == RateLimit.Check(cfg, old(limiters), u, now).0;
    }

    method TryAcquireSlot(k: Slots.Key) returns (ok: bool)
      modifies this`slots
      ensures (slots, ok) == Slots.TryAcquire(old(slots), k)
      ensures ok <==> k !in old(Slots.HeldSet(slots))
      ensures Slots.HeldSet(slots) == old(Slots.HeldSet(slots)) + {k}
    {
      if k !in slots {
        slots := slots[k := false];
      }
      if slots[k] {
        return false;
      }
      slots := slots[k := true];
      ok := true;
    }

    /** A receive from an empty channel never returns, which is what a false result stands for; whoever holds the
        slot is never blocked. */
    method ReleaseSlot(k: Slots.Key) returns (returned: bool)
      modifies this`slots
      ensures returned <==> (k in old(Slots.HeldSet(slots)) || k !in old(slots))
      ensures returned ==> Slots.Release(old(slots), k) == Slots.Released(slots)
      ensures !returned ==> slots == old(slots) && Slots.Release(old(slots), k) == Slots.Blocked
      ensures Slots.HeldSet(slots) == old(Slots.HeldSet(slots)) - {k}
    {
      if k in slots {
        if !slots[k] {
          return false;
        }
        slots := slots[k := false];
      }
      returned := true;
    }

    /** One pass of the hourly cleanup. No user can tell from later verdicts that it ran, no held
        slot is lost, and what is dropped is exactly the replenished limiters and the idle slots
        of users left without one. */
    method RunCleanup(now: RateLimit.Time, ghost before: RateLimit.Time)
      requires Valid(before) && before <= now
      modifies this
      ensures Valid(now)
      ensures forall u | u in old(limiters) ::
                u in limiters <==> RateLimit.Tokens(cfg, old(limiters)[u], now) < cfg.burst as real
      ensures RateLimit.Alike(cfg, limiters, old(limiters), now)
      ensures forall k :: k in slots <==> k in old(slots) && (k.user in limiters || old(slots)[k])
      ensures forall k | k in slots :: slots[k] == old(slots)[k]
      ensures Slots.HeldSet(slots) == old(Slots.HeldSet(slots))
    {
      var users := limiters.Keys;
      while users != {}
        invariant Valid(now) && slots == old(slots)
        invariant users <= limiters.Keys <= old(limiters).Keys
        invariant forall u | u in limiters :: limiters[u] == old(limiters)[u]
        invariant forall u | u in old(limiters) && u !in users ::
                    u in limiters <==> RateLimit.Tokens(cfg, old(limiters)[u], now) < cfg.burst as real
        invariant RateLimit.Alike(cfg, limiters, old(limiters), now)
        decreases |users|
      {
        var u :| u in users;
        RateLimit.EvictAlike(cfg, limiters, u, now, now);
        if RateLimit.Tokens(cfg, limiters[u], now) >= cfg.burst as real {
          limiters := limiters - {u};
        }
        users := users - {u};
      }
      var keys := slots.Keys;
      while keys != {}
        invariant keys <= slots.Keys <= old(slots).Keys
        invariant forall k | k in slots :: slots[k] == old(slots)[k]
        invariant forall k | k in old(slots) && k !in keys :: k in slots <==> k.user in limiters || old(slots)[k]
        modifies this`slots
        decreases |keys|
      {
        var k :| k in keys;
        if k.user !in limiters && !slots[k] {
          slots := slots - {k};
        }
        keys := keys - {k};
      }
    }
  }
}
