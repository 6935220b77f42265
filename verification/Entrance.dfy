/** The email-code entrance (internal/service/auth_service.go:75-166) over the verification_codes row of one
    email (internal/db/sqlc/verification_codes.sql.go). Hashing, code generation and mail are oracles; every
    upsert issues a code that is new, here numbered in the order of issue. Times and durations are in seconds. */
module Entrance {
  import opened Common

  type Time = real

  datatype Config = Config(codeTtl: real, maxAttempts: nat)

  predicate ConfigOk(cfg: Config) {
    cfg.codeTtl > 0.0
  }

  const SEND_COOLDOWN := 60.0

  datatype Row = Row(code: nat, expiresAt: Time, attempts: nat)

  /** The part of the time to live after which a new code may be sent. */
  function CooldownThreshold(cfg: Config): real {
    if cfg.codeTtl - SEND_COOLDOWN < 0.0 then 0.0 else cfg.codeTtl - SEND_COOLDOWN
  }

  /** SendCode's check of the existing row. */
  predicate RecentlySent(cfg: Config, row: Option<Row>, now: Time) {
    row.Some? && row.value.expiresAt - now > CooldownThreshold(cfg)
  }

  function Issue(cfg: Config, code: nat, now: Time): Row {
    Row(code, now + cfg.codeTtl, 0)
  }

  /** IncrementAttemptsIfBelowLimit. */
  predicate BelowLimit(cfg: Config, row: Option<Row>) {
    row.Some? && row.value.attempts < cfg.maxAttempts
  }

  function Increment(row: Row): Row {
    row.(attempts := row.attempts + 1)
  }
}
