/** entranceService (internal/service/auth_service.go): SendCode and VerifyCode over the verification_codes
    table, each running alone. */
module EntranceServices {
  import opened Common
  import opened Entrance

  datatype Error = InvalidEmail | InvalidCode | TooManyAttempts | CodeRecentlySent | SendFailed | Internal

  class EntranceService {
    const cfg: Config
    var codes: map<string, Row>
    var issued: nat

    constructor (cfg: Config)
      ensures this.cfg == cfg && codes == map[] && issued == 0
    {
      this.cfg := cfg;
      codes, issued := map[], 0;
    }

    ghost function RowOf(email: string): Option<Row>
      reads this
    {
      if email in codes then Some(codes[email]) else None
    }

    /** A call that is not refused within the cooldown issues a new code with no attempts; a mail that fails takes the
        new
        row with it unless that delete fails too. No other email is touched. */
    method SendCode(email: string, validEmail: bool, now: Time, mailFails: bool, deleteFails: bool)
        returns (r: Result<(), Error>)
      modifies this
      ensures forall other | other != email :: RowOf(other) == old(RowOf(other))
      ensures r == Err(InvalidEmail) <==> !validEmail
      ensures r == Err(CodeRecentlySent) <==>
                validEmail && email in old(codes) && old(codes)[email].expiresAt - now
                    > (if cfg.codeTtl > 60.0 then cfg.codeTtl - 60.0 else 0.0)
      ensures r == Err(CodeRecentlySent) <==> validEmail && RecentlySent(cfg, old(RowOf(email)), now)
      ensures r.Ok? || r == Err(SendFailed) || r == Err(InvalidEmail) || r == Err(CodeRecentlySent)
      ensures r.Ok? || r == Err(SendFailed) ==> (r.Ok? <==> !mailFails)
      ensures r == Err(InvalidEmail) || r == Err(CodeRecentlySent) ==> codes == old(codes) && issued == old(issued)
      ensures r.Ok? || r == Err(SendFailed) ==>
                && issued == old(issued) + 1
                && RowOf(email) == if r.Ok? || deleteFails then Some(Row(old(issued), now + cfg.codeTtl, 0)) else None
    {
      if !validEmail {
        return Err(InvalidEmail);
      }
      if email in codes {
        var cooldownThreshold := cfg.codeTtl - SEND_COOLDOWN;
        if cooldownThreshold < 0.0 {
          cooldownThreshold := 0.0;
        }
        if codes[email].expiresAt - now > cooldownThreshold {
          return Err(CodeRecentlySent);
        }
      }
      codes := codes[email := Row(issued, now + cfg.codeTtl, 0)];
      issued := issued + 1;
      if mailFails {
        if !deleteFails {
          codes := codes - {email};
        }
        return Err(SendFailed);
      }
      r := Ok(());
    }

    /** `matches` is what the comparison with the stored hash would say; `userFails` stands for a failure to find,
        create or mark the user. The code is compared exactly when a row exists, has not expired and has
        attempts left. */
    method VerifyCode(email: string, now: Time, matches: bool, userFails: bool, deleteFails: bool, sessionFails: bool)
      returns (r: Result<(), Error>, compared: bool)
      modifies this`codes
      ensures forall other | other != email :: RowOf(other) == old(RowOf(other))
      ensures compared <==>
                && email in old(codes) && now <= old(codes)[email].expiresAt
                && old(codes)[email].attempts < cfg.maxAttempts
      ensures r.Ok? <==> compared && matches && !userFails && !sessionFails
      ensures r == Err(TooManyAttempts) <==>
                && email in old(codes) && now <= old(codes)[email].expiresAt
                && old(codes)[email].attempts >= cfg.maxAttempts
      ensures r == Err(InvalidCode) <==>
                email !in old(codes) || now > old(codes)[email].expiresAt || (compared && !matches)
      ensures r == Err(Internal) <==> compared && matches && (userFails || sessionFails)
      ensures !compared ==> codes == old(codes)
      ensures compared ==>
                RowOf(email) == if matches && !userFails && !deleteFails then None
                    else Some(Row(old(codes)[email].code, old(codes)[email].expiresAt, old(codes)[email].attempts + 1))
    {
      compared := false;
      if email !in codes {
        return Err(InvalidCode), false;
      }
      if now > codes[email].expiresAt {
        return Err(InvalidCode), false;
      }
      if !(codes[email].attempts < cfg.maxAttempts) {
        return Err(TooManyAttempts), false;
      }
      codes := codes[email := codes[email].(attempts := codes[email].attempts + 1)];
      compared := true;
      if !matches {
        return Err(InvalidCode), true;
      }
      if userFails {
        return Err(Internal), true;
      }
      if !deleteFails {
        codes := codes - {email};
      }
      if sessionFails {
        return Err(Internal), true;
      }
      r := Ok(());
    }
  }
}
