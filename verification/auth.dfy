/** The login lock-out kept per client address, and the credential check.
    The clock is an integer number of milliseconds passed to each call. */
module Auth {
  import opened Wrappers

  const MaxLoginAttempts: nat := 5
  const LockoutMs: nat := 5 * 60 * 1000

  datatype AttemptData = AttemptData(attempts: nat, firstAttempt: int, blockedUntil: Option<int>)

  type Attempts = map<string, AttemptData>

  /** Records as the operations leave them: at least one failure each, and
      a block time exactly from the fifth failure on. */
  predicate WellFormed(m: Attempts) {
    forall ip | ip in m :: m[ip].attempts >= 1 && (m[ip].attempts >= MaxLoginAttempts <==> m[ip].blockedUntil.Some?)
  }

  /** `check_ip_blocked`: the answer and the table it leaves behind. */
  function CheckBlocked(m: Attempts, ip: string, now: int): (r: (bool, Attempts))
    requires WellFormed(m)
    ensures r.0 <==> ip in m && m[ip].attempts >= MaxLoginAttempts && now < m[ip].blockedUntil.value
    ensures r.1 == if ip in m && m[ip].attempts >= MaxLoginAttempts && !r.0 then m - {ip} else m
    ensures WellFormed(r.1)
  {
    if ip !in m then (false, m)
    else
      var d := m[ip];
      if d.attempts >= MaxLoginAttempts then
        if now < d.blockedUntil.value then (true, m) else (false, m - {ip})
      else (false, m)
  }

  /** `record_failed_login`. */
  function RecordFailed(m: Attempts, ip: string, now: int): (r: Attempts)
    requires WellFormed(m)
    ensures WellFormed(r)
    ensures ip in r && r[ip].attempts == (if ip in m then m[ip].attempts + 1 else 1)
    ensures r[ip].firstAttempt == (if ip in m then m[ip].firstAttempt else now)
    ensures r[ip].blockedUntil == (if r[ip].attempts >= MaxLoginAttempts then Some(now + LockoutMs) else None)
    ensures forall other | other != ip :: (other in r <==> other in m) && (other in m ==> r[other] == m[other])
  {
    var d := if ip !in m then AttemptData(1, now, None) else m[ip].(attempts := m[ip].attempts + 1);
    var d' := if d.attempts >= MaxLoginAttempts then d.(blockedUntil := Some(now + LockoutMs)) else d;
    m[ip := d']
  }

  /** `get_remaining_lockout_time`: whole seconds left while a block runs. */
  function RemainingLockout(m: Attempts, ip: string, now: int): (r: Option<nat>)
    ensures r.Some? <==> ip in m && m[ip].blockedUntil.Some? && now < m[ip].blockedUntil.value
    ensures r.Some? ==> r.value * 1000 <= m[ip].blockedUntil.value - now < (r.value + 1) * 1000
  {
    if ip !in m then None
    else
      var d := m[ip];
      if d.blockedUntil.Some? && now < d.blockedUntil.value then Some((d.blockedUntil.value - now) / 1000)
      else None
  }

  /** The remaining lock-out time is reported exactly when the address is blocked. */
  lemma LockoutReportedIffBlocked(m: Attempts, ip: string, now: int)
    requires WellFormed(m)
    ensures RemainingLockout(m, ip, now).Some? <==> CheckBlocked(m, ip, now).0
  {
  }

  /** An address with fewer than five failures is never blocked and its
      record never expires; only clearing removes it. */
  lemma FewFailuresNeverExpire(m: Attempts, ip: string, now: int)
    requires WellFormed(m) && ip in m && m[ip].attempts < MaxLoginAttempts
    ensures CheckBlocked(m, ip, now) == (false, m)
  {
  }

  /** `n` failures in a row at time `now`, starting from no record. */
  function FailTimes(m: Attempts, ip: string, now: int, n: nat): (r: Attempts)
    requires WellFormed(m)
    ensures WellFormed(r)
    decreases n
  {
    if n == 0 then m else RecordFailed(FailTimes(m, ip, now, n - 1), ip, now)
  }

  /** After `n` failures from a fresh address, the record counts `n`, and
      is blocked for five minutes from the last failure once `n` reaches five. */
  lemma {:induction false} FailuresCount(m: Attempts, ip: string, now: int, n: nat)
    requires WellFormed(m) && ip !in m && n >= 1
    ensures var r := FailTimes(m, ip, now, n);
      && ip in r && r[ip].attempts == n
      && r[ip].blockedUntil == (if n >= MaxLoginAttempts then Some(now + LockoutMs) else None)
    decreases n
  {
    if n > 1 {
      FailuresCount(m, ip, now, n - 1);
    }
  }

  /** Five failures block an address for exactly five minutes: it is blocked
      before the lock-out ends, and afterwards the record is removed. */
  lemma FiveFailuresBlockFiveMinutes(m: Attempts, ip: string, now: int, later: int)
    requires WellFormed(m) && ip !in m && now <= later
    ensures var r := FailTimes(m, ip, now, MaxLoginAttempts);
      && (later < now + LockoutMs ==> CheckBlocked(r, ip, later).0)
      && (later >= now + LockoutMs ==> CheckBlocked(r, ip, later) == (false, r - {ip}))
  {
    FailuresCount(m, ip, now, MaxLoginAttempts);
  }

  // ----- credentials -----

  /** The configured username and password; `None` when unset. */
  datatype AuthConfig = AuthConfig(username: Option<string>, password: Option<string>)

  predicate AuthenticationEnabled(c: AuthConfig) {
    c.username.Some? && c.username.value != "" && c.password.Some? && c.password.value != ""
  }

  /** Everything passes while authentication is off; otherwise only the
      configured pair does. */
  function VerifyCredentials(c: AuthConfig, username: string, password: string): (ok: bool)
    ensures !AuthenticationEnabled(c) ==> ok
    ensures AuthenticationEnabled(c) ==> (ok <==> Some(username) == c.username && Some(password) == c.password)
  {
    if !AuthenticationEnabled(c) then true
    else Some(username) == c.username && Some(password) == c.password
  }

  /** The static methods of `AuthManager` together with the module-level
      table of failed attempts they share. */
  class AuthManager {
    var loginAttempts: Attempts

    predicate Valid()
      reads this
    {
      WellFormed(loginAttempts)
    }

    constructor()
      ensures Valid() && loginAttempts == map[]
    {
      loginAttempts := map[];
    }

    method CheckIpBlocked(clientIp: string, now: int) returns (blocked: bool)
      requires Valid()
      modifies this
      ensures Valid() && (blocked, loginAttempts) == CheckBlocked(old(loginAttempts), clientIp, now)
    {
      if clientIp !in loginAttempts {
        return false;
      }
      var attemptData := loginAttempts[clientIp];
      if attemptData.attempts >= MaxLoginAttempts {
        if now < attemptData.blockedUntil.value {
          return true;
        } else {
          loginAttempts := loginAttempts - {clientIp};
        }
      }
      return false;
    }

    method RecordFailedLogin(clientIp: string, now: int)
      requires Valid()
      modifies this
      ensures Valid() && loginAttempts == RecordFailed(old(loginAttempts), clientIp, now)
    {
      if clientIp !in loginAttempts {
        loginAttempts := loginAttempts[clientIp := AttemptData(1, now, None)];
      } else {
        loginAttempts := loginAttempts[clientIp := loginAttempts[clientIp].(attempts := loginAttempts[clientIp].attempts + 1)];
      }
      if loginAttempts[clientIp].attempts >= MaxLoginAttempts {
        loginAttempts := loginAttempts[clientIp := loginAttempts[clientIp].(blockedUntil := Some(now + LockoutMs))];
      }
    }

    method ClearLoginAttempts(clientIp: string)
      requires Valid()
      modifies this
      ensures Valid() && loginAttempts == old(loginAttempts) - {clientIp}
    {
      if clientIp in loginAttempts {
        loginAttempts := loginAttempts - {clientIp};
      }
    }

    method GetRemainingLockoutTime(clientIp: string, now: int) returns (r: Option<nat>)
      ensures r == RemainingLockout(loginAttempts, clientIp, now)
    {
      if clientIp !in loginAttempts {
        return None;
      }
      var attemptData := loginAttempts[clientIp];
      if attemptData.blockedUntil.Some? && now < attemptData.blockedUntil.value {
        var remaining := attemptData.blockedUntil.value - now;
        return Some(remaining / 1000);
      }
      return None;
    }
  }
}
