/** The login limiter: failed attempts are counted per user name and per address, and a key with
    too many of them is locked for a while. Times are instants on one clock. */
module RateLimit {
  import opened Wrappers

  datatype Limits = Limits(burst: int, window: int, lockout: int, maxTracked: int)

  const SECOND: int := 1_000_000_000
  const DEFAULT_LIMITS := Limits(8, 5 * 60 * SECOND, 15 * 60 * SECOND, 10000)

  // A lock that was never set is None, an instant before every other.
  datatype Attempt = Attempt(failures: nat, firstSeen: int, lockedTil: Option<int>)

  type Attempts = map<string, Attempt>

  predicate Locked(entry: Attempt, now: int) {
    entry.lockedTil.Some? && now < entry.lockedTil.value
  }

  predicate Expired(limits: Limits, entry: Attempt, now: int) {
    now - entry.firstSeen > limits.window
  }

  function KeysFor(username: string, address: string): (r: seq<string>)
    ensures forall i, j :: 0 <= i < j < |r| ==> r[i] != r[j]
  {
    assert ("user:" + username)[0] != ("addr:" + address)[0];
    (if username != "" then ["user:" + username] else []) + (if address != "" then ["addr:" + address] else [])
  }

  // ----- Admitting -----

  function AllowKeys(limits: Limits, attempts: Attempts, keys: seq<string>, now: int): (bool, Attempts)
    decreases |keys|
  {
    if keys == [] then (true, attempts)
    else if keys[0] !in attempts then AllowKeys(limits, attempts, keys[1..], now)
    else if Locked(attempts[keys[0]], now) then (false, attempts)
    else if Expired(limits, attempts[keys[0]], now) then AllowKeys(limits, attempts - {keys[0]}, keys[1..], now)
    else AllowKeys(limits, attempts, keys[1..], now)
  }

  // ----- Failing -----

  predicate Stale(limits: Limits, entry: Attempt, now: int) {
    (entry.lockedTil.None? || now > entry.lockedTil.value) && Expired(limits, entry, now)
  }

  function Swept(limits: Limits, attempts: Attempts, now: int): Attempts {
    if |attempts| < limits.maxTracked then attempts
    else map key | key in attempts && !Stale(limits, attempts[key], now) :: attempts[key]
  }

  function Find(attempts: Attempts, key: string): Option<Attempt> {
    if key in attempts then Some(attempts[key]) else None
  }

  // One more failure on top of what is recorded, or on a new record when that has expired.
  function Bump(limits: Limits, entry: Option<Attempt>, now: int): Attempt {
    var base := if entry.None? || Expired(limits, entry.value, now) then Attempt(0, now, None) else entry.value;
    var failures := base.failures + 1;
    Attempt(failures, base.firstSeen, if failures >= limits.burst then Some(now + limits.lockout) else base.lockedTil)
  }

  function BumpKeys(limits: Limits, attempts: Attempts, keys: seq<string>, now: int): Attempts
    decreases |keys|
  {
    if keys == [] then attempts
    else BumpKeys(limits, attempts[keys[0] := Bump(limits, Find(attempts, keys[0]), now)], keys[1..], now)
  }

  function FailKeys(limits: Limits, attempts: Attempts, keys: seq<string>, now: int): Attempts {
    BumpKeys(limits, Swept(limits, attempts, now), keys, now)
  }

  function SucceedKeys(attempts: Attempts, keys: seq<string>): Attempts {
    attempts - set key | key in keys
  }

  // ----- The limiter -----

  class Limiter {
    const limits: Limits
    var attempts: Attempts

    constructor (limits: Limits)
      ensures attempts == map[]
      ensures this.limits.burst > 0
      ensures this.limits == if limits.burst > 0 then limits else DEFAULT_LIMITS
    {
      this.limits := if limits.burst <= 0 then DEFAULT_LIMITS else limits;
      attempts := map[];
    }

    method Allow(username: string, address: string, now: int) returns (ok: bool)
      modifies this
      ensures (ok, attempts) == AllowKeys(limits, old(attempts), KeysFor(username, address), now)
    {
      var keys := KeysFor(username, address);
      var i := 0;
      while i < |keys|
        invariant 0 <= i <= |keys|
        invariant AllowKeys(limits, attempts, keys[i..], now) == AllowKeys(limits, old(attempts), keys, now)
      {
        assert keys[i..][1..] == keys[i + 1..];
        var key := keys[i];
        i := i + 1;
        if key in attempts {
          var entry := attempts[key];
          if Locked(entry, now) {
            return false;
          }
          if Expired(limits, entry, now) {
            attempts := attempts - {key};
          }
        }
      }
      return true;
    }

    method Fail(username: string, address: string, now: int)
      modifies this
      ensures attempts == FailKeys(limits, old(attempts), KeysFor(username, address), now)
    {
      Sweep(now);
      var keys := KeysFor(username, address);
      var i := 0;
      while i < |keys|
        invariant 0 <= i <= |keys|
        invariant BumpKeys(limits, attempts, keys[i..], now) == FailKeys(limits, old(attempts), keys, now)
      {
        assert keys[i..][1..] == keys[i + 1..];
        var key := keys[i];
        var entry := Attempt(0, now, None);
        if key in attempts && !Expired(limits, attempts[key], now) {
          entry := attempts[key];
        }
        entry := entry.(failures := entry.failures + 1);
        if entry.failures >= limits.burst {
          entry := entry.(lockedTil := Some(now + limits.lockout));
        }
        attempts := attempts[key := entry];
        i := i + 1;
      }
    }

    method Succeed(username: string, address: string)
      modifies this
      ensures attempts == SucceedKeys(old(attempts), KeysFor(username, address))
    {
      var keys := KeysFor(username, address);
      var i := 0;
      assert attempts == SucceedKeys(attempts, keys[..0]);
      while i < |keys|
        invariant 0 <= i <= |keys|
        invariant attempts == SucceedKeys(old(attempts), keys[..i])
      {
        assert keys[..i + 1] == keys[..i] + [keys[i]];
        attempts := attempts - {keys[i]};
        i := i + 1;
      }
      assert keys[..|keys|] == keys;
    }

    // Only once the table is full; an entry still locked or still counting stays.
    method Sweep(now: int)
      modifies this
      ensures attempts == Swept(limits, old(attempts), now)
    {
      if |attempts| < limits.maxTracked {
        return;
      }
      var pending := attempts.Keys;
      while pending != {}
        invariant pending <= attempts.Keys <= old(attempts).Keys
        invariant forall key :: key in attempts ==> attempts[key] == old(attempts)[key]
        invariant forall key :: key in old(attempts) && key !in pending ==>
                    (key in attempts <==> !Stale(limits, old(attempts)[key], now))
        decreases |pending|
      {
        var key :| key in pending;
        pending := pending - {key};
        if Stale(limits, attempts[key], now) {
          attempts := attempts - {key};
        }
      }
    }
  }

  // ----- Logging in -----

  // A login asks at one instant and is settled at another; the password was right or not.
  datatype Login = Login(username: string, address: string, askedAt: int, settledAt: int, good: bool)

  datatype Verdict = RateLimited | InvalidCredentials | Accepted

  function Keys(login: Login): seq<string> {
    KeysFor(login.username, login.address)
  }

  function Attempted(limits: Limits, attempts: Attempts, login: Login): (Verdict, Attempts) {
    var (ok, allowed) := AllowKeys(limits, attempts, Keys(login), login.askedAt);
    if !ok then (RateLimited, allowed)
    else if login.good then (Accepted, SucceedKeys(allowed, Keys(login)))
    else (InvalidCredentials, FailKeys(limits, allowed, Keys(login), login.settledAt))
  }

  method LogIn(limiter: Limiter, login: Login) returns (verdict: Verdict)
    modifies limiter
    ensures (verdict, limiter.attempts) == Attempted(limiter.limits, old(limiter.attempts), login)
  {
    var ok := limiter.Allow(login.username, login.address, login.askedAt);
    if !ok {
      return RateLimited;
    }
    if !login.good {
      limiter.Fail(login.username, login.address, login.settledAt);
      return InvalidCredentials;
    }
    limiter.Succeed(login.username, login.address);
    return Accepted;
  }

  // ----- Runs of logins, one after another -----

  predicate Timely(clock: int, logins: seq<Login>)
    decreases |logins|
  {
    logins == [] ||
    (clock <= logins[0].askedAt <= logins[0].settledAt && Timely(logins[0].settledAt, logins[1..]))
  }

  function After(limits: Limits, attempts: Attempts, logins: seq<Login>): Attempts
    decreases |logins|
  {
    if logins == [] then attempts
    else After(limits, Attempted(limits, attempts, logins[0]).1, logins[1..])
  }

  function Verdicts(limits: Limits, attempts: Attempts, logins: seq<Login>): (r: seq<Verdict>)
    ensures |r| == |logins|
    decreases |logins|
  {
    if logins == [] then []
    else
      var (verdict, next) := Attempted(limits, attempts, logins[0]);
      [verdict] + Verdicts(limits, next, logins[1..])
  }
}
