/** What the login limiter guarantees over every run of logins. */
module RateLimitTheory {
  import opened Wrappers
  import opened RateLimit

  // ----- What one call does to one key -----

  predicate Dropped(limits: Limits, was: Option<Attempt>, later: Option<Attempt>, now: int) {
    later.None? && was.Some? && Expired(limits, was.value, now) && !Locked(was.value, now)
  }

  lemma {:induction false} AllowView(limits: Limits, attempts: Attempts, keys: seq<string>, now: int, key: string)
    requires forall i, j :: 0 <= i < j < |keys| ==> keys[i] != keys[j]
    ensures var (ok, next) := AllowKeys(limits, attempts, keys, now);
            var was, later := Find(attempts, key), Find(next, key);
            && (later == was || Dropped(limits, was, later, now))
            && (key !in keys ==> later == was)
            && (ok && key in keys && was.Some? ==>
                  !Locked(was.value, now) && (Expired(limits, was.value, now) ==> later.None?))
            && (key in keys && was.Some? && Locked(was.value, now) ==> !ok && later == was)
    decreases |keys|
  {
    if keys != [] {
      var rest := keys[1..];
      assert key in keys <==> key == keys[0] || key in rest;
      assert keys[0] !in rest;
      if keys[0] !in attempts {
        AllowView(limits, attempts, rest, now, key);
      } else if !Locked(attempts[keys[0]], now) {
        if Expired(limits, attempts[keys[0]], now) {
          AllowView(limits, attempts - {keys[0]}, rest, now, key);
        } else {
          AllowView(limits, attempts, rest, now, key);
        }
      }
    }
  }

  /** A login is refused exactly when one of its keys is locked. */
  lemma {:induction false} RefusedIffLocked(limits: Limits, attempts: Attempts, keys: seq<string>, now: int)
    requires forall i, j :: 0 <= i < j < |keys| ==> keys[i] != keys[j]
    ensures AllowKeys(limits, attempts, keys, now).0
            <==> forall key :: key in keys && key in attempts ==> !Locked(attempts[key], now)
    decreases |keys|
  {
    if keys != [] {
      var rest := keys[1..];
      assert forall key :: key in keys <==> key == keys[0] || key in rest;
      assert keys[0] !in rest;
      RefusedIffLocked(limits, attempts, rest, now);
      RefusedIffLocked(limits, attempts - {keys[0]}, rest, now);
    }
  }

  lemma {:induction false} BumpView(limits: Limits, attempts: Attempts, keys: seq<string>, now: int, key: string)
    requires forall i, j :: 0 <= i < j < |keys| ==> keys[i] != keys[j]
    ensures Find(BumpKeys(limits, attempts, keys, now), key)
            == if key in keys then Some(Bump(limits, Find(attempts, key), now)) else Find(attempts, key)
    decreases |keys|
  {
    if keys != [] {
      var rest := keys[1..];
      assert key in keys <==> key == keys[0] || key in rest;
      assert keys[0] !in rest;
      BumpView(limits, attempts[keys[0] := Bump(limits, Find(attempts, keys[0]), now)], rest, now, key);
    }
  }

  // How one login moves one key: admitting may drop it, sweeping may drop it, and then the login
  // is settled on it when the key is one of the login's own.
  ghost predicate Moves(limits: Limits, login: Login, key: string, verdict: Verdict, was: Option<Attempt>, later: Option<Attempt>) {
    exists admitted: Option<Attempt> :: Via(limits, login, key, verdict, was, admitted, later)
  }

  predicate Via(limits: Limits, login: Login, key: string, verdict: Verdict,
                was: Option<Attempt>, admitted: Option<Attempt>, later: Option<Attempt>)
  {
    && (admitted == was || Dropped(limits, was, admitted, login.askedAt))
    && (!verdict.RateLimited? && key in Keys(login) && was.Some? ==>
          !Locked(was.value, login.askedAt) && (Expired(limits, was.value, login.askedAt) ==> admitted.None?))
    && match verdict
       case RateLimited => later == admitted
       case Accepted => later == if key in Keys(login) then None else admitted
       case InvalidCredentials =>
         if key in Keys(login) then later == Some(Bump(limits, admitted, login.settledAt))
         else later == admitted || Dropped(limits, admitted, later, login.settledAt)
  }

  lemma LoginMoves(limits: Limits, attempts: Attempts, login: Login, key: string)
    ensures var (verdict, next) := Attempted(limits, attempts, login);
            Moves(limits, login, key, verdict, Find(attempts, key), Find(next, key))
  {
    var (ok, allowed) := AllowKeys(limits, attempts, Keys(login), login.askedAt);
    var (verdict, next) := Attempted(limits, attempts, login);
    AllowView(limits, attempts, Keys(login), login.askedAt, key);
    if verdict.InvalidCredentials? {
      BumpView(limits, Swept(limits, allowed, login.settledAt), Keys(login), login.settledAt, key);
    }
    assert Via(limits, login, key, verdict, Find(attempts, key), Find(allowed, key), Find(next, key));
  }

  // ----- A lock holds -----

  /** A key locked until an instant refuses every login on it that asks before that instant,
      whatever other logins come in between. */
  lemma {:induction false} LockHolds(limits: Limits, attempts: Attempts, clock: int, logins: seq<Login>,
                                     key: string, until: int, i: nat)
    requires Timely(clock, logins) && i < |logins|
    requires key in attempts && attempts[key].lockedTil == Some(until)
    requires key in Keys(logins[i]) && logins[i].askedAt < until
    ensures Verdicts(limits, attempts, logins)[i] == RateLimited
    decreases |logins|
  {
    var next := Attempted(limits, attempts, logins[0]).1;
    LoginMoves(limits, attempts, logins[0], key);
    if i > 0 {
      TimelyAt(logins[0].settledAt, logins[1..], i - 1);
      assert Find(next, key) == Find(attempts, key);
      LockHolds(limits, next, logins[0].settledAt, logins[1..], key, until, i - 1);
    }
  }

  lemma {:induction false} TimelyAt(clock: int, logins: seq<Login>, i: nat)
    requires Timely(clock, logins) && i < |logins|
    ensures clock <= logins[i].askedAt <= logins[i].settledAt
    decreases |logins|
  {
    if i > 0 {
      TimelyAt(logins[0].settledAt, logins[1..], i - 1);
    }
  }

  /** An accepted login clears its own keys and unlocks nothing else: another key keeps its
      record, unless that had expired and was not locked. */
  lemma SuccessClears(limits: Limits, attempts: Attempts, login: Login, key: string)
    requires Attempted(limits, attempts, login).0.Accepted?
    ensures var next := Attempted(limits, attempts, login).1;
            if key in Keys(login) then key !in next
            else Find(next, key) == Find(attempts, key) || Dropped(limits, Find(attempts, key), Find(next, key), login.askedAt)
  {
    LoginMoves(limits, attempts, login, key);
  }

  // ----- How many failures fit into one window -----

  predicate Charged(login: Login, verdict: Verdict, key: string, start: int, end: int) {
    verdict.InvalidCredentials? && key in Keys(login) && start <= login.settledAt <= end
  }

  function Failures(logins: seq<Login>, verdicts: seq<Verdict>, key: string, start: int, end: int): nat
    requires |logins| == |verdicts|
  {
    if logins == [] then 0
    else (if Charged(logins[0], verdicts[0], key, start, end) then 1 else 0)
         + Failures(logins[1..], verdicts[1..], key, start, end)
  }

  predicate NoSuccess(logins: seq<Login>, verdicts: seq<Verdict>, key: string)
    requires |logins| == |verdicts|
  {
    forall i :: 0 <= i < |logins| && verdicts[i].Accepted? ==> key !in Keys(logins[i])
  }

  // The larger of burst and 2 * burst - 2; a window of a single instant has room for one burst.
  function Most(limits: Limits): int {
    if limits.window > 0 && 2 * limits.burst - 2 > limits.burst then 2 * limits.burst - 2 else limits.burst
  }

  // What a record can look like when a lock outlasts the window.
  predicate Sound(limits: Limits, entry: Option<Attempt>, clock: int) {
    entry.Some? ==>
      var e := entry.value;
      && 1 <= e.failures <= limits.burst && e.firstSeen <= clock
      && (e.lockedTil.Some? <==> e.failures == limits.burst)
      && (e.lockedTil.Some? ==> e.firstSeen + limits.lockout <= e.lockedTil.value)
  }

  // How many failures the window that opened at start still has room for, once it is open.
  function Room(limits: Limits, entry: Option<Attempt>, clock: int, start: int): int {
    var end := start + limits.window;
    if clock > end then 0
    else if entry.None? then limits.burst
    else
      var e := entry.value;
      if e.firstSeen >= start then limits.burst - e.failures
      else if e.lockedTil.None? then (if limits.window > 0 then 2 * limits.burst - 1 - e.failures else limits.burst)
      else if e.lockedTil.value > end then 0
      else limits.burst
  }

  predicate Outlasts(limits: Limits) {
    limits.burst > 0 && limits.lockout > limits.window
  }

  lemma MoveKeepsSound(limits: Limits, login: Login, key: string, verdict: Verdict,
                       was: Option<Attempt>, later: Option<Attempt>, clock: int)
    requires Outlasts(limits) && clock <= login.askedAt <= login.settledAt
    requires Sound(limits, was, clock) && Moves(limits, login, key, verdict, was, later)
    ensures Sound(limits, later, login.settledAt)
  {
  }

  function Cost(login: Login, verdict: Verdict, key: string, start: int, end: int): nat {
    if Charged(login, verdict, key, start, end) then 1 else 0
  }

  lemma MovePays(limits: Limits, login: Login, key: string, verdict: Verdict,
                 was: Option<Attempt>, later: Option<Attempt>, clock: int, start: int)
    requires Outlasts(limits) && start <= clock <= login.askedAt <= login.settledAt
    requires Sound(limits, was, clock) && Moves(limits, login, key, verdict, was, later)
    requires verdict.Accepted? ==> key !in Keys(login)
    ensures Cost(login, verdict, key, start, start + limits.window) + Room(limits, later, login.settledAt, start)
            <= Room(limits, was, clock, start)
    ensures 0 <= Room(limits, later, login.settledAt, start)
  {
  }

  // The login during which the window opens.
  lemma MoveOpens(limits: Limits, login: Login, key: string, verdict: Verdict,
                  was: Option<Attempt>, later: Option<Attempt>, clock: int, start: int)
    requires Outlasts(limits) && clock <= login.askedAt <= login.settledAt && clock < start <= login.settledAt
    requires Sound(limits, was, clock) && Moves(limits, login, key, verdict, was, later)
    ensures Cost(login, verdict, key, start, start + limits.window) + Room(limits, later, login.settledAt, start)
            <= Most(limits)
  {
  }

  lemma {:induction false} OpenWindow(limits: Limits, attempts: Attempts, clock: int, logins: seq<Login>, key: string, start: int)
    requires Outlasts(limits) && start <= clock && Timely(clock, logins)
    requires Sound(limits, Find(attempts, key), clock)
    requires NoSuccess(logins, Verdicts(limits, attempts, logins), key)
    ensures Failures(logins, Verdicts(limits, attempts, logins), key, start, start + limits.window)
            <= Room(limits, Find(attempts, key), clock, start)
    decreases |logins|
  {
    if logins != [] {
      var (verdict, next) := Attempted(limits, attempts, logins[0]);
      var was, later := Find(attempts, key), Find(next, key);
      LoginMoves(limits, attempts, logins[0], key);
      MoveKeepsSound(limits, logins[0], key, verdict, was, later, clock);
      var verdicts := Verdicts(limits, attempts, logins);
      assert verdicts[0] == verdict && verdicts[1..] == Verdicts(limits, next, logins[1..]);
      MovePays(limits, logins[0], key, verdict, was, later, clock, start);
      OpenWindow(limits, next, logins[0].settledAt, logins[1..], key, start);
    }
  }

  lemma {:induction false} AnyWindow(limits: Limits, attempts: Attempts, clock: int, logins: seq<Login>, key: string, start: int)
    requires Outlasts(limits) && Timely(clock, logins)
    requires Sound(limits, Find(attempts, key), clock)
    requires NoSuccess(logins, Verdicts(limits, attempts, logins), key)
    ensures Failures(logins, Verdicts(limits, attempts, logins), key, start, start + limits.window) <= Most(limits)
    decreases |logins|
  {
    if start <= clock {
      OpenWindow(limits, attempts, clock, logins, key, start);
    } else if logins != [] {
      var (verdict, next) := Attempted(limits, attempts, logins[0]);
      var was, later := Find(attempts, key), Find(next, key);
      LoginMoves(limits, attempts, logins[0], key);
      MoveKeepsSound(limits, logins[0], key, verdict, was, later, clock);
      var verdicts := Verdicts(limits, attempts, logins);
      assert verdicts[0] == verdict && verdicts[1..] == Verdicts(limits, next, logins[1..]);
      if start <= logins[0].settledAt {
        MoveOpens(limits, logins[0], key, verdict, was, later, clock, start);
        OpenWindow(limits, next, logins[0].settledAt, logins[1..], key, start);
      } else {
        AnyWindow(limits, next, logins[0].settledAt, logins[1..], key, start);
      }
    }
  }

  function ClockAfter(clock: int, logins: seq<Login>): int {
    if logins == [] then clock else logins[|logins| - 1].settledAt
  }

  lemma {:induction false} RunsStaySound(limits: Limits, attempts: Attempts, clock: int, before: seq<Login>, span: seq<Login>, key: string)
    requires Outlasts(limits) && Timely(clock, before + span) && Sound(limits, Find(attempts, key), clock)
    ensures Timely(ClockAfter(clock, before), span)
    ensures Sound(limits, Find(After(limits, attempts, before), key), ClockAfter(clock, before))
    decreases |before|
  {
    if before == [] {
      assert before + span == span;
    } else {
      var (verdict, next) := Attempted(limits, attempts, before[0]);
      assert (before + span)[1..] == before[1..] + span;
      LoginMoves(limits, attempts, before[0], key);
      MoveKeepsSound(limits, before[0], key, verdict, Find(attempts, key), Find(next, key), clock);
      RunsStaySound(limits, next, before[0].settledAt, before[1..], span, key);
      assert ClockAfter(before[0].settledAt, before[1..]) == ClockAfter(clock, before);
    }
  }

  /** When the lockout is longer than the window, no window of that length with no success on a
      key has more than max(burst, 2 * burst - 2) failures charged to it, after any history; a
      window of a single instant has no more than burst. */
  lemma FailuresAreBounded(limits: Limits, clock: int, before: seq<Login>, span: seq<Login>, key: string, start: int)
    requires Outlasts(limits) && Timely(clock, before + span)
    requires NoSuccess(span, Verdicts(limits, After(limits, map[], before), span), key)
    ensures Failures(span, Verdicts(limits, After(limits, map[], before), span), key, start, start + limits.window)
            <= Most(limits)
  {
    RunsStaySound(limits, map[], clock, before, span, key);
    AnyWindow(limits, After(limits, map[], before), ClockAfter(clock, before), span, key, start);
  }

  // ----- Keys, sweeping, defaults -----

  /** Two logins are counted together exactly when they name the same user, or come from the same
      address, and do name or have one; a user name and an address are never confused. */
  lemma CountedTogether(a: Login, b: Login)
    ensures (exists key :: key in Keys(a) && key in Keys(b)) <==>
            (a.username != "" && a.username == b.username) || (a.address != "" && a.address == b.address)
  {
    KeysAre(a);
    KeysAre(b);
    assert "user:" + a.username == "user:" + b.username ==> a.username == b.username by {
      assert ("user:" + a.username)[5..] == a.username && ("user:" + b.username)[5..] == b.username;
    }
    assert "addr:" + a.address == "addr:" + b.address ==> a.address == b.address by {
      assert ("addr:" + a.address)[5..] == a.address && ("addr:" + b.address)[5..] == b.address;
    }
    assert ("user:" + a.username)[0] != ("addr:" + b.address)[0] && ("user:" + b.username)[0] != ("addr:" + a.address)[0];
    if a.username != "" && a.username == b.username {
      assert "user:" + a.username in Keys(a) && "user:" + a.username in Keys(b);
    }
    if a.address != "" && a.address == b.address {
      assert "addr:" + a.address in Keys(a) && "addr:" + a.address in Keys(b);
    }
  }

  lemma KeysAre(login: Login)
    ensures forall key :: key in Keys(login) <==>
              (login.username != "" && key == "user:" + login.username) || (login.address != "" && key == "addr:" + login.address)
  {
  }

  /** A sweep leaves a table that is not full alone, and removes from a full one exactly the
      records that are past their lock, if any, and past the window. */
  lemma SweepRemovesExactly(limits: Limits, attempts: Attempts, now: int, key: string)
    requires key in attempts
    ensures var e := attempts[key];
            key in Swept(limits, attempts, now) <==>
              || |attempts| < limits.maxTracked
              || (e.lockedTil.Some? && now <= e.lockedTil.value)
              || now <= e.firstSeen + limits.window
  {
  }

  /** With the default limits no five minutes without a success on a key hold more than 14
      failures charged to it, after any history. */
  lemma DefaultBound(clock: int, before: seq<Login>, span: seq<Login>, key: string, start: int)
    requires Timely(clock, before + span)
    requires NoSuccess(span, Verdicts(DEFAULT_LIMITS, After(DEFAULT_LIMITS, map[], before), span), key)
    ensures Failures(span, Verdicts(DEFAULT_LIMITS, After(DEFAULT_LIMITS, map[], before), span), key,
                     start, start + 300_000_000_000) <= 14
    ensures DEFAULT_LIMITS.burst == 8 && DEFAULT_LIMITS.lockout == 900_000_000_000 && DEFAULT_LIMITS.maxTracked == 10000
  {
    FailuresAreBounded(DEFAULT_LIMITS, clock, before, span, key, start);
  }
}
