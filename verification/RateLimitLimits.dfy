/** The limiter's bound on failures is exact: it is reached, and it holds for every run only when
    the lockout is longer than the window. */
module RateLimitLimits {
  import opened Wrappers
  import opened RateLimit
  import opened RateLimitTheory

  // Some window with no success on the key has more failures than the bound.
  predicate Exceeds(limits: Limits, clock: int, before: seq<Login>, span: seq<Login>, key: string, start: int) {
    var verdicts := Verdicts(limits, After(limits, map[], before), span);
    && Timely(clock, before + span)
    && NoSuccess(span, verdicts, key)
    && Failures(span, verdicts, key, start, start + limits.window) > Most(limits)
  }

  ghost predicate NeverExceeds(limits: Limits) {
    forall clock, before, span, key, start :: !Exceeds(limits, clock, before, span, key, start)
  }

  // ----- Wrong passwords of one user, from nowhere in particular -----

  const USER := "u"
  const KEY := "user:" + USER

  function Wrong(n: nat, at: int): seq<Login> {
    if n == 0 then [] else [Login(USER, "", at, at, false)] + Wrong(n - 1, at)
  }

  lemma WrongStep(limits: Limits, attempts: Attempts, at: int)
    requires Find(attempts, KEY).Some? ==> !Locked(attempts[KEY], at)
    ensures var (verdict, next) := Attempted(limits, attempts, Login(USER, "", at, at, false));
            verdict == InvalidCredentials && Find(next, KEY) == Some(Bump(limits, Find(attempts, KEY), at))
  {
    var login := Login(USER, "", at, at, false);
    assert Keys(login) == [KEY];
    RefusedIffLocked(limits, attempts, [KEY], at);
    LoginMoves(limits, attempts, login, KEY);
  }

  // The record a burst of wrong passwords adds to.
  function Base(limits: Limits, entry: Option<Attempt>, at: int): Attempt {
    if entry.None? || Expired(limits, entry.value, at) then Attempt(0, at, None) else entry.value
  }

  predicate AllWrong(verdicts: seq<Verdict>) {
    forall i :: 0 <= i < |verdicts| ==> verdicts[i] == InvalidCredentials
  }

  // A burst that does not take the record past the limit is charged in full.
  lemma {:induction false} BurstCharged(limits: Limits, attempts: Attempts, n: nat, at: int)
    requires 0 <= limits.window
    requires Find(attempts, KEY).Some? ==> !Locked(attempts[KEY], at)
    requires Base(limits, Find(attempts, KEY), at).failures + n <= limits.burst
    requires Base(limits, Find(attempts, KEY), at).firstSeen <= at
    ensures AllWrong(Verdicts(limits, attempts, Wrong(n, at)))
    ensures var base := Base(limits, Find(attempts, KEY), at);
            n > 0 ==> Find(After(limits, attempts, Wrong(n, at)), KEY)
                      == Some(Attempt(base.failures + n, base.firstSeen,
                                      if base.failures + n == limits.burst then Some(at + limits.lockout) else base.lockedTil))
    decreases n
  {
    if n > 0 {
      var login := Login(USER, "", at, at, false);
      var next := Attempted(limits, attempts, login).1;
      assert Wrong(n, at)[1..] == Wrong(n - 1, at);
      WrongStep(limits, attempts, at);
      if n > 1 {
        BurstCharged(limits, next, n - 1, at);
      } else {
        assert Wrong(0, at) == [];
      }
    }
  }

  // With a lockout that is over at once, nothing is ever refused at that instant.
  lemma {:induction false} NoLockout(limits: Limits, attempts: Attempts, n: nat, at: int)
    requires limits.lockout <= 0 <= limits.window && limits.burst > 0
    requires Find(attempts, KEY).Some? ==> !Locked(attempts[KEY], at)
    ensures AllWrong(Verdicts(limits, attempts, Wrong(n, at)))
    decreases n
  {
    if n > 0 {
      assert Wrong(n, at)[1..] == Wrong(n - 1, at);
      WrongStep(limits, attempts, at);
      NoLockout(limits, Attempted(limits, attempts, Login(USER, "", at, at, false)).1, n - 1, at);
    }
  }

  // ----- Putting bursts together -----

  lemma {:induction false} VerdictsConcat(limits: Limits, attempts: Attempts, a: seq<Login>, b: seq<Login>)
    ensures After(limits, attempts, a + b) == After(limits, After(limits, attempts, a), b)
    ensures Verdicts(limits, attempts, a + b)
            == Verdicts(limits, attempts, a) + Verdicts(limits, After(limits, attempts, a), b)
    decreases |a|
  {
    if a == [] {
      assert a + b == b;
    } else {
      assert (a + b)[1..] == a[1..] + b;
      VerdictsConcat(limits, Attempted(limits, attempts, a[0]).1, a[1..], b);
    }
  }

  lemma {:induction false} TimelyBurst(clock: int, n: nat, at: int, later: seq<Login>)
    requires clock <= at && Timely(at, later)
    ensures Timely(clock, Wrong(n, at) + later)
    decreases n
  {
    if n == 0 {
      assert Wrong(n, at) + later == later;
      if later != [] {
        assert clock <= later[0].askedAt;
      }
    } else {
      assert (Wrong(n, at) + later)[1..] == Wrong(n - 1, at) + later;
      TimelyBurst(at, n - 1, at, later);
    }
  }

  lemma {:induction false} BurstCounts(n: nat, at: int, verdicts: seq<Verdict>, later: seq<Login>, more: seq<Verdict>, start: int, end: int)
    requires |verdicts| == |Wrong(n, at)| && |more| == |later| && AllWrong(verdicts)
    ensures Failures(Wrong(n, at) + later, verdicts + more, KEY, start, end)
            == (if start <= at <= end then n else 0) + Failures(later, more, KEY, start, end)
    decreases n
  {
    if n == 0 {
      assert Wrong(n, at) + later == later && verdicts + more == more;
    } else {
      var logins := Wrong(n, at) + later;
      assert Wrong(n, at)[1..] == Wrong(n - 1, at);
      assert logins[1..] == Wrong(n - 1, at) + later && (verdicts + more)[1..] == verdicts[1..] + more;
      BurstCounts(n - 1, at, verdicts[1..], later, more, start, end);
      assert Keys(logins[0]) == [KEY];
    }
  }

  // A run charged in full: how many of its failures fall into a window.
  predicate ChargedRun(limits: Limits, attempts: Attempts, logins: seq<Login>, start: int, end: int, count: nat) {
    var verdicts := Verdicts(limits, attempts, logins);
    AllWrong(verdicts) && Failures(logins, verdicts, KEY, start, end) == count
  }

  lemma Chain(limits: Limits, attempts: Attempts, n: nat, at: int, later: seq<Login>, start: int, end: int, count: nat)
    requires AllWrong(Verdicts(limits, attempts, Wrong(n, at)))
    requires ChargedRun(limits, After(limits, attempts, Wrong(n, at)), later, start, end, count)
    ensures ChargedRun(limits, attempts, Wrong(n, at) + later, start, end, (if start <= at <= end then n else 0) + count)
  {
    VerdictsConcat(limits, attempts, Wrong(n, at), later);
    BurstCounts(n, at, Verdicts(limits, attempts, Wrong(n, at)), later,
                Verdicts(limits, After(limits, attempts, Wrong(n, at)), later), start, end);
  }

  lemma Single(limits: Limits, attempts: Attempts, n: nat, at: int, start: int, end: int)
    requires AllWrong(Verdicts(limits, attempts, Wrong(n, at)))
    ensures ChargedRun(limits, attempts, Wrong(n, at), start, end, if start <= at <= end then n else 0)
  {
    Chain(limits, attempts, n, at, [], start, end, 0);
    assert Wrong(n, at) + [] == Wrong(n, at);
  }

  lemma TimelySingle(clock: int, n: nat, at: int)
    requires clock <= at
    ensures Timely(clock, Wrong(n, at))
  {
    TimelyBurst(clock, n, at, []);
    assert Wrong(n, at) + [] == Wrong(n, at);
  }

  // One wrong password at 0, some more at 1, and a full burst just after the first has expired.
  function Staggered(limits: Limits, more: nat): seq<Login>
    requires limits.burst > 0
  {
    Wrong(1, 0) + (Wrong(more, 1) + Wrong(limits.burst, limits.window + 1))
  }

  lemma StaggeredTimely(limits: Limits, more: nat)
    requires limits.burst > 0 && 0 <= limits.window
    ensures Timely(0, Staggered(limits, more))
  {
    var last := Wrong(limits.burst, limits.window + 1);
    TimelySingle(1, limits.burst, limits.window + 1);
    TimelyBurst(0, more, 1, last);
    TimelyBurst(0, 1, 0, Wrong(more, 1) + last);
  }

  // The second and the third burst on a record of the first.
  lemma StaggeredTail(limits: Limits, one: Attempts, more: nat)
    requires limits.burst > 1 && 1 <= limits.window
    requires more + 1 < limits.burst || (more + 1 == limits.burst && limits.lockout <= limits.window)
    requires Find(one, KEY) == Some(Attempt(1, 0, None))
    ensures ChargedRun(limits, one, Wrong(more, 1) + Wrong(limits.burst, limits.window + 1),
                       1, 1 + limits.window, more + limits.burst)
  {
    var end := 1 + limits.window;
    BurstCharged(limits, one, more, 1);
    assert more == 0 ==> Wrong(more, 1) == [];
    var two := After(limits, one, Wrong(more, 1));
    BurstCharged(limits, two, limits.burst, end);
    Single(limits, two, limits.burst, end, 1, end);
    Chain(limits, one, more, 1, Wrong(limits.burst, end), 1, end, limits.burst);
  }

  lemma StaggeredRun(limits: Limits, more: nat)
    requires limits.burst > 1 && 1 <= limits.window
    requires more + 1 < limits.burst || (more + 1 == limits.burst && limits.lockout <= limits.window)
    ensures Timely(0, Staggered(limits, more))
    ensures ChargedRun(limits, map[], Staggered(limits, more), 1, 1 + limits.window, more + limits.burst)
  {
    StaggeredTimely(limits, more);
    BurstCharged(limits, map[], 1, 0);
    StaggeredTail(limits, After(limits, map[], Wrong(1, 0)), more);
    Chain(limits, map[], 1, 0, Wrong(more, 1) + Wrong(limits.burst, limits.window + 1),
          1, 1 + limits.window, more + limits.burst);
  }

  /** The bound is reached: whatever the burst and the window, a single instant included, some run
      charges a key exactly that many failures within one window. */
  lemma BoundIsReached(limits: Limits) returns (logins: seq<Login>, start: int)
    requires limits.burst > 0 && 0 <= limits.window
    ensures Timely(0, logins) && NoSuccess(logins, Verdicts(limits, map[], logins), KEY)
    ensures Failures(logins, Verdicts(limits, map[], logins), KEY, start, start + limits.window) == Most(limits)
  {
    if limits.burst > 1 && limits.window > 0 {
      StaggeredRun(limits, limits.burst - 2);
      logins, start := Staggered(limits, limits.burst - 2), 1;
    } else {
      BurstCharged(limits, map[], limits.burst, 0);
      TimelySingle(0, limits.burst, 0);
      Single(limits, map[], limits.burst, 0, 0, limits.window);
      logins, start := Wrong(limits.burst, 0), 0;
    }
  }

  // ----- A lockout within the window -----

  // A run charged in full that exceeds the bound.
  lemma ChargedExceeds(limits: Limits, logins: seq<Login>, start: int, count: nat)
    requires Timely(0, logins) && ChargedRun(limits, map[], logins, start, start + limits.window, count)
    requires count > Most(limits)
    ensures Exceeds(limits, 0, [], logins, KEY, start)
  {
    assert [] + logins == logins;
  }

  lemma Overrun(limits: Limits) returns (logins: seq<Login>, start: int)
    requires limits.burst > 0 && 0 <= limits.window && limits.lockout <= limits.window
    ensures Exceeds(limits, 0, [], logins, KEY, start)
  {
    if limits.burst > 1 && limits.window > 0 {
      StaggeredRun(limits, limits.burst - 1);
      logins, start := Staggered(limits, limits.burst - 1), 1;
      ChargedExceeds(limits, logins, 1, 2 * limits.burst - 1);
    } else if limits.window == 0 {
      var n := 2 * limits.burst;
      NoLockout(limits, map[], n, 0);
      TimelySingle(0, n, 0);
      Single(limits, map[], n, 0, 0, 0);
      logins, start := Wrong(n, 0), 0;
      ChargedExceeds(limits, logins, 0, n);
    } else {
      logins, start := TwoFailures(limits);
      ChargedExceeds(limits, logins, start, 2);
    }
  }

  lemma TwoFailures(limits: Limits) returns (logins: seq<Login>, start: int)
    requires limits.burst == 1 && 0 <= limits.window && limits.lockout <= limits.window
    ensures Timely(0, logins) && ChargedRun(limits, map[], logins, start, start + limits.window, 2)
  {
    var w := limits.window;
    logins, start := Wrong(1, 0) + Wrong(1, w), 0;
    TimelySingle(0, 1, w);
    TimelyBurst(0, 1, 0, Wrong(1, w));
    BurstCharged(limits, map[], 1, 0);
    var one := After(limits, map[], Wrong(1, 0));
    WrongStep(limits, one, w);
    assert Wrong(1, w) == [Login(USER, "", w, w, false)] + Wrong(0, w);
    Single(limits, one, 1, w, 0, w);
    Chain(limits, map[], 1, 0, Wrong(1, w), 0, w, 1);
  }

  lemma {:induction false} NothingInNoTime(logins: seq<Login>, verdicts: seq<Verdict>, key: string, start: int, end: int)
    requires |logins| == |verdicts| && end < start
    ensures Failures(logins, verdicts, key, start, end) == 0
  {
    if logins != [] {
      NothingInNoTime(logins[1..], verdicts[1..], key, start, end);
    }
  }

  /** The bound holds for every run if and only if the lockout is longer than the window, or the
      window is negative and so never holds an instant. */
  lemma BoundedIffLockoutOutlasts(limits: Limits)
    requires limits.burst > 0
    ensures NeverExceeds(limits) <==> limits.lockout > limits.window || limits.window < 0
  {
    if limits.lockout > limits.window || limits.window < 0 {
      forall clock, before, span, key, start | Exceeds(limits, clock, before, span, key, start) ensures false {
        if limits.window < 0 {
          NothingInNoTime(span, Verdicts(limits, After(limits, map[], before), span), key, start, start + limits.window);
        } else {
          FailuresAreBounded(limits, clock, before, span, key, start);
        }
      }
    } else {
      var logins, start := Overrun(limits);
    }
  }
}
