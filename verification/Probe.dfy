/**
 * The reachability probe: attempts against a deadline, retried only while there is no path.
 *
 * Time is in nanoseconds since the probe started. The environment says how long each attempt would
 * take if left alone and how it would end; the probe cuts it off at its budget.
 */
module Probe {
  const SECOND := 1_000_000_000
  const PROBE_TIMEOUT := 45 * SECOND
  const NO_PATH_GRACE := 40 * SECOND
  const NO_PATH_RETRY_EVERY := 2 * SECOND

  datatype Ending = Reached | Failed(noPath: bool)
  datatype Attempt = Attempt(takes: nat, ending: Ending)
  type Env = nat -> Attempt

  datatype Verdict = Reachable | TransportDead | ServiceUnreachable

  /** The budget of an attempt that starts at `now`. */
  function Budget(now: nat): nat
  {
    var remaining := if now < NO_PATH_GRACE then NO_PATH_GRACE - now else 0;
    Min(PROBE_TIMEOUT, if remaining > SECOND then remaining else SECOND)
  }

  function Min(a: nat, b: nat): nat { if a < b then a else b }

  // ── The course of a probe ────────────────────────────────────────────────────────────────────

  /** When attempt `k` starts, if it is made. */
  function Start(env: Env, k: nat): nat
  {
    if k == 0 then 0 else Over(Start(env, k - 1), env(k - 1)) + NO_PATH_RETRY_EVERY
  }

  /** When an attempt that starts at `now` is over. */
  function Over(now: nat, a: Attempt): nat { now + Min(a.takes, Budget(now)) }

  predicate Expires(now: nat, a: Attempt) { a.takes > Budget(now) }

  /** The attempt completed without a path, before the deadline. */
  predicate Inconclusive(now: nat, a: Attempt)
  {
    !Expires(now, a) && a.ending == Failed(true) && Over(now, a) < NO_PATH_GRACE
  }

  function VerdictOf(now: nat, a: Attempt): Verdict
  {
    if Expires(now, a) then TransportDead
    else
      match a.ending
      case Reached => Reachable
      case Failed(noPath) => if noPath then TransportDead else ServiceUnreachable
  }

  function End(env: Env, k: nat): nat { Over(Start(env, k), env(k)) }

  predicate TimesOut(env: Env, k: nat) { Expires(Start(env, k), env(k)) }

  predicate Retries(env: Env, k: nat) { Inconclusive(Start(env, k), env(k)) }

  function Answer(env: Env, k: nat): Verdict { VerdictOf(Start(env, k), env(k)) }

  /** While attempts are retried, at least two and less than forty-two seconds per count pass. */
  lemma {:induction false} StartBounds(env: Env, k: nat)
    requires forall j: nat :: j < k ==> Retries(env, j)
    ensures k * NO_PATH_RETRY_EVERY <= Start(env, k)
    ensures k > 0 ==> Start(env, k) < NO_PATH_GRACE + NO_PATH_RETRY_EVERY
  {
    if k > 0 {
      StartBounds(env, k - 1);
      assert Retries(env, k - 1);
    }
  }

  /** Whatever the timings: at most 21 attempts, all over within 43 seconds. */
  lemma {:induction false} ProbeIsBounded(env: Env, k: nat)
    requires forall j: nat :: j < k ==> Retries(env, j)
    ensures k <= 20
    ensures End(env, k) < NO_PATH_GRACE + NO_PATH_RETRY_EVERY + SECOND
  {
    StartBounds(env, k);
  }

  /** One attempt: when it is over, whether to try again, and otherwise the verdict. */
  method MakeAttempt(a: Attempt, now: nat) returns (over: nat, again: bool, verdict: Verdict)
    ensures over == Over(now, a) && again == Inconclusive(now, a)
    ensures !again ==> verdict == VerdictOf(now, a)
  {
    var remaining := if now < NO_PATH_GRACE then NO_PATH_GRACE - now else 0;
    var budget := Min(PROBE_TIMEOUT, if remaining > SECOND then remaining else SECOND);
    if a.takes > budget { return now + budget, false, TransportDead; }
    over, again, verdict := now + a.takes, false, Reachable;
    if a.ending == Failed(false) {
      verdict := ServiceUnreachable;
    } else if a.ending == Failed(true) {
      again, verdict := over < NO_PATH_GRACE, TransportDead;
    }
  }

  ghost predicate AllRetried(env: Env, k: nat) { forall j: nat :: j < k ==> Retries(env, j) }

  lemma {:induction false} OneMoreRetry(env: Env, k: nat)
    requires AllRetried(env, k) && Retries(env, k)
    ensures AllRetried(env, k + 1) && Start(env, k + 1) == End(env, k) + NO_PATH_RETRY_EVERY && k + 1 <= 20
  {
    ProbeIsBounded(env, k + 1);
  }

  /** `probe_reachability`: the answer of the first attempt that is not retried. */
  method ProbeReachability(env: Env) returns (verdict: Verdict, attempts: nat, now: nat)
    ensures 1 <= attempts <= 21
    ensures now < 43 * SECOND
    ensures forall j: nat :: j < attempts - 1 ==> Retries(env, j)
    ensures !Retries(env, attempts - 1)
    ensures verdict == Answer(env, attempts - 1) && now == End(env, attempts - 1)
  {
    attempts, now := 0, 0;
    while true
      invariant AllRetried(env, attempts) && now == Start(env, attempts) && attempts <= 20
      decreases 20 - attempts
    {
      ghost var k := attempts;
      var again: bool;
      now, again, verdict := MakeAttempt(env(attempts), now);
      attempts := attempts + 1;
      if !again {
        ProbeIsBounded(env, k);
        return;
      }
      OneMoreRetry(env, k);
      now := now + NO_PATH_RETRY_EVERY;
    }
  }

  // ── What the verdicts mean ───────────────────────────────────────────────────────────────────

  ghost predicate Probed(env: Env, last: nat)
  {
    (forall j: nat :: j < last ==> Retries(env, j)) && !Retries(env, last)
  }

  /** A dead transport is declared only when the last attempt timed out, or every attempt completed
      without a path and the grace had run out. */
  lemma {:induction false} DeadMeansNoPath(env: Env, last: nat)
    requires Probed(env, last)
    ensures Answer(env, last) == TransportDead <==>
      || TimesOut(env, last)
      || (End(env, last) >= NO_PATH_GRACE
          && forall j: nat :: j <= last ==> !TimesOut(env, j) && env(j).ending == Failed(true))
  {
    if Answer(env, last) == TransportDead && !TimesOut(env, last) {
      forall j: nat | j <= last
        ensures !TimesOut(env, j) && env(j).ending == Failed(true)
      {
        assert j < last ==> Retries(env, j);
      }
    } else if Answer(env, last) != TransportDead {
      assert env(last).ending != Failed(true);
    }
  }

  /** The other verdicts are about the last attempt, which completed: it reached the service, or it
      had a path and still failed. */
  lemma {:induction false} LiveVerdicts(env: Env, last: nat)
    requires Probed(env, last)
    ensures Answer(env, last) == Reachable <==> !TimesOut(env, last) && env(last).ending == Reached
    ensures Answer(env, last) == ServiceUnreachable <==> !TimesOut(env, last) && env(last).ending == Failed(false)
  {
    assert !TimesOut(env, last) && env(last).ending == Reached ==> Answer(env, last) == Reachable;
  }

  /** One attempt over a working path is enough: it is the last, and the transport is kept. */
  lemma {:induction false} WorkingPathIsKept(env: Env, last: nat, j: nat)
    requires Probed(env, last) && j <= last && !TimesOut(env, j) && env(j).ending != Failed(true)
    ensures j == last && Answer(env, last) != TransportDead
  {
    assert j < last ==> Retries(env, j);
  }

  /** Both bounds are met exactly: instant failures use all 21 attempts … */
  lemma {:induction false} AllAttemptsUsed(env: Env)
    requires forall i: nat :: env(i) == Attempt(0, Failed(true))
    ensures Probed(env, 20)
  {
    forall j: nat | j <= 20
      ensures Retries(env, j) <==> j < 20
    {
      InstantRetry(env, j);
    }
  }

  lemma {:induction false} InstantRetry(env: Env, j: nat)
    requires forall i: nat :: env(i) == Attempt(0, Failed(true))
    ensures Retries(env, j) <==> j < 20
  {
    InstantStart(env, j);
    assert End(env, j) == j * NO_PATH_RETRY_EVERY;
  }

  lemma {:induction false} InstantStart(env: Env, j: nat)
    requires forall i: nat :: env(i) == Attempt(0, Failed(true))
    ensures Start(env, j) == j * NO_PATH_RETRY_EVERY
  {
    if j > 0 { InstantStart(env, j - 1); }
  }

  /** … and a failure just before the deadline makes the probe outlast its 40 seconds of grace by
      all but a nanosecond of three. */
  lemma {:induction false} GraceCanBeOutlasted()
    ensures exists env: Env :: Probed(env, 1) && End(env, 1) == NO_PATH_GRACE + NO_PATH_RETRY_EVERY + SECOND - 1
  {
    var env: Env := (k: nat) =>
      if k == 0 then Attempt(NO_PATH_GRACE - 1, Failed(true)) else Attempt(2 * SECOND, Reached);
    assert Start(env, 0) == 0 && End(env, 0) == NO_PATH_GRACE - 1;
    assert Start(env, 1) == NO_PATH_GRACE + NO_PATH_RETRY_EVERY - 1;
    assert TimesOut(env, 1);
    assert Retries(env, 0);
    assert Probed(env, 1);
  }
}
