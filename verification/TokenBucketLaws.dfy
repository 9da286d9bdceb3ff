/**
 What the buckets let through: bursts and steady callers of the rate limiter, and the
 failed logins that close an email, in numbers. Times are nanoseconds.
 */
module TokenBucketLaws {
  import opened Decimals
  import opened TokenBuckets
  import opened TokenBucketRuns
  import opened ThrottleRuns

  // ----- The rate limiter -----

  /** Tokens after a time of refilling, up to the capacity. */
  function TokensAt(b: Bucket, now: int, burst: real, per: real): real
    requires per > 0.0
  {
    Min(burst, b.tokens + (now - b.last) as real / per)
  }

  /** A call is admitted exactly when a whole token is there, and takes exactly one; a refused call takes none. */
  lemma CallTakesOneToken(b: Bucket, now: int, burst: real, per: real)
    requires per > 0.0
    ensures var (b', ok, wait) := Allowed(b, now, burst, per);
      && (ok <==> TokensAt(b, now, burst, per) >= 1.0) && b'.last == now
      && b'.tokens == TokensAt(b, now, burst, per) - (if ok then 1.0 else 0.0)
      && (ok ==> wait == 0)
      && (!ok ==> wait == ((1.0 - TokensAt(b, now, burst, per)) * per).Floor)
  {
  }

  ghost predicate AllOf(calls: seq<Call>, key: string) {
    forall i :: 0 <= i < |calls| ==> calls[i].key == key
  }

  lemma NoGainAtOnce(b: Bucket, burst: real, per: real)
    requires per > 0.0
    ensures TokensAt(b, b.last, burst, per) == Min(burst, b.tokens)
  {
    GainOfZero(per);
  }

  /** Tokens left after n calls at once. */
  function Left(burst: real, n: nat): real {
    if n as real <= burst then burst - n as real else burst - burst.Floor as real
  }

  lemma LeftNext(burst: real, n: nat)
    requires burst >= 0.0 && n > 0
    ensures Left(burst, n) == Left(burst, n - 1) - if Left(burst, n - 1) >= 1.0 then 1.0 else 0.0
    ensures Left(burst, n) >= 0.0 && Left(burst, 0) == burst && (Left(burst, n - 1) >= 1.0 <==> n as real <= burst)
  {
    if n as real > burst && (n - 1) as real <= burst {
      assert burst.Floor == n - 1;
    }
  }

  lemma {:induction false} BurstLeaves(calls: seq<Call>, n: nat, key: string, now: int, burst: real, per: real)
    requires 0 < n <= |calls| && per > 0.0 && burst >= 0.0
    requires AllOf(calls, key) && forall i :: 0 <= i < |calls| ==> calls[i].at == now
    ensures var m := After(calls, n, burst, per);
      key in m && m[key] == Bucket(Left(burst, n), now)
  {
    var b := BucketOf(After(calls, n - 1, burst, per), key, burst, now);
    if n > 1 {
      BurstLeaves(calls, n - 1, key, now, burst, per);
      LeftNext(burst, n - 1);
    }
    LeftNext(burst, n);
    NoGainAtOnce(b, burst, per);
    CallTakesOneToken(b, now, burst, per);
  }

  /** Of calls at one time on a fresh key, exactly as many as the burst holds whole tokens are admitted, the first ones. */
  lemma BurstIsAdmitted(calls: seq<Call>, n: nat, key: string, now: int, burst: real, per: real)
    requires n < |calls| && per > 0.0 && burst >= 0.0
    requires AllOf(calls, key) && forall i :: 0 <= i < |calls| ==> calls[i].at == now
    ensures Admitted(calls, n, burst, per) <==> (n + 1) as real <= burst
  {
    var b := BucketOf(After(calls, n, burst, per), key, burst, now);
    if n > 0 {
      BurstLeaves(calls, n, key, now, burst, per);
      LeftNext(burst, n);
    }
    LeftNext(burst, n + 1);
    NoGainAtOnce(b, burst, per);
    CallTakesOneToken(b, now, burst, per);
  }

  /** Calls at least one refill time apart. */
  ghost predicate Spaced(calls: seq<Call>, per: real) {
    forall i :: 0 < i < |calls| ==> (calls[i].at - calls[i - 1].at) as real >= per
  }

  lemma RefillsOne(b: Bucket, now: int, burst: real, per: real)
    requires per > 0.0 && burst >= 1.0 && b.tokens >= 0.0 && (now - b.last) as real >= per
    ensures TokensAt(b, now, burst, per) >= 1.0
  {
    var gain := (now - b.last) as real / per;
    DivideBack((now - b.last) as real, per);
    Scale(1.0, gain, per);
  }

  /** With room for one token, a caller that waits out the refill time is never refused. */
  lemma {:induction false} SpacedCallsAreAdmitted(calls: seq<Call>, n: nat, key: string, burst: real, per: real)
    requires n < |calls| && per > 0.0 && burst >= 1.0 && AllOf(calls, key) && Spaced(calls, per)
    ensures Admitted(calls, n, burst, per)
    ensures var b := BucketOf(After(calls, n + 1, burst, per), key, burst, calls[n].at);
      b.last == calls[n].at && b.tokens >= 0.0
  {
    var b := BucketOf(After(calls, n, burst, per), key, burst, calls[n].at);
    if n == 0 {
      NoGainAtOnce(b, burst, per);
    } else {
      SpacedCallsAreAdmitted(calls, n - 1, key, burst, per);
      assert key in After(calls, n, burst, per);
      RefillsOne(b, calls[n].at, burst, per);
    }
    CallTakesOneToken(b, calls[n].at, burst, per);
  }

  // ----- The login throttle -----

  function AttemptsAt(b: Bucket, now: int): real {
    Min(5.0, b.tokens + (now - b.last) as real / 30000000000.0)
  }

  /** Pruning keeps exactly the buckets that hold fewer than five attempts. */
  lemma PrunesExactly(m: map<string, Bucket>, now: int)
    ensures forall k :: k in Pruned(m, now) <==> k in m && m[k].tokens + (now - m[k].last) as real / 30000000000.0 < 5.0
    ensures forall k :: k in Pruned(m, now) ==> Pruned(m, now)[k] == m[k]
  {
  }

  /** The check: used up exactly below one attempt, with the time until one is back, truncated. */
  lemma ChecksExactly(m: map<string, Bucket>, email: string, now: int)
    ensures var (m', empty, wait) := Asked(m, email, now);
      if email !in Pruned(m, now) then !empty && wait == 0 && m' == Pruned(m, now)
      else
        var held := AttemptsAt(m[email], now);
        && (empty <==> held < 1.0) && m' == Pruned(m, now)[email := Bucket(held, now)]
        && wait == if held < 1.0 then ((1.0 - held) * 30000000000.0).Floor else 0
  {
  }

  /** The charge: one attempt off what is held, unless nothing is; others stay but for an evicted one. */
  lemma ChargesExactly(m: map<string, Bucket>, email: string, now: int, victim: string)
    ensures var m', p := Failed(m, email, now, victim), Pruned(m, now);
      var full := email !in p && |p| >= 4096;
      var held := if email in p && !(full && victim == email) then AttemptsAt(m[email], now) else 5.0;
      && email in m' && m'[email] == Bucket(if held > 0.0 then held - 1.0 else held, now)
      && forall k :: k != email ==>
           && (k in m' <==> k in p && !(full && k == victim)) && (k in m' ==> m'[k] == m[k])
  {
    GainOfZero(FAIL_PER);
  }

  /** n failed logins of one email at one time. */
  function Failures(m: map<string, Bucket>, email: string, now: int, n: nat): map<string, Bucket> {
    if n == 0 then m else Failed(Failures(m, email, now, n - 1), email, now, "")
  }

  lemma FirstFailure(m: map<string, Bucket>, email: string, now: int)
    requires email !in Pruned(m, now) && |Pruned(m, now)| < 4096
    ensures var m' := Failed(m, email, now, ""); email in Pruned(m', now) && m'[email] == Bucket(4.0, now)
  {
    ChargesExactly(m, email, now, "");
    PrunesExactly(Failed(m, email, now, ""), now);
  }

  lemma NextFailure(m: map<string, Bucket>, email: string, now: int)
    requires email in Pruned(m, now) && m[email].last == now && m[email].tokens < 5.0
    ensures var m', held := Failed(m, email, now, ""), m[email].tokens;
      email in Pruned(m', now) && m'[email] == Bucket(if held > 0.0 then held - 1.0 else held, now)
  {
    ChargesExactly(m, email, now, "");
    PrunesExactly(Failed(m, email, now, ""), now);
  }

  lemma {:induction false} FailuresLeave(m: map<string, Bucket>, email: string, now: int, n: nat)
    requires n > 0 && email !in Pruned(m, now) && |Pruned(m, now)| < 4096
    ensures var m' := Failures(m, email, now, n);
      email in Pruned(m', now) && m'[email] == Bucket(if n <= 5 then 5.0 - n as real else 0.0, now)
  {
    if n == 1 {
      FirstFailure(m, email, now);
    } else {
      FailuresLeave(m, email, now, n - 1);
      NextFailure(Failures(m, email, now, n - 1), email, now);
    }
  }

  /**
   Five failed logins of an unknown email close it and four do not; it is open again half
   a minute later and not before, however many more failed.
   */
  lemma FiveFailuresClose(m: map<string, Bucket>, email: string, now: int, n: nat, later: nat)
    requires n > 0 && email !in Pruned(m, now) && |Pruned(m, now)| < 4096
    ensures var closed := Failures(m, email, now, n);
      && (Asked(closed, email, now).1 <==> n >= 5)
      && (n >= 5 ==> Asked(closed, email, now).2 == 30000000000
                     && (Asked(closed, email, now + later).1 <==> later < 30000000000))
  {
    FailuresLeave(m, email, now, n);
    var closed := Failures(m, email, now, n);
    ChecksExactly(closed, email, now);
    ChecksExactly(closed, email, now + later);
    assert AttemptsAt(closed[email], now) == closed[email].tokens;
  }

  /** A failed login that the check let through is one call of a limiter with five tokens, one back every half minute. */
  lemma GuardedFailureIsACall(m: map<string, Bucket>, email: string, now: int, victim: string)
    requires email in Pruned(m, now)
    ensures var (m', empty, wait) := Asked(m, email, now);
      var (b, ok, w) := Allowed(m[email], now, 5.0, 30000000000.0);
      && (empty <==> !ok) && wait == w
      && (!empty ==> Failed(m', email, now, victim)[email] == b)
  {
    var m' := Asked(m, email, now).0;
    ChecksExactly(m, email, now);
    CallTakesOneToken(m[email], now, 5.0, 30000000000.0);
    ChargesExactly(m', email, now, victim);
    GainOfZero(FAIL_PER);
    PrunesExactly(m, now);
    PrunesExactly(m', now);
  }

  /** In every run at most 4096 emails are remembered. */
  lemma RemembersFewEmails(ops: seq<Op>)
    requires Possible(ops)
    ensures |RunOf(ops)| <= 4096
  {
    NeverOverCap(ops);
  }
}
