/**
 Runs of the token buckets under a clock that does not step back: the window bound,
 what a returned wait is worth, and the throttle against one that never prunes.
 */
module TokenBucketRuns {
  import opened Decimals
  import opened TokenBuckets

  // ----- The window bound -----

  datatype Call = Call(key: string, at: int)

  ghost predicate Clock(calls: seq<Call>) {
    forall i, j :: 0 <= i < j < |calls| ==> calls[i].at <= calls[j].at
  }

  /** The limiter's buckets after n calls. */
  function After(calls: seq<Call>, n: nat, burst: real, per: real): map<string, Bucket>
    requires n <= |calls| && per > 0.0
  {
    if n == 0 then map[]
    else
      var m, c := After(calls, n - 1, burst, per), calls[n - 1];
      m[c.key := Allowed(BucketOf(m, c.key, burst, c.at), c.at, burst, per).0]
  }

  /** The n-th call is admitted. */
  predicate Admitted(calls: seq<Call>, n: nat, burst: real, per: real)
    requires n < |calls| && per > 0.0
  {
    Allowed(BucketOf(After(calls, n, burst, per), calls[n].key, burst, calls[n].at), calls[n].at, burst, per).1
  }

  /** Admitted calls of a key among those from i up to j. */
  function Count(calls: seq<Call>, key: string, i: nat, j: nat, burst: real, per: real): nat
    requires i <= j <= |calls| && per > 0.0
  {
    if i == j then 0
    else Count(calls, key, i, j - 1, burst, per)
         + if calls[j - 1].key == key && Admitted(calls, j - 1, burst, per) then 1 else 0
  }

  /** A key's bucket as it would be refilled at a time. */
  function Held(calls: seq<Call>, n: nat, key: string, now: int, burst: real, per: real): real
    requires n <= |calls| && per > 0.0
  {
    Min(burst, Level(BucketOf(After(calls, n, burst, per), key, burst, now), now, per))
  }

  lemma GainAdds(a: int, b: int, per: real)
    requires per > 0.0
    ensures Gain(a + b, per) == Gain(a, per) + Gain(b, per)
  {
  }

  lemma GainIsMonotone(a: int, b: int, per: real)
    requires per > 0.0 && a <= b
    ensures Gain(a, per) <= Gain(b, per)
  {
    assert Gain(a, per) * per == a as real && Gain(b, per) * per == b as real;
  }

  lemma GainOfZero(per: real)
    requires per > 0.0
    ensures Gain(0, per) == 0.0
  {
  }

  ghost predicate Stamped(m: map<string, Bucket>, now: int) {
    forall k :: k in m ==> m[k].last <= now && m[k].tokens >= 0.0
  }

  lemma {:induction false} BucketsAreStamped(calls: seq<Call>, n: nat, now: int, burst: real, per: real)
    requires n <= |calls| && per > 0.0 && burst >= 0.0 && Clock(calls)
    requires forall k :: 0 <= k < n ==> calls[k].at <= now
    ensures Stamped(After(calls, n, burst, per), now)
  {
    if n > 0 {
      var c, m := calls[n - 1], After(calls, n - 1, burst, per);
      BucketsAreStamped(calls, n - 1, c.at, burst, per);
      BucketsAreStamped(calls, n - 1, now, burst, per);
      var b := BucketOf(m, c.key, burst, c.at);
      GainOfZero(per);
      GainIsMonotone(0, c.at - b.last, per);
    }
  }

  /** Waiting from one time to a later one adds at most the gain between them. */
  lemma HeldGrows(b: Bucket, s: int, t: int, burst: real, per: real)
    requires per > 0.0 && s <= t
    ensures Min(burst, Level(b, t, per)) <= Min(burst, Level(b, s, per)) + Gain(t - s, per)
  {
    GainAdds(s - b.last, t - s, per);
    GainOfZero(per);
    GainIsMonotone(0, t - s, per);
  }

  /** One call spends at most what the key holds. */
  lemma CallSpends(b: Bucket, now: int, burst: real, per: real)
    requires per > 0.0
    ensures var (b', ok, wait) := Allowed(b, now, burst, per);
      b'.tokens + (if ok then 1.0 else 0.0) == Min(burst, Level(b, now, per)) && b'.last == now
      && Min(burst, Level(b', now, per)) == b'.tokens
  {
    GainOfZero(per);
  }

  lemma {:induction false} SpentFromTheWindow(calls: seq<Call>, key: string, i: nat, j: nat, from: int, now: int,
                                              burst: real, per: real)
    requires i <= j <= |calls| && per > 0.0 && burst >= 0.0 && Clock(calls)
    requires from <= now && (forall k :: 0 <= k < i ==> calls[k].at <= from)
    requires forall k :: i <= k < j ==> from <= calls[k].at <= now
    ensures Count(calls, key, i, j, burst, per) as real + Held(calls, j, key, now, burst, per) <= burst + Gain(now - from, per)
  {
    if i == j {
      GainOfZero(per);
      GainIsMonotone(0, now - from, per);
    } else {
      var c := calls[j - 1];
      var m := After(calls, j - 1, burst, per);
      SpentFromTheWindow(calls, key, i, j - 1, from, c.at, burst, per);
      GainAdds(c.at - from, now - c.at, per);
      if c.key == key {
        var b := BucketOf(m, key, burst, c.at);
        CallSpends(b, c.at, burst, per);
        HeldGrows(Allowed(b, c.at, burst, per).0, c.at, now, burst, per);
      } else {
        OthersKeep(calls, j, key, now, burst, per);
        if key in m {
          HeldGrows(m[key], c.at, now, burst, per);
        } else {
          GainOfZero(per);
          GainIsMonotone(0, now - c.at, per);
        }
      }
    }
  }

  lemma OthersKeep(calls: seq<Call>, j: nat, key: string, now: int, burst: real, per: real)
    requires 0 < j <= |calls| && per > 0.0 && calls[j - 1].key != key
    ensures Held(calls, j, key, now, burst, per) == Held(calls, j - 1, key, now, burst, per)
  {
  }

  /** A window of length T admits at most burst + T / per calls of a key. */
  lemma WindowIsBounded(calls: seq<Call>, key: string, i: nat, j: nat, burst: real, per: real)
    requires i < j <= |calls| && per > 0.0 && burst >= 0.0 && Clock(calls)
    ensures Count(calls, key, i, j, burst, per) as real <= burst + Gain(calls[j - 1].at - calls[i].at, per)
  {
    var now := calls[j - 1].at;
    SpentFromTheWindow(calls, key, i, j, calls[i].at, now, burst, per);
    BucketsAreStamped(calls, j, now, burst, per);
    var b := BucketOf(After(calls, j, burst, per), key, burst, now);
    GainOfZero(per);
    GainIsMonotone(0, now - b.last, per);
  }

  // ----- What a returned wait is worth -----

  lemma GainReaches(d: int, x: real, per: real)
    requires per > 0.0
    ensures Gain(d, per) >= x <==> d as real >= x * per
  {
    var g := Gain(d, per);
    assert g * per == d as real;
    Scale(x, g, per);
  }

  /**
   After a refusal at a time, the key's next call at time now + d is admitted exactly when
   d reaches the exact, untruncated wait.
   */
  lemma AdmittedFromExactWait(b0: Bucket, now: int, d: nat, burst: real, per: real)
    requires per > 0.0 && burst >= 1.0 && !Allowed(b0, now, burst, per).1
    ensures var b := Allowed(b0, now, burst, per).0;
      Allowed(b, now + d, burst, per).1 <==> d as real >= ExactWait(b, per)
  {
    var b := Allowed(b0, now, burst, per).0;
    GainReaches(d, 1.0 - b.tokens, per);
    assert Level(b, now + d, per) == b.tokens + Gain(d, per);
    assert b.tokens < 1.0 <= burst;
  }

  /**
   Waiting the returned time admits the next call exactly when the wait was a whole
   number of nanoseconds; one nanosecond more always does.
   */
  lemma ReturnedWaitAdmits(b0: Bucket, now: int, burst: real, per: real)
    requires per > 0.0 && burst >= 1.0 && !Allowed(b0, now, burst, per).1
    ensures var (b, ok, wait) := Allowed(b0, now, burst, per);
      && wait >= 0
      && (Allowed(b, now + wait, burst, per).1 <==> wait as real == ExactWait(b, per))
      && Allowed(b, now + wait + 1, burst, per).1
  {
    var (b, ok, wait) := Allowed(b0, now, burst, per);
    var exact := ExactWait(b, per);
    Scale(1.0 - b.tokens, 0.0, per);
    assert wait == exact.Floor;
    AdmittedFromExactWait(b0, now, wait, burst, per);
    AdmittedFromExactWait(b0, now, wait + 1, burst, per);
  }

  /** The refill time of an amount of tokens. */
  ghost function Nanos(tokens: real, per: real): real {
    tokens * per
  }

  ghost predicate Integral(x: real) {
    x.Floor as real == x
  }

  lemma NanosAdd(x: real, y: real, per: real)
    ensures Nanos(x + y, per) == Nanos(x, per) + Nanos(y, per)
    ensures Nanos(x - y, per) == Nanos(x, per) - Nanos(y, per)
  {
  }

  lemma IntegralIs(n: int, x: real)
    requires x == n as real
    ensures Integral(x)
  {
  }

  lemma IntegralAdds(x: real, y: real)
    requires Integral(x) && Integral(y)
    ensures Integral(x + y) && Integral(x - y)
  {
    IntegralIs(x.Floor + y.Floor, x + y);
    IntegralIs(x.Floor - y.Floor, x - y);
  }

  lemma WholeTokens(n: int, nanos: int)
    ensures Integral(Nanos(n as real, nanos as real))
  {
    assert Nanos(n as real, nanos as real) == (n * nanos) as real;
  }

  /** The bucket's tokens are a whole number of nanoseconds of refill. */
  ghost predicate Whole(b: Bucket, per: real) {
    Integral(Nanos(b.tokens, per))
  }

  lemma LevelIsWhole(b: Bucket, now: int, per: real)
    requires per > 0.0 && Whole(b, per)
    ensures Integral(Nanos(Level(b, now, per), per))
  {
    var span := now - b.last;
    assert Nanos(Gain(span, per), per) == span as real;
    NanosAdd(b.tokens, Gain(span, per), per);
    IntegralAdds(Nanos(b.tokens, per), span as real);
  }

  lemma CallKeepsWhole(b: Bucket, now: int, burst: int, nanos: int)
    requires nanos > 0 && Whole(b, nanos as real)
    ensures Whole(Allowed(b, now, burst as real, nanos as real).0, nanos as real)
  {
    var per := nanos as real;
    LevelIsWhole(b, now, per);
    WholeTokens(burst, nanos);
    WholeTokens(1, nanos);
    var t := Min(burst as real, Level(b, now, per));
    assert Integral(Nanos(t, per));
    NanosAdd(t, 1.0, per);
    IntegralAdds(Nanos(t, per), Nanos(1.0, per));
  }

  /** With a whole burst and a whole refill time, every reachable bucket is whole. */
  lemma {:induction false} RunsKeepWhole(calls: seq<Call>, n: nat, burst: int, nanos: int, key: string)
    requires n <= |calls| && nanos > 0 && key in After(calls, n, burst as real, nanos as real)
    ensures Whole(After(calls, n, burst as real, nanos as real)[key], nanos as real)
    decreases n, 0
  {
    var per := nanos as real;
    var c, m := calls[n - 1], After(calls, n - 1, burst as real, per);
    if key == c.key {
      NextBucketIsWhole(calls, n - 1, burst, nanos);
      CallKeepsWhole(BucketOf(m, c.key, burst as real, c.at), c.at, burst, nanos);
    } else {
      RunsKeepWhole(calls, n - 1, burst, nanos, key);
    }
  }

  /** The bucket the next call meets is whole, whether stored or fresh. */
  lemma {:induction false} NextBucketIsWhole(calls: seq<Call>, n: nat, burst: int, nanos: int)
    requires n < |calls| && nanos > 0
    ensures Whole(BucketOf(After(calls, n, burst as real, nanos as real), calls[n].key, burst as real, calls[n].at),
                  nanos as real)
    decreases n, 1
  {
    if calls[n].key in After(calls, n, burst as real, nanos as real) {
      RunsKeepWhole(calls, n, burst, nanos, calls[n].key);
    } else {
      WholeTokens(burst, nanos);
    }
  }

  /**
   In every run of a limiter whose burst and refill time are whole numbers, a refused
   call that waits exactly the returned time is admitted.
   */
  lemma WaitingIsEnough(calls: seq<Call>, n: nat, burst: int, nanos: int)
    requires n < |calls| && nanos > 0 && burst >= 1 && !Admitted(calls, n, burst as real, nanos as real)
    ensures var b0 := BucketOf(After(calls, n, burst as real, nanos as real), calls[n].key, burst as real, calls[n].at);
      var (b, ok, wait) := Allowed(b0, calls[n].at, burst as real, nanos as real);
      Allowed(b, calls[n].at + wait, burst as real, nanos as real).1
  {
    var per, c := nanos as real, calls[n];
    var b0 := BucketOf(After(calls, n, burst as real, per), c.key, burst as real, c.at);
    NextBucketIsWhole(calls, n, burst, nanos);
    CallKeepsWhole(b0, c.at, burst, nanos);
    var b := Allowed(b0, c.at, burst as real, per).0;
    WholeWait(b, nanos);
    ReturnedWaitAdmits(b0, c.at, burst as real, per);
  }

  lemma WholeWait(b: Bucket, nanos: int)
    requires Whole(b, nanos as real)
    ensures Wait(b, nanos as real) as real == ExactWait(b, nanos as real)
  {
    WholeTokens(1, nanos);
    NanosAdd(1.0, b.tokens, nanos as real);
    IntegralAdds(Nanos(1.0, nanos as real), Nanos(b.tokens, nanos as real));
    assert Nanos(1.0 - b.tokens, nanos as real) == ExactWait(b, nanos as real);
  }
}
