/**
 The keyed token buckets: the rate limiter and the failed-login throttle. Times are
 nanoseconds; a bucket refills one token every `per` nanoseconds. Tokens are exact.
 */
module TokenBuckets {
  import opened Decimals

  datatype Bucket = Bucket(tokens: real, last: int)

  /** Tokens gained over a span. */
  function Gain(span: int, per: real): real
    requires per > 0.0
  {
    span as real / per
  }

  /** What the bucket holds at a time, were there no capacity. */
  function Level(b: Bucket, now: int, per: real): real
    requires per > 0.0
  {
    b.tokens + Gain(now - b.last, per)
  }

  function Refilled(b: Bucket, now: int, burst: real, per: real): Bucket
    requires per > 0.0
  {
    Bucket(Min(burst, Level(b, now, per)), now)
  }

  /** The time until the bucket holds one token. */
  function ExactWait(b: Bucket, per: real): real {
    (1.0 - b.tokens) * per
  }

  /** The returned wait: whole nanoseconds, truncated. */
  function Wait(b: Bucket, per: real): int {
    ExactWait(b, per).Floor
  }

  function BucketOf(buckets: map<string, Bucket>, key: string, burst: real, now: int): Bucket {
    if key in buckets then buckets[key] else Bucket(burst, now)
  }

  /** One call: the new bucket, whether it was admitted, and the wait. */
  function Allowed(b0: Bucket, now: int, burst: real, per: real): (Bucket, bool, int)
    requires per > 0.0
  {
    var b := Refilled(b0, now, burst, per);
    if b.tokens < 1.0 then (b, false, Wait(b, per)) else (b.(tokens := b.tokens - 1.0), true, 0)
  }

  class RateLimiter {
    const burst: real
    const per: real
    var buckets: map<string, Bucket>

    constructor (burst: real, per: real)
      requires per > 0.0
      ensures this.burst == burst && this.per == per && buckets == map[]
    {
      this.burst, this.per, buckets := burst, per, map[];
    }

    method Allow(key: string, now: int) returns (ok: bool, wait: int)
      requires per > 0.0
      modifies this`buckets
      ensures var (b, admitted, w) := Allowed(BucketOf(old(buckets), key, burst, now), now, burst, per);
        ok == admitted && wait == w && buckets == old(buckets)[key := b]
    {
      var b := if key in buckets then buckets[key] else Bucket(burst, now);
      var tokens := Min(burst, b.tokens + (now - b.last) as real / per);
      if tokens < 1.0 {
        buckets := buckets[key := Bucket(tokens, now)];
        return false, ((1.0 - tokens) * per).Floor;
      }
      buckets := buckets[key := Bucket(tokens - 1.0, now)];
      return true, 0;
    }
  }

  // ----- The login throttle -----

  const FAIL_BURST := 5.0
  const FAIL_PER := 30000000000.0
  const CAP := 4096

  predicate Full(b: Bucket, now: int) {
    Level(b, now, FAIL_PER) >= FAIL_BURST
  }

  function Pruned(buckets: map<string, Bucket>, now: int): map<string, Bucket> {
    map k | k in buckets && !Full(buckets[k], now) :: buckets[k]
  }

  /** The bucket nearest to full, which carries the least information. */
  ghost predicate IsVictim(buckets: map<string, Bucket>, now: int, victim: string) {
    victim in buckets && forall k :: k in buckets ==> Level(buckets[k], now, FAIL_PER) <= Level(buckets[victim], now, FAIL_PER)
  }

  /** A failed attempt's charge. */
  function Charged(b0: Bucket, now: int): Bucket {
    var b := Refilled(b0, now, FAIL_BURST, FAIL_PER);
    if b.tokens > 0.0 then b.(tokens := b.tokens - 1.0) else b
  }

  /** The check: pruned buckets, the email's refilled, whether its attempts are used up, and the wait. */
  function Asked(buckets: map<string, Bucket>, email: string, now: int): (map<string, Bucket>, bool, int) {
    var p := Pruned(buckets, now);
    if email !in p then (p, false, 0)
    else
      var b := Refilled(p[email], now, FAIL_BURST, FAIL_PER);
      (p[email := b], b.tokens < 1.0, if b.tokens < 1.0 then Wait(b, FAIL_PER) else 0)
  }

  /** A newcomer at the cap. */
  predicate Crowded(buckets: map<string, Bucket>, email: string, now: int) {
    email !in Pruned(buckets, now) && |Pruned(buckets, now)| >= CAP
  }

  /** The charge: pruned buckets, without the victim when crowded, the email's charged. */
  function Failed(buckets: map<string, Bucket>, email: string, now: int, victim: string): map<string, Bucket> {
    var p := if Crowded(buckets, email, now) then Pruned(buckets, now) - {victim} else Pruned(buckets, now);
    p[email := Charged(BucketOf(p, email, FAIL_BURST, now), now)]
  }

  class LoginThrottle {
    var buckets: map<string, Bucket>

    constructor ()
      ensures buckets == map[]
    {
      buckets := map[];
    }

    method Prune(now: int)
      modifies this
      ensures buckets == Pruned(old(buckets), now)
    {
      var todo := buckets.Keys;
      ghost var was := buckets;
      while todo != {}
        invariant todo <= was.Keys
        invariant buckets.Keys <= was.Keys && (forall k :: k in buckets ==> buckets[k] == was[k])
        invariant forall k :: k in was ==> (k in buckets <==> k in todo || !Full(was[k], now))
        decreases |todo|
      {
        var k :| k in todo;
        if Full(buckets[k], now) {
          buckets := buckets - {k};
        }
        todo := todo - {k};
      }
    }

    /** Whether the email's attempts are used up, without charging one, and the wait. */
    method Exhausted(email: string, now: int) returns (empty: bool, wait: int)
      modifies this
      ensures (buckets, empty, wait) == Asked(old(buckets), email, now)
    {
      Prune(now);
      if email !in buckets {
        return false, 0;
      }
      var b := Refilled(buckets[email], now, FAIL_BURST, FAIL_PER);
      buckets := buckets[email := b];
      if b.tokens < 1.0 {
        return true, Wait(b, FAIL_PER);
      }
      return false, 0;
    }

    method Evict(now: int)
      requires buckets != map[]
      modifies this
      ensures exists victim :: IsVictim(old(buckets), now, victim) && buckets == old(buckets) - {victim}
    {
      var victim :| victim in buckets;
      var todo := buckets.Keys - {victim};
      while todo != {}
        invariant todo <= buckets.Keys && victim in buckets && buckets == old(buckets)
        invariant forall k :: k in buckets && k !in todo ==>
          Level(buckets[k], now, FAIL_PER) <= Level(buckets[victim], now, FAIL_PER)
        decreases |todo|
      {
        var k :| k in todo;
        if Level(buckets[k], now, FAIL_PER) > Level(buckets[victim], now, FAIL_PER) {
          victim := k;
        }
        todo := todo - {k};
      }
      assert IsVictim(old(buckets), now, victim);
      buckets := buckets - {victim};
    }

    /** Charges one failed attempt; a newcomer at the cap evicts one bucket. */
    method Fail(email: string, now: int)
      modifies this
      ensures exists victim :: (Crowded(old(buckets), email, now) ==> IsVictim(Pruned(old(buckets), now), now, victim))
                               && buckets == Failed(old(buckets), email, now, victim)
    {
      Prune(now);
      ghost var p, gone := buckets, email;
      if email !in buckets {
        if |buckets| >= CAP {
          Evict(now);
          gone :| IsVictim(p, now, gone) && buckets == p - {gone};
        }
        buckets := buckets[email := Bucket(FAIL_BURST, now)];
      }
      buckets := buckets[email := Charged(buckets[email], now)];
      assert buckets == Failed(old(buckets), email, now, gone);
    }

    method Reset(email: string)
      modifies this
      ensures buckets == old(buckets) - {email}
    {
      buckets := buckets - {email};
    }
  }
}
