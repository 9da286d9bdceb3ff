/**
 Runs of the login throttle: its size bound, and its agreement with a throttle that
 keeps every bucket for ever.
 */
module ThrottleRuns {
  import opened TokenBuckets
  import opened TokenBucketRuns

  /** The victim is what an eviction removes, if there is one. */
  datatype Op = Check(email: string, now: int) | Charge(email: string, now: int, victim: string) | Clear(email: string)

  function Next(m: map<string, Bucket>, op: Op): map<string, Bucket> {
    match op
    case Check(email, now) => Asked(m, email, now).0
    case Charge(email, now, victim) => Failed(m, email, now, victim)
    case Clear(email) => m - {email}
  }

  function RunOf(ops: seq<Op>): map<string, Bucket> {
    if ops == [] then map[] else Next(RunOf(ops[..|ops| - 1]), ops[|ops| - 1])
  }

  /** Evictions remove a bucket that is nearest to full. */
  ghost predicate Possible(ops: seq<Op>) {
    ops == [] ||
    (var m, op := RunOf(ops[..|ops| - 1]), ops[|ops| - 1];
     Possible(ops[..|ops| - 1])
     && (op.Charge? && Crowded(m, op.email, op.now) ==> IsVictim(Pruned(m, op.now), op.now, op.victim)))
  }

  // ----- The size bound -----

  lemma SubsetIsSmaller(a: set<string>, b: set<string>)
    requires a <= b
    ensures |a| <= |b|
  {
    assert b == a + (b - a);
    assert |b| == |a| + |b - a|;
  }

  lemma PruneShrinks(m: map<string, Bucket>, now: int)
    ensures |Pruned(m, now)| <= |m|
  {
    SubsetIsSmaller(Pruned(m, now).Keys, m.Keys);
    assert |Pruned(m, now).Keys| == |Pruned(m, now)| && |m.Keys| == |m|;
  }

  lemma DropShrinks(m: map<string, Bucket>, k: string)
    ensures |m - {k}| == if k in m then |m| - 1 else |m|
  {
    assert |m.Keys| == |m| && |(m - {k}).Keys| == |m - {k}|;
    assert (m - {k}).Keys == m.Keys - {k};
  }

  lemma WriteGrows(m: map<string, Bucket>, k: string, b: Bucket)
    ensures |m[k := b]| == if k in m then |m| else |m| + 1
  {
    assert |m.Keys| == |m| && |m[k := b].Keys| == |m[k := b]|;
    assert m[k := b].Keys == m.Keys + {k};
  }

  lemma ChargeStaysBounded(m: map<string, Bucket>, email: string, now: int, victim: string)
    requires |m| <= CAP && (Crowded(m, email, now) ==> IsVictim(Pruned(m, now), now, victim))
    ensures |Failed(m, email, now, victim)| <= CAP
  {
    var p := Pruned(m, now);
    PruneShrinks(m, now);
    DropShrinks(p, victim);
    var q := if Crowded(m, email, now) then p - {victim} else p;
    WriteGrows(q, email, Charged(BucketOf(q, email, FAIL_BURST, now), now));
  }

  /** In every run the throttle holds at most its cap of buckets. */
  lemma {:induction false} NeverOverCap(ops: seq<Op>)
    requires Possible(ops)
    ensures |RunOf(ops)| <= CAP
  {
    if ops != [] {
      var m, op := RunOf(ops[..|ops| - 1]), ops[|ops| - 1];
      NeverOverCap(ops[..|ops| - 1]);
      match op
      case Check(email, now) =>
        PruneShrinks(m, now);
        if email in Pruned(m, now) {
          WriteGrows(Pruned(m, now), email, Refilled(Pruned(m, now)[email], now, FAIL_BURST, FAIL_PER));
        }
      case Charge(email, now, victim) => ChargeStaysBounded(m, email, now, victim);
      case Clear(email) => DropShrinks(m, email);
    }
  }

  // ----- Pruning is invisible below the cap -----

  /** The same check and charge on buckets that are never dropped. */
  function AskedPlain(m: map<string, Bucket>, email: string, now: int): (map<string, Bucket>, bool, int) {
    if email !in m then (m, false, 0)
    else
      var b := Refilled(m[email], now, FAIL_BURST, FAIL_PER);
      (m[email := b], b.tokens < 1.0, if b.tokens < 1.0 then Wait(b, FAIL_PER) else 0)
  }

  function NextPlain(m: map<string, Bucket>, op: Op): map<string, Bucket> {
    match op
    case Check(email, now) => AskedPlain(m, email, now).0
    case Charge(email, now, victim) => m[email := Charged(BucketOf(m, email, FAIL_BURST, now), now)]
    case Clear(email) => m - {email}
  }

  function PlainRunOf(ops: seq<Op>): map<string, Bucket> {
    if ops == [] then map[] else NextPlain(PlainRunOf(ops[..|ops| - 1]), ops[|ops| - 1])
  }

  /** The clock does not step back, and no newcomer meets the cap. */
  ghost predicate BelowCap(ops: seq<Op>, now: int) {
    ops == [] ||
    (var m, op := RunOf(ops[..|ops| - 1]), ops[|ops| - 1];
     match op
     case Check(email, t) => t <= now && BelowCap(ops[..|ops| - 1], t)
     case Charge(email, t, _) => t <= now && !Crowded(m, email, t) && BelowCap(ops[..|ops| - 1], t)
     case Clear(_) => BelowCap(ops[..|ops| - 1], now))
  }

  /** The buckets of the plain throttle that the other dropped are full. */
  ghost predicate Agree(m: map<string, Bucket>, plain: map<string, Bucket>, now: int) {
    && (forall k :: k in m ==> k in plain && plain[k] == m[k])
    && (forall k :: k in plain && k !in m ==> Full(plain[k], now))
  }

  lemma FullStays(b: Bucket, s: int, t: int)
    requires Full(b, s) && s <= t
    ensures Full(b, t)
  {
    GainIsMonotone(s - b.last, t - b.last, FAIL_PER);
  }

  lemma LaterAgrees(m: map<string, Bucket>, plain: map<string, Bucket>, s: int, t: int)
    requires Agree(m, plain, s) && s <= t
    ensures Agree(m, plain, t) && Agree(Pruned(m, t), plain, t)
  {
    forall k | k in plain && k !in m
      ensures Full(plain[k], t)
    {
      FullStays(plain[k], s, t);
    }
  }

  /** A full bucket answers, refills and is charged like a fresh one. */
  lemma FullIsFresh(b: Bucket, now: int)
    requires Full(b, now)
    ensures Refilled(b, now, FAIL_BURST, FAIL_PER) == Bucket(FAIL_BURST, now)
    ensures Full(Bucket(FAIL_BURST, now), now)
    ensures Charged(b, now) == Charged(Bucket(FAIL_BURST, now), now)
  {
    GainOfZero(FAIL_PER);
  }

  lemma CheckAgrees(m: map<string, Bucket>, plain: map<string, Bucket>, email: string, now: int)
    requires Agree(Pruned(m, now), plain, now)
    ensures var (m', empty, wait) := Asked(m, email, now); var (plain', empty', wait') := AskedPlain(plain, email, now);
      Agree(m', plain', now) && empty == empty' && wait == wait'
  {
    if email in plain && email !in Pruned(m, now) {
      FullIsFresh(plain[email], now);
    }
  }

  lemma ChargeAgrees(m: map<string, Bucket>, plain: map<string, Bucket>, email: string, now: int, victim: string)
    requires Agree(Pruned(m, now), plain, now) && !Crowded(m, email, now)
    ensures Agree(Failed(m, email, now, victim), plain[email := Charged(BucketOf(plain, email, FAIL_BURST, now), now)], now)
  {
    if email in plain && email !in Pruned(m, now) {
      FullIsFresh(plain[email], now);
    }
  }

  lemma {:induction false} RunsAgree(ops: seq<Op>, now: int)
    requires BelowCap(ops, now)
    ensures Agree(RunOf(ops), PlainRunOf(ops), now)
  {
    if ops != [] {
      var before, op := ops[..|ops| - 1], ops[|ops| - 1];
      var m, plain := RunOf(before), PlainRunOf(before);
      match op
      case Check(email, t) =>
        RunsAgree(before, t);
        LaterAgrees(m, plain, t, t);
        CheckAgrees(m, plain, email, t);
        LaterAgrees(RunOf(ops), PlainRunOf(ops), t, now);
      case Charge(email, t, victim) =>
        RunsAgree(before, t);
        LaterAgrees(m, plain, t, t);
        ChargeAgrees(m, plain, email, t, victim);
        LaterAgrees(RunOf(ops), PlainRunOf(ops), t, now);
      case Clear(email) =>
        RunsAgree(before, now);
    }
  }

  /** Below the cap the throttle answers every check exactly as one that never prunes. */
  lemma PruningIsInvisible(ops: seq<Op>, email: string, now: int)
    requires BelowCap(ops, now)
    ensures Asked(RunOf(ops), email, now).1 == AskedPlain(PlainRunOf(ops), email, now).1
    ensures Asked(RunOf(ops), email, now).2 == AskedPlain(PlainRunOf(ops), email, now).2
  {
    RunsAgree(ops, now);
    LaterAgrees(RunOf(ops), PlainRunOf(ops), now, now);
    CheckAgrees(RunOf(ops), PlainRunOf(ops), email, now);
  }
}
