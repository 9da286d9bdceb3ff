/**
 What the safety-effects driver reads: every kill and breaker row without a served
 marker, platform first, then tenants, then strategies, each tier in row order.
 */
module SafetyDriver {
  import opened SafetyTables
  import opened SafetyRuns
  import opened SafetyLifecycle
  import opened TimeOrder

  /** The tier of a row, from which of its ids are NULL. */
  function Precedence(e: Event): int {
    if e.strategy.Some? then 2 else if e.tenant.Some? then 1 else 0
  }

  const Tier: Event -> int := (e: Event) => Precedence(e)

  function Unmarked(db: Db): seq<Event> {
    Filter(db.events, (e: Event) => e.id !in db.effects)
  }

  function ListUnserved(db: Db): seq<Event> {
    InTimeOrder(Unmarked(db), Tier)
  }

  /** The list holds exactly the unmarked rows, by tier, and in row order within each tier. */
  lemma ListIsExact(db: Db)
    ensures multiset(ListUnserved(db)) == multiset(Unmarked(db))
    ensures forall e :: e in ListUnserved(db) <==> e in db.events && e.id !in db.effects
    ensures Ordered(ListUnserved(db), Tier)
    ensures forall tier :: OfTier(ListUnserved(db), tier) == OfTier(Unmarked(db), tier)
  {
    SameRows(Unmarked(db), Tier);
    ComesOutOrdered(Unmarked(db), Tier);
    forall e
      ensures e in ListUnserved(db) <==> e in Unmarked(db)
    {
      assert e in multiset(ListUnserved(db)) <==> e in multiset(Unmarked(db));
    }
    forall tier
      ensures OfTier(ListUnserved(db), tier) == OfTier(Unmarked(db), tier)
    {
      TiesKeepRowOrder(Unmarked(db), Tier, (e: Event) => Precedence(e) == tier);
    }
  }

  /** Platform rows come before the others, and rows of a whole tenant before those of one strategy. */
  lemma WiderScopesComeFirst(db: Db, i: nat, j: nat)
    requires i < j < |ListUnserved(db)|
    ensures var a, b := ListUnserved(db)[i], ListUnserved(db)[j];
      && (b.strategy.None? ==> a.strategy.None?)
      && (b.strategy.None? && b.tenant.None? ==> a.tenant.None?)
  {
    ListIsExact(db);
    assert Tier(ListUnserved(db)[i]) <= Tier(ListUnserved(db)[j]);
  }

  function OfTier(events: seq<Event>, tier: int): seq<Event> {
    Filter(events, (e: Event) => Precedence(e) == tier)
  }

  /**
   In every run each kill the driver is handed is still active at its own scope: no
   effect of a cleared kill is ever driven.
   */
  lemma DrivenKillsStand(ops: seq<Op>, e: Event)
    requires e in ListUnserved(RunOf(ops).db) && e.kind.Kill?
    ensures var db := RunOf(ops).db; ActiveAt(db.events, db.clears, ScopeOf(e))
  {
    var db := RunOf(ops).db;
    UnservedKillsStand(ops);
    ListIsExact(db);
    var i :| 0 <= i < |db.events| && db.events[i] == e;
    assert StandsIfUnserved(db, db.events[i]);
    assert KillOf(db.events[i], ScopeOf(e));
  }
}
