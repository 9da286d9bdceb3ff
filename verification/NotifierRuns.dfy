/**
 Runs of one dispatched source: new rows, passes with arbitrary results and failed
 writes, and restarts.
 */
module NotifierRuns {
  import opened Wrappers
  import opened Notifier

  datatype Step =
    | NewRow
    | PassStep(limit: nat, readable: bool, script: int -> Outcome)
    | Start

  function Next(s: Source, step: Step): Source {
    match step
    case NewRow => s.(rows := s.rows + 1)
    case PassStep(limit, readable, script) => Pass(s, limit, readable, script)
    case Start => Restarted(s)
  }

  ghost function RunOf(steps: seq<Step>): Source {
    if |steps| == 0 then FRESH else Next(RunOf(steps[..|steps| - 1]), steps[|steps| - 1])
  }

  /** Refusals of a row since its last transient failure. */
  function Streak(log: seq<Attempt>, row: nat): nat {
    if |log| == 0 then 0
    else
      var before, last := log[..|log| - 1], log[|log| - 1];
      if last.row != row then Streak(before, row)
      else match last.outcome
           case Refused(_) => Streak(before, row) + 1
           case Failed => 0
           case _ => Streak(before, row)
  }

  /** The receiver acknowledged the row at least once. */
  predicate Acked(log: seq<Attempt>, row: nat) {
    exists i :: 0 <= i < |log| && log[i].row == row && log[i].outcome.Delivered?
  }

  /** Delivered, or refused at least twelve times without a transient failure between. */
  predicate Handled(log: seq<Attempt>, row: nat) {
    Acked(log, row) || Streak(log, row) >= 12
  }

  /** Every attempt is for the row just above the watermark of its time. */
  ghost predicate InOrder(s: Source) {
    && s.mark.Some? && s.seed.Some? && s.seed.value <= s.mark.value <= s.rows
    && (forall i :: 0 <= i < |s.log| ==>
          s.log[i].row == s.log[i].mark + 1 && s.seed.value <= s.log[i].mark <= s.mark.value)
    && (forall i, j :: 0 <= i < j < |s.log| ==> s.log[i].mark <= s.log[j].mark)
  }

  ghost predicate Counting(poison: Option<Poison>, log: seq<Attempt>) {
    poison.Some? ==> 1 <= poison.value.count < 12 && poison.value.count <= Streak(log, poison.value.row)
  }

  ghost predicate AllHandled(s: Source)
    requires s.mark.Some? && s.seed.Some?
  {
    forall row: nat :: s.seed.value < row <= s.mark.value ==> Handled(s.log, row)
  }

  ghost predicate Inv(s: Source) {
    && (s.mark.None? ==> s.seed.None? && s.log == [] && s.poison.None?)
    && (s.mark.Some? ==> InOrder(s) && AllHandled(s))
    && Counting(s.poison, s.log)
  }

  lemma StreakPush(log: seq<Attempt>, a: Attempt, row: nat)
    ensures Streak(log + [a], row)
         == if a.row != row then Streak(log, row)
            else if a.outcome.Refused? then Streak(log, row) + 1
            else if a.outcome.Failed? then 0 else Streak(log, row)
  {
    assert (log + [a])[..|log|] == log;
  }

  lemma HandledStays(log: seq<Attempt>, a: Attempt, row: nat)
    requires Handled(log, row) && a.row != row
    ensures Handled(log + [a], row)
  {
    StreakPush(log, a, row);
    if Acked(log, row) {
      var i :| 0 <= i < |log| && log[i].row == row && log[i].outcome.Delivered?;
      assert (log + [a])[i] == log[i];
    }
  }

  lemma LoggedKeepsOrder(s: Source, row: nat, o: Outcome)
    requires InOrder(s) && AllHandled(s) && row == s.mark.value + 1
    ensures InOrder(Logged(s, row, o)) && AllHandled(Logged(s, row, o))
  {
    var a := Attempt(row, s.mark.value, o);
    forall r: nat | s.seed.value < r <= s.mark.value
      ensures Handled(s.log + [a], r)
    {
      HandledStays(s.log, a, r);
    }
  }

  lemma TryCounts(s: Source, row: nat, o: Outcome)
    requires s.mark.Some? && Counting(s.poison, s.log)
    ensures var (s', more) := Try(s, row, o);
      Counting(s'.poison, s'.log) && (more ==> Handled(s'.log, row))
  {
    var a := Attempt(row, s.mark.value, o);
    var log := s.log + [a];
    StreakPush(s.log, a, row);
    if s.poison.Some? {
      StreakPush(s.log, a, s.poison.value.row);
    }
    if o.Delivered? {
      assert log[|s.log|] == a;
      assert Acked(log, row);
    }
  }

  /** One attempt on the next row keeps the invariant; going on means the row is done with. */
  lemma TryKeeps(s: Source, row: nat, o: Outcome)
    requires Inv(s) && s.mark.Some? && row == s.mark.value + 1 <= s.rows
    ensures var (s', more) := Try(s, row, o);
      Inv(s') && s'.rows == s.rows && s'.seed == s.seed && s'.mark == if more then Some(row) else s.mark
  {
    LoggedKeepsOrder(s, row, o);
    TryCounts(s, row, o);
    var (s', more) := Try(s, row, o);
    assert s'.log == Logged(s, row, o).log;
    if more {
      forall r: nat | s.seed.value < r <= row
        ensures Handled(s'.log, r)
      {
        assert r == row || r <= s.mark.value;
      }
    }
  }

  ghost predicate NextRows(batch: seq<nat>, base: nat) {
    forall i :: 0 <= i < |batch| ==> batch[i] == base + 1 + i
  }

  lemma {:induction false} DeliverKeeps(s: Source, batch: seq<nat>, script: int -> Outcome, n: nat, base: nat)
    requires Inv(s) && s.mark == Some(base + n) && n <= |batch|
    requires NextRows(batch, base) && (|batch| > 0 ==> batch[|batch| - 1] <= s.rows)
    ensures Inv(Deliver(s, batch, script, n))
    ensures Deliver(s, batch, script, n).mark.Some? && Deliver(s, batch, script, n).seed == s.seed
    ensures Deliver(s, batch, script, n).mark.value >= s.mark.value
    decreases |batch| - n
  {
    if n < |batch| {
      TryKeeps(s, batch[n], script(n));
      var (s', more) := Try(s, batch[n], script(n));
      if more {
        assert s'.rows == s.rows && s'.mark == Some(base + (n + 1));
        DeliverKeeps(s', batch, script, n + 1, base);
      }
    }
  }

  lemma NextKeeps(s: Source, step: Step)
    requires Inv(s)
    ensures Inv(Next(s, step))
  {
    match step
    case NewRow =>
    case PassStep(limit, readable, script) =>
      if s.mark.Some? && readable {
        DeliverKeeps(s, Batch(s.rows, s.mark.value, limit), script, 0, s.mark.value);
      }
    case Start =>
  }

  lemma {:induction false} RunKeeps(steps: seq<Step>)
    ensures Inv(RunOf(steps))
  {
    if |steps| > 0 {
      RunKeeps(steps[..|steps| - 1]);
      NextKeeps(RunOf(steps[..|steps| - 1]), steps[|steps| - 1]);
    }
  }

  /**
   In every run, each row between the seed and the watermark was delivered at least
   once or refused at least twelve times without a transient failure between.
   */
  lemma NoRowIsLost(steps: seq<Step>, row: nat)
    requires var s := RunOf(steps); s.mark.Some? && s.seed.Some? && s.seed.value < row <= s.mark.value
    ensures Handled(RunOf(steps).log, row)
  {
    RunKeeps(steps);
  }

  /**
   In every run, each attempt was for the row just above the watermark of its time;
   so attempts never go back at or below it, and row ids never fall from one attempt
   to the next. Nothing at or below the seed is ever attempted.
   */
  lemma AttemptsNeverGoBack(steps: seq<Step>, i: int, j: int)
    requires 0 <= i < j < |RunOf(steps).log|
    ensures var s := RunOf(steps);
      && s.log[i].row == s.log[i].mark + 1 && s.log[j].row == s.log[j].mark + 1
      && s.log[i].row <= s.log[j].row <= (if s.mark.Some? then s.mark.value else 0) + 1
      && s.seed.Some? && s.seed.value < s.log[i].row
  {
    RunKeeps(steps);
  }

  /** The watermark only rises, over passes and restarts: the clamp is never needed. */
  lemma WatermarkOnlyRises(steps: seq<Step>, step: Step)
    requires RunOf(steps).mark.Some?
    ensures var s, s' := RunOf(steps), Next(RunOf(steps), step);
      && s'.mark.Some? && s'.mark.value >= s.mark.value && s'.seed == s.seed
      && (step.Start? ==> s'.mark == s.mark)
  {
    RunKeeps(steps);
    var s := RunOf(steps);
    if step.PassStep? && step.readable {
      DeliverKeeps(s, Batch(s.rows, s.mark.value, step.limit), step.script, 0, s.mark.value);
    }
  }

  // ----- A poison row does not block its source for ever -----

  /** n passes that each get a refusal first. */
  ghost function RefusedPasses(s: Source, limit: nat, n: nat): Source {
    if n == 0 then s else Pass(RefusedPasses(s, limit, n - 1), limit, true, RefuseThenCut)
  }

  /** The first attempt of the pass is refused; shutdown cuts whatever follows. */
  const RefuseThenCut: int -> Outcome := (i: int) => if i == 0 then Refused(true) else Cut

  lemma OneRefusedPass(s: Source, limit: nat)
    requires s.mark.Some? && s.mark.value < s.rows && limit > 0
    ensures var s' := Pass(s, limit, true, RefuseThenCut); var p := Counted(s.poison, s.mark.value + 1);
      && s'.rows == s.rows
      && (p.count < 12 ==> s'.mark == s.mark && s'.poison == Some(p))
      && (p.count >= 12 ==> s'.mark == Some(s.mark.value + 1))
  {
    var batch := Batch(s.rows, s.mark.value, limit);
    var (t, more) := Try(s, batch[0], Refused(true));
    assert RefuseThenCut(0) == Refused(true) && RefuseThenCut(1) == Cut;
    assert Deliver(s, batch, RefuseThenCut, 0) == if more then Deliver(t, batch, RefuseThenCut, 1) else t;
    if more && |batch| > 1 {
      assert Deliver(t, batch, RefuseThenCut, 1) == Try(t, batch[1], Cut).0;
    }
  }

  /** Passes that each end in a refusal move past the row at the twelfth, and not before. */
  lemma {:induction false} PoisonRowIsPassed(s: Source, limit: nat, n: nat)
    requires s.mark.Some? && s.mark.value < s.rows && s.poison.None? && limit > 0 && n <= 12
    ensures After(s, RefusedPasses(s, limit, n), n)
  {
    if n > 0 {
      var before := RefusedPasses(s, limit, n - 1);
      PoisonRowIsPassed(s, limit, n - 1);
      OneRefusedPass(before, limit);
      assert RefusedPasses(s, limit, n) == Pass(before, limit, true, RefuseThenCut);
    }
  }

  /** The row stays next, with its count, for eleven refusals; the twelfth passes it. */
  ghost predicate After(s: Source, s': Source, n: nat)
    requires s.mark.Some?
  {
    && s'.rows == s.rows
    && (n < 12 ==> s'.mark == s.mark
                             && s'.poison == if n == 0 then s.poison else Some(Poison(s.mark.value + 1, n)))
    && (n == 12 ==> s'.mark == Some(s.mark.value + 1))
  }

  // ----- Seeding, over the steps -----

  /** Rows the source has received. */
  function NewRows(steps: seq<Step>): nat {
    if |steps| == 0 then 0
    else NewRows(steps[..|steps| - 1]) + if steps[|steps| - 1].NewRow? then 1 else 0
  }

  /** Rows the source had at its first start. */
  function AtFirstStart(steps: seq<Step>): Option<nat> {
    if |steps| == 0 then None
    else
      var before, last := steps[..|steps| - 1], steps[|steps| - 1];
      if AtFirstStart(before).Some? then AtFirstStart(before)
      else if last.Start? then Some(NewRows(before)) else None
  }

  lemma {:induction false} DeliverLeaves(s: Source, batch: seq<nat>, script: int -> Outcome, n: nat)
    requires n <= |batch|
    ensures var s' := Deliver(s, batch, script, n); s'.rows == s.rows && s'.seed == s.seed
    decreases |batch| - n
  {
    if n < |batch| {
      var (s', more) := Try(s, batch[n], script(n));
      if more {
        DeliverLeaves(s', batch, script, n + 1);
      }
    }
  }

  lemma {:induction false} SeedsAtFirstStart(steps: seq<Step>)
    ensures var s := RunOf(steps);
      s.rows == NewRows(steps) && s.seed == AtFirstStart(steps) && (s.mark.Some? <==> AtFirstStart(steps).Some?)
  {
    if |steps| > 0 {
      var before, last := steps[..|steps| - 1], steps[|steps| - 1];
      SeedsAtFirstStart(before);
      RunKeeps(before);
      var s := RunOf(before);
      if last.PassStep? && s.mark.Some? && last.readable {
        var batch := Batch(s.rows, s.mark.value, last.limit);
        DeliverLeaves(s, batch, last.script, 0);
        DeliverKeeps(s, batch, last.script, 0, s.mark.value);
      }
    }
  }

  /**
   In every run, no row that was there at the first start is ever attempted, nothing is
   before that start, and every row received after it and at or below the watermark was
   acknowledged or refused at least twelve times in a row.
   */
  lemma OnlyNewRowsAndAllOfThem(steps: seq<Step>)
    ensures var s, first := RunOf(steps), AtFirstStart(steps);
      && (first.None? ==> s.log == [] && s.mark.None?)
      && (first.Some? ==>
            && s.mark.Some? && first.value <= s.mark.value <= NewRows(steps)
            && (forall i :: 0 <= i < |s.log| ==> first.value < s.log[i].row <= NewRows(steps))
            && (forall row: nat :: first.value < row <= s.mark.value ==>
                  Acked(s.log, row) || Streak(s.log, row) >= 12))
  {
    SeedsAtFirstStart(steps);
    RunKeeps(steps);
    AttemptsAreOfRows(steps);
    var s := RunOf(steps);
    if s.mark.Some? {
      forall row: nat | s.seed.value < row <= s.mark.value
        ensures Acked(s.log, row) || Streak(s.log, row) >= 12
      {
        assert Handled(s.log, row);
      }
    }
  }

  predicate AttemptsUpTo(log: seq<Attempt>, rows: nat) {
    forall i :: 0 <= i < |log| ==> log[i].row <= rows
  }

  lemma {:induction false} DeliverAttemptsRows(s: Source, batch: seq<nat>, script: int -> Outcome, n: nat)
    requires n <= |batch| && (forall i :: 0 <= i < |batch| ==> batch[i] <= s.rows)
    requires AttemptsUpTo(s.log, s.rows)
    ensures AttemptsUpTo(Deliver(s, batch, script, n).log, s.rows)
    decreases |batch| - n
  {
    if n < |batch| {
      var (s', more) := Try(s, batch[n], script(n));
      if more {
        DeliverAttemptsRows(s', batch, script, n + 1);
      }
    }
  }

  lemma {:induction false} AttemptsAreOfRows(steps: seq<Step>)
    ensures AttemptsUpTo(RunOf(steps).log, RunOf(steps).rows)
  {
    if |steps| > 0 {
      var s, last := RunOf(steps[..|steps| - 1]), steps[|steps| - 1];
      AttemptsAreOfRows(steps[..|steps| - 1]);
      if last.PassStep? && s.mark.Some? && last.readable {
        DeliverAttemptsRows(s, Batch(s.rows, s.mark.value, last.limit), last.script, 0);
        DeliverLeaves(s, Batch(s.rows, s.mark.value, last.limit), last.script, 0);
      }
    }
  }

  // ----- What a pass reaches -----

  /** The outcome lets the pass go on to the next row. */
  predicate GoesOn(s: Source, row: nat, o: Outcome) {
    || o == Delivered(true)
    || (o == Refused(true) && s.poison.Some? && s.poison.value.row == row && s.poison.value.count >= 11)
  }

  /**
   One attempt moves the watermark to its row and goes on exactly for a saved delivery or
   a saved twelfth refusal in a row; any other answer ends the pass where it stands.
   */
  lemma AttemptMovesExactly(s: Source, row: nat, o: Outcome)
    ensures var (s', more) := Try(s, row, o);
      && (more <==> GoesOn(s, row, o)) && s'.mark == (if more then Some(row) else s.mark)
      && |s'.log| == |s.log| + 1 && s'.log[..|s.log|] == s.log
      && s'.log[|s.log|].row == row && s'.log[|s.log|].outcome == o
      && (o.Refused? && !more && s'.poison.Some? ==>
            s'.poison.value.row == row && s'.poison.value.count
            == 1 + if s.poison.Some? && s.poison.value.row == row then s.poison.value.count else 0)
      && (o.Refused? && s'.poison.None? ==> more || !o.saved)
      && (o.Failed? ==> s'.poison.None? || s'.poison.value.row != row)
  {
  }

  /** One saved delivery after the other, n rows above a watermark. */
  function Deliveries(mark: nat, n: nat): seq<Attempt>
    decreases n
  {
    if n == 0 then [] else [Attempt(mark + 1, mark, Delivered(true))] + Deliveries(mark + 1, n - 1)
  }

  lemma {:induction false} AllDelivered(s: Source, batch: seq<nat>, script: int -> Outcome, n: nat, base: nat)
    requires n <= |batch| && s.mark == Some(base + n) && NextRows(batch, base)
    requires forall i :: 0 <= i < |batch| ==> script(i) == Delivered(true)
    ensures Deliver(s, batch, script, n).mark == Some(base + |batch|)
    ensures Deliver(s, batch, script, n).log == s.log + Deliveries(base + n, |batch| - n)
    decreases |batch| - n
  {
    if n < |batch| {
      AllDelivered(Try(s, batch[n], script(n)).0, batch, script, n + 1, base);
    }
  }

  /** A pass whose deliveries all succeed hands over every waiting row up to its limit, each once and in order. */
  lemma CleanPassDelivers(s: Source, limit: nat, script: int -> Outcome)
    requires s.mark.Some? && s.mark.value <= s.rows && forall i :: script(i) == Delivered(true)
    ensures var s', waiting := Pass(s, limit, true, script), s.rows - s.mark.value;
      var n := if waiting <= limit then waiting else limit;
      s'.mark == Some(s.mark.value + n) && s'.log == s.log + Deliveries(s.mark.value, n)
  {
    AllDelivered(s, Batch(s.rows, s.mark.value, limit), script, 0, s.mark.value);
  }
}
