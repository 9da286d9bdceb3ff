/**
 The alert dispatcher: per source, rows are delivered in row-id order above a
 persisted watermark, with at-least-once delivery and the poison-row skip.

 Delivery results are a script: an arbitrary answer for every attempt of a pass.
 */
module Notifier {
  import opened Wrappers

  const POISON_AFTER := 12

  /** What became of one attempt, and whether the watermark write it asks for succeeds. */
  datatype Outcome = Delivered(saved: bool) | Refused(saved: bool) | Failed | Cut

  /** Refusals counted for one row, in memory only. */
  datatype Poison = Poison(row: nat, count: nat)

  /** One delivery attempt, with the watermark it was made above. */
  datatype Attempt = Attempt(row: nat, mark: nat, outcome: Outcome)

  /**
   One source: its rows are 1..rows; mark is the stored watermark. The seed and the
   log of attempts are history, read by no code.
   */
  datatype Source = Source(rows: nat, mark: Option<nat>, poison: Option<Poison>,
                           seed: Option<nat>, log: seq<Attempt>)

  const FRESH := Source(0, None, None, None, [])

  function Logged(s: Source, row: nat, o: Outcome): Source {
    s.(log := s.log + [Attempt(row, if s.mark.Some? then s.mark.value else 0, o)])
  }

  /** Drops the count when it is this row's. */
  function Forgiven(poison: Option<Poison>, row: nat): Option<Poison> {
    if poison.Some? && poison.value.row == row then None else poison
  }

  function Counted(poison: Option<Poison>, row: nat): Poison {
    Poison(row, (if poison.Some? && poison.value.row == row then poison.value.count else 0) + 1)
  }

  /** One attempt; the flag says whether the pass goes on. */
  function Try(s0: Source, row: nat, o: Outcome): (Source, bool) {
    var s := Logged(s0, row, o);
    match o
    case Delivered(saved) =>
      if saved then (s.(mark := Some(row), poison := Forgiven(s.poison, row)), true) else (s, false)
    case Cut => (s, false)
    case Refused(saved) =>
      var p := Counted(s.poison, row);
      if p.count < POISON_AFTER then (s.(poison := Some(p)), false)
      else if saved then (s.(mark := Some(row), poison := None), true)
      else (s.(poison := None), false)
    case Failed => (s.(poison := Forgiven(s.poison, row)), false)
  }

  function Deliver(s: Source, batch: seq<nat>, script: int -> Outcome, n: nat): Source
    requires n <= |batch|
    decreases |batch| - n
  {
    if n == |batch| then s
    else
      var (s', more) := Try(s, batch[n], script(n));
      if more then Deliver(s', batch, script, n + 1) else s'
  }

  /** Up to limit rows above the watermark, ascending. */
  function Batch(rows: nat, mark: nat, limit: nat): (b: seq<nat>)
    ensures forall i :: 0 <= i < |b| ==> b[i] == mark + 1 + i && b[i] <= rows
    ensures |b| <= limit
  {
    var n := if mark + limit <= rows then limit else if mark < rows then rows - mark else 0;
    seq(n, i requires 0 <= i < n => mark + 1 + i)
  }

  /** One source's slice of a pass; read failures end it. */
  function Pass(s: Source, limit: nat, readable: bool, script: int -> Outcome): Source {
    if s.mark.None? || !readable then s else Deliver(s, Batch(s.rows, s.mark.value, limit), script, 0)
  }

  /** Seed at enable: a missing watermark starts at the last row; one above it is clamped. */
  function Seeded(s: Source): Source {
    if s.mark.None? then s.(mark := Some(s.rows), seed := Some(s.rows))
    else if s.mark.value > s.rows then s.(mark := Some(s.rows))
    else s
  }

  /** A restart forgets the refusal counts and seeds again before any pass. */
  function Restarted(s: Source): Source {
    Seeded(s.(poison := None))
  }

  class Engine {
    // The source tables and alert_dispatch_state.
    var rows: map<string, nat>
    var marks: map<string, nat>
    // In memory.
    var poison: map<string, Poison>
    ghost var seeds: map<string, nat>
    ghost var logs: map<string, seq<Attempt>>

    ghost function At(src: string): Source
      reads this
    {
      Source(if src in rows then rows[src] else 0,
             if src in marks then Some(marks[src]) else None,
             if src in poison then Some(poison[src]) else None,
             if src in seeds then Some(seeds[src]) else None,
             if src in logs then logs[src] else [])
    }

    constructor (rows: map<string, nat>, marks: map<string, nat>)
      ensures this.rows == rows && this.marks == marks && poison == map[]
      ensures forall src :: At(src).seed.None? && At(src).log == []
    {
      this.rows, this.marks, poison := rows, marks, map[];
      seeds, logs := map[], map[];
    }

    method Insert(src: string)
      modifies this`rows
      ensures At(src) == old(At(src)).(rows := old(At(src).rows) + 1)
      ensures forall other :: other != src ==> At(other) == old(At(other))
    {
      rows := rows[src := (if src in rows then rows[src] else 0) + 1];
    }

    method Seed(src: string)
      modifies this`marks, this`seeds
      ensures At(src) == Seeded(old(At(src)))
      ensures forall other :: other != src ==> At(other) == old(At(other))
    {
      var max := if src in rows then rows[src] else 0;
      if src !in marks {
        marks := marks[src := max];
        seeds := seeds[src := max];
      } else if marks[src] > max {
        marks := marks[src := max];
      }
    }

    ghost method Log(src: string, row: nat, o: Outcome)
      modifies this`logs
      ensures At(src) == Logged(old(At(src)), row, o)
      ensures forall other :: other != src ==> At(other) == old(At(other))
    {
      var a := Attempt(row, if src in marks then marks[src] else 0, o);
      logs := logs[src := (if src in logs then logs[src] else []) + [a]];
    }

    /** One attempt and its bookkeeping; more is false when the pass must stop. */
    method TryRow(src: string, row: nat, o: Outcome) returns (more: bool)
      modifies this`marks, this`poison, this`logs
      ensures (At(src), more) == Try(old(At(src)), row, o)
      ensures forall other :: other != src ==> At(other) == old(At(other))
    {
      Log(src, row, o);
      match o
      case Delivered(saved) =>
        if !saved {
          return false;
        }
        marks := marks[src := row];
        if src in poison && poison[src].row == row {
          poison := poison - {src};
        }
        more := true;
      case Cut =>
        more := false;
      case Refused(saved) =>
        var count := (if src in poison && poison[src].row == row then poison[src].count else 0) + 1;
        if count < POISON_AFTER {
          poison := poison[src := Poison(row, count)];
          return false;
        }
        poison := poison - {src};
        if saved {
          marks := marks[src := row];
        }
        more := saved;
      case Failed =>
        if src in poison && poison[src].row == row {
          poison := poison - {src};
        }
        more := false;
    }

    method DispatchSource(src: string, limit: nat, readable: bool, script: int -> Outcome)
      modifies this`marks, this`poison, this`logs
      ensures At(src) == Pass(old(At(src)), limit, readable, script)
      ensures forall other :: other != src ==> At(other) == old(At(other))
    {
      if src !in marks || !readable {
        return;
      }
      var batch := Batch(if src in rows then rows[src] else 0, marks[src], limit);
      var n := 0;
      while n < |batch|
        invariant 0 <= n <= |batch|
        invariant Deliver(At(src), batch, script, n) == Deliver(old(At(src)), batch, script, 0)
        invariant forall other :: other != src ==> At(other) == old(At(other))
      {
        var more := TryRow(src, batch[n], script(n));
        if !more {
          return;
        }
        n := n + 1;
      }
    }
  }
}
