/**
 The single normative rounding rule of the control plane: half away from zero
 at 8 decimals. Everything else about decimals is exact and modelled by `real`.
 */
module Decimals {

  /** A value with at most 8 decimals. */
  ghost predicate OnGrid(d: real) {
    (d * 100000000.0).Floor as real == d * 100000000.0
  }

  /** Half away from zero at 8 decimals. */
  function Round8(d: real): (r: real)
    ensures d - 0.000000005 <= r <= d + 0.000000005
  {
    if d >= 0.0 then (d * 100000000.0 + 0.5).Floor as real / 100000000.0
    else -((0.5 - d * 100000000.0).Floor as real / 100000000.0)
  }

  lemma Round8OnGrid(d: real)
    ensures OnGrid(Round8(d))
  {
    var n := if d >= 0.0 then (d * 100000000.0 + 0.5).Floor else -(0.5 - d * 100000000.0).Floor;
    assert Round8(d) * 100000000.0 == n as real;
  }

  lemma Round8FixesGrid(d: real)
    requires OnGrid(d)
    ensures Round8(d) == d
  {
    var n := (d * 100000000.0).Floor;
    assert d * 100000000.0 == n as real;
    if d >= 0.0 {
      assert (d * 100000000.0 + 0.5).Floor == n;
    } else {
      assert (0.5 - d * 100000000.0).Floor == -n;
    }
  }

  lemma Round8Monotone(a: real, b: real)
    requires a <= b
    ensures Round8(a) <= Round8(b)
  {
    if a >= 0.0 {
      assert (a * 100000000.0 + 0.5).Floor <= (b * 100000000.0 + 0.5).Floor;
    } else if b < 0.0 {
      assert (0.5 - a * 100000000.0).Floor >= (0.5 - b * 100000000.0).Floor;
    }
  }

  /** The sign does not matter to the rounding, and a tie goes away from zero. */
  lemma TiesGoAway(d: real, n: nat)
    ensures Round8(-d) == -Round8(d)
    ensures Round8((n as real + 0.5) / 100000000.0) == (n + 1) as real / 100000000.0
  {
    var x := (n as real + 0.5) / 100000000.0;
    assert x * 100000000.0 + 0.5 == (n + 1) as real;
    assert (x * 100000000.0 + 0.5).Floor == n + 1;
    if d < 0.0 {
      assert 0.5 - d * 100000000.0 == -d * 100000000.0 + 0.5;
    } else if d == 0.0 {
      assert (0.5 - 0.0).Floor == 0;
    }
  }

  // ----- Scaling -----

  lemma Scale(x: real, y: real, k: real)
    requires k > 0.0
    ensures x <= y <==> x * k <= y * k
  {
  }

  lemma DivideBack(x: real, k: real)
    requires k != 0.0
    ensures x / k * k == x
  {
  }

  function Abs(x: real): (r: real)
    ensures r >= 0.0 && (r == x || r == -x)
  {
    if x < 0.0 then -x else x
  }

  function Min(x: real, y: real): (r: real)
    ensures r <= x && r <= y && (r == x || r == y)
  {
    if x <= y then x else y
  }

  function Max(x: real, y: real): (r: real)
    ensures x <= r && y <= r && (r == x || r == y)
  {
    if x >= y then x else y
  }

  /** The sign of a value: -1, 0 or 1. */
  function Sign(x: real): (s: int)
    ensures -1 <= s <= 1
    ensures (s == 1 <==> x > 0.0) && (s == -1 <==> x < 0.0)
  {
    if x > 0.0 then 1 else if x < 0.0 then -1 else 0
  }
}
