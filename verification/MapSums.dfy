/** Sums of real values over finite maps, independent of any order of the keys. */
module MapSums {

  ghost function Total<K>(m: map<K, real>): real {
    if m == map[] then 0.0
    else
      var k :| k in m;
      m[k] + Total(m - {k})
  }

  /** Any key may be taken out first. */
  lemma {:induction false} TotalPick<K>(m: map<K, real>, k: K)
    requires k in m
    ensures Total(m) == m[k] + Total(m - {k})
    decreases |m|
  {
    var c :| c in m && Total(m) == m[c] + Total(m - {c});
    if c != k {
      TotalPick(m - {c}, k);
      TotalPick(m - {k}, c);
      assert m - {c} - {k} == m - {k} - {c};
    }
  }

  function GetOr<K, V>(m: map<K, V>, k: K, default: V): V {
    if k in m then m[k] else default
  }

  /** Writing one key moves the sum by the change at that key. */
  lemma TotalUpdate<K>(m: map<K, real>, k: K, v: real)
    ensures Total(m[k := v]) == Total(m) - GetOr(m, k, 0.0) + v
  {
    TotalPick(m[k := v], k);
    assert m[k := v] - {k} == m - {k};
    if k in m {
      TotalPick(m, k);
    } else {
      assert m - {k} == m;
    }
  }

  ghost function ListSum<K>(keys: seq<K>, m: map<K, real>): real {
    if keys == [] then 0.0
    else
      ListSum(keys[..|keys| - 1], m) + GetOr(m, keys[|keys| - 1], 0.0)
  }

  lemma {:induction false} ListSumSkips<K>(keys: seq<K>, m: map<K, real>, k: K)
    requires k !in keys
    ensures ListSum(keys, m - {k}) == ListSum(keys, m)
  {
    if keys != [] {
      ListSumSkips(keys[..|keys| - 1], m, k);
    }
  }

  /** Adding along a list of all keys gives the sum. */
  lemma {:induction false} ListSumIsTotal<K>(keys: seq<K>, m: map<K, real>)
    requires forall k :: k in keys <==> k in m.Keys
    requires forall i, j :: 0 <= i < j < |keys| ==> keys[i] != keys[j]
    ensures ListSum(keys, m) == Total(m)
    decreases |keys|
  {
    if keys == [] {
      assert m.Keys == {};
    } else {
      var before, last := keys[..|keys| - 1], keys[|keys| - 1];
      assert keys == before + [last] && last in keys && last !in before;
      ListSumIsTotal(before, m - {last});
      ListSumSkips(before, m, last);
      TotalPick(m, last);
    }
  }
}
