/**
 Listing a finite set in a total order, and the lexicographic order of strings.
 */
module Sorting {
  ghost predicate TotalOrder<T(!new)>(le: (T, T) -> bool) {
    && (forall a, b :: le(a, b) || le(b, a))
    && (forall a, b :: le(a, b) && le(b, a) ==> a == b)
    && (forall a, b, c :: le(a, b) && le(b, c) ==> le(a, c))
  }

  ghost predicate IsLeast<T>(x: T, s: set<T>, le: (T, T) -> bool) {
    x in s && forall y :: y in s ==> le(x, y)
  }

  lemma {:induction false} LeastExists<T(!new)>(s: set<T>, le: (T, T) -> bool) returns (x: T)
    requires s != {} && TotalOrder(le)
    ensures IsLeast(x, s, le)
    decreases |s|
  {
    x :| x in s;
    if s != {x} {
      var y := LeastExists(s - {x}, le);
      if le(y, x) {
        x := y;
      }
    }
  }

  function Least<T(!new)>(s: set<T>, le: (T, T) -> bool): (x: T)
    requires s != {} && TotalOrder(le)
    ensures IsLeast(x, s, le)
  {
    ghost var w := LeastOf(s, le);
    var x :| x in s && forall y :: y in s ==> le(x, y);
    x
  }

  ghost function LeastOf<T(!new)>(s: set<T>, le: (T, T) -> bool): (x: T)
    requires s != {} && TotalOrder(le)
    ensures IsLeast(x, s, le)
  {
    assert exists x :: IsLeast(x, s, le) by {
      var x := LeastExists(s, le);
    }
    var x :| IsLeast(x, s, le);
    x
  }

  /** The elements of a set, each once, in order. */
  function Listed<T(!new)>(s: set<T>, le: (T, T) -> bool): (r: seq<T>)
    requires TotalOrder(le)
    ensures |r| == |s|
    ensures forall x :: x in r <==> x in s
    ensures forall i, j :: 0 <= i < j < |r| ==> le(r[i], r[j]) && r[i] != r[j]
    decreases |s|
  {
    if s == {} then []
    else
      var x := Least(s, le);
      [x] + Listed(s - {x}, le)
  }

  /** Strings compare character by character; a proper prefix comes first. */
  predicate LexLe(a: string, b: string) {
    a == "" || (b != "" && (a[0] < b[0] || (a[0] == b[0] && LexLe(a[1..], b[1..]))))
  }

  lemma {:induction false} LexLeTotal(a: string, b: string)
    ensures LexLe(a, b) || LexLe(b, a)
    ensures LexLe(a, b) && LexLe(b, a) ==> a == b
  {
    if a != "" && b != "" && a[0] == b[0] {
      LexLeTotal(a[1..], b[1..]);
      assert a == [a[0]] + a[1..] && b == [b[0]] + b[1..];
    }
  }

  lemma {:induction false} LexLeTransitive(a: string, b: string, c: string)
    requires LexLe(a, b) && LexLe(b, c)
    ensures LexLe(a, c)
  {
    if a != "" && a[0] == b[0] == c[0] {
      LexLeTransitive(a[1..], b[1..], c[1..]);
    }
  }

  lemma LexIsTotal()
    ensures TotalOrder(LexLe)
  {
    forall a, b
      ensures LexLe(a, b) || LexLe(b, a)
      ensures LexLe(a, b) && LexLe(b, a) ==> a == b
    {
      LexLeTotal(a, b);
    }
    forall a, b, c | LexLe(a, b) && LexLe(b, c)
      ensures LexLe(a, c)
    {
      LexLeTransitive(a, b, c);
    }
  }
}
