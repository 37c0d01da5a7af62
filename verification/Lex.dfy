// Strings and sequences: Python's order on `str` (code point by code point, a proper prefix first) and
// the least element it picks from a non-empty set of strings.
module Lex {

  predicate Le(a: string, b: string) {
    if a == "" then true
    else if b == "" then false
    else a[0] < b[0] || (a[0] == b[0] && Le(a[1..], b[1..]))
  }

  lemma {:induction false} LeTotal(a: string, b: string)
    ensures Le(a, b) || Le(b, a)
  {
    if a != "" && b != "" {
      LeTotal(a[1..], b[1..]);
    }
  }

  lemma {:induction false} LeAntisymmetric(a: string, b: string)
    requires Le(a, b) && Le(b, a)
    ensures a == b
  {
    if a != "" && b != "" {
      LeAntisymmetric(a[1..], b[1..]);
      assert a == [a[0]] + a[1..] && b == [b[0]] + b[1..];
    }
  }

  lemma {:induction false} LeTransitive(a: string, b: string, c: string)
    requires Le(a, b) && Le(b, c)
    ensures Le(a, c)
  {
    if a != "" && b != "" && c != "" && a[0] == b[0] == c[0] {
      LeTransitive(a[1..], b[1..], c[1..]);
    }
  }

  ghost predicate IsLeast(x: string, s: set<string>) {
    x in s && forall y :: y in s ==> Le(x, y)
  }

  lemma LeastUnique(x: string, y: string, s: set<string>)
    requires IsLeast(x, s) && IsLeast(y, s)
    ensures x == y
  {
    LeAntisymmetric(x, y);
  }

  function Elements<T>(xs: seq<T>): set<T> {
    set x | x in xs
  }

  lemma ElementsEmpty<T>(xs: seq<T>, ys: seq<T>)
    requires Elements(xs) == Elements(ys)
    ensures xs == [] <==> ys == []
  {
    assert xs != [] ==> xs[0] in Elements(xs);
    assert ys != [] ==> ys[0] in Elements(ys);
  }

  // Python's `min(xs)`.
  function Min(xs: seq<string>): (x: string)
    requires xs != []
    ensures IsLeast(x, Elements(xs))
  {
    LeTotal(xs[0], xs[0]);
    if |xs| == 1 then xs[0]
    else
      var y := Min(xs[1..]);
      LeTotal(xs[0], y);
      assert forall z :: z in xs <==> z == xs[0] || z in xs[1..];
      if Le(xs[0], y) then (LeastOfFront(xs, y); xs[0]) else y
  }

  lemma LeastOfFront(xs: seq<string>, y: string)
    requires |xs| > 1 && IsLeast(y, Elements(xs[1..])) && Le(xs[0], y)
    ensures IsLeast(xs[0], Elements(xs))
  {
    LeTotal(xs[0], xs[0]);
    forall z | z in xs[1..] ensures Le(xs[0], z) {
      LeTransitive(xs[0], y, z);
    }
  }

  // The minimum depends on the set of values only, not on their order or count.
  lemma MinOfSet(xs: seq<string>, ys: seq<string>)
    requires xs != [] && ys != [] && Elements(xs) == Elements(ys)
    ensures Min(xs) == Min(ys)
  {
    LeastUnique(Min(xs), Min(ys), Elements(xs));
  }

  lemma {:induction false} SizeOfElements<T>(xs: seq<T>)
    ensures |Elements(xs)| <= |xs|
  {
    if xs != [] {
      SizeOfElements(xs[1..]);
      assert Elements(xs) == {xs[0]} + Elements(xs[1..]);
    }
  }

  lemma {:induction false} DistinctCount<T>(s: seq<T>)
    requires forall a, b :: 0 <= a < b < |s| ==> s[a] != s[b]
    ensures |Elements(s)| == |s|
  {
    if s != [] {
      var t := s[..|s| - 1];
      DistinctCount(t);
      assert Elements(s) == Elements(t) + {s[|s| - 1]};
    }
  }
}
