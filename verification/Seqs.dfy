// Sequences without repeats, and Python's `xs[:n]` for n from 0 on.
module Seqs {
  ghost predicate Distinct<T>(xs: seq<T>) {
    forall i, j :: 0 <= i < j < |xs| ==> xs[i] != xs[j]
  }

  function Front<T>(xs: seq<T>, n: nat): seq<T> {
    if |xs| <= n then xs else xs[..n]
  }

  // The first place of an element.
  ghost function FirstAt<T>(xs: seq<T>, x: T): (n: nat)
    requires x in xs
    ensures n < |xs| && xs[n] == x && x !in xs[..n]
  {
    FirstExists(xs, x);
    var n: nat :| n < |xs| && xs[n] == x && x !in xs[..n];
    n
  }

  lemma {:induction false} FirstExists<T>(xs: seq<T>, x: T)
    requires x in xs
    ensures exists n: nat :: n < |xs| && xs[n] == x && x !in xs[..n]
  {
    var last := |xs| - 1;
    if x in xs[..last] {
      FirstExists(xs[..last], x);
      var n: nat :| n < last && xs[..last][n] == x && x !in xs[..last][..n];
      assert xs[..last][..n] == xs[..n];
    } else {
      assert xs == xs[..last] + [xs[last]];
    }
  }

  lemma FirstAtIs<T>(xs: seq<T>, x: T, n: nat)
    requires n < |xs| && xs[n] == x && x !in xs[..n]
    ensures FirstAt(xs, x) == n
  {}

  // The elements of `xs`, each once, in the order they are first seen.
  ghost predicate FirstSeen<T(!new)>(xs: seq<T>, ys: seq<T>) {
    && Distinct(ys)
    && (forall x :: x in ys <==> x in xs)
    && (forall i, j :: 0 <= i < j < |ys| && ys[i] in xs && ys[j] in xs ==> FirstAt(xs, ys[i]) < FirstAt(xs, ys[j]))
  }
}
