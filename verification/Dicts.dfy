// Python's dict with string keys: a map that remembers the order its keys came in.
module Dicts {
  import opened Seqs

  datatype Entries<+V> = Entries(keys: seq<string>, vals: map<string, V>)

  type Dict<+V> = d: Entries<V> | Ordered(d) witness Entries([], map[])

  ghost predicate Ordered<V>(d: Entries<V>) {
    && (forall k :: k in d.keys <==> k in d.vals)
    && Distinct(d.keys)
  }

  lemma DistinctSnoc(ks: seq<string>, k: string)
    requires Distinct(ks) && k !in ks
    ensures Distinct(ks + [k])
  {}

  // The last of distinct keys is new to the ones before it.
  lemma DistinctLast(ks: seq<string>)
    requires Distinct(ks) && ks != []
    ensures var n := |ks| - 1; Distinct(ks[..n]) && ks[n] !in ks[..n]
    ensures forall k :: k in ks <==> k in ks[..|ks| - 1] || k == ks[|ks| - 1]
  {
    assert ks == ks[..|ks| - 1] + [ks[|ks| - 1]];
  }

  function Empty<V>(): Dict<V> {
    Entries([], map[])
  }

  function SetDefault<V>(d: Dict<V>, k: string, v: V): Dict<V> {
    if k in d.vals then d
    else
      DistinctSnoc(d.keys, k);
      Entries(d.keys + [k], d.vals[k := v])
  }

  // First-seen deduplication: `list(dict.fromkeys(xs))`.
  function FromKeys(xs: seq<string>): (ys: seq<string>)
    ensures Distinct(ys) && forall x :: x in ys <==> x in xs
  {
    if xs == [] then []
    else
      var n := |xs| - 1;
      assert forall x :: x in xs <==> x in xs[..n] || x == xs[n];
      var ys := FromKeys(xs[..n]);
      if xs[n] in ys then ys else ys + [xs[n]]
  }

  lemma {:induction false} FromKeysFirstSeen(xs: seq<string>)
    ensures FirstSeen(xs, FromKeys(xs))
  {
    if xs != [] {
      var n := |xs| - 1;
      FromKeysFirstSeen(xs[..n]);
      assert xs == xs[..n] + [xs[n]];
      FirstSeenSnoc(xs[..n], FromKeys(xs[..n]), xs[n], xs, FromKeys(xs));
    }
  }

  lemma FirstAtSnoc(xs: seq<string>, last: string, x: string)
    requires x in xs
    ensures FirstAt(xs + [last], x) == FirstAt(xs, x)
  {
    var n := FirstAt(xs, x);
    assert (xs + [last])[..n] == xs[..n];
    FirstAtIs(xs + [last], x, n);
  }

  lemma FirstAtLast(xs: seq<string>, last: string)
    requires last !in xs
    ensures last in xs + [last] && FirstAt(xs + [last], last) == |xs|
  {
    assert (xs + [last])[..|xs|] == xs;
    FirstAtIs(xs + [last], last, |xs|);
  }

  lemma FirstSeenSnoc(xs: seq<string>, ys: seq<string>, last: string, more: seq<string>, out: seq<string>)
    requires FirstSeen(xs, ys) && more == xs + [last] && out == if last in ys then ys else ys + [last]
    ensures FirstSeen(more, out)
  {
    forall i, j | 0 <= i < j < |out| && out[i] in more && out[j] in more
      ensures FirstAt(more, out[i]) < FirstAt(more, out[j])
    {
      assert out[i] == ys[i];
      FirstAtSnoc(xs, last, ys[i]);
      if j < |ys| {
        FirstAtSnoc(xs, last, ys[j]);
      } else {
        FirstAtLast(xs, last);
      }
    }
  }

  // The keys of ks that d lacks, in order.
  function Missing<V>(d: Dict<V>, ks: seq<string>): seq<string> {
    if ks == [] then []
    else
      var n := |ks| - 1;
      Missing(d, ks[..n]) + if ks[n] in d.vals then [] else [ks[n]]
  }

  // d after `setdefault` with the first n entries of e.
  function UnionUpto<V>(d: Dict<V>, e: Dict<V>, n: nat): (f: Dict<V>)
    requires n <= |e.keys|
    ensures Unites(d, e.vals, e.keys[..n], f)
  {
    if n == 0 then d
    else
      var f := UnionUpto(d, e, n - 1);
      var k := e.keys[n - 1];
      NextKey(e, n - 1);
      UnitesSnoc(d, e.vals, e.keys[..n - 1], k, f);
      SetDefault(f, k, e.vals[k])
  }

  // The next key has a value, is new, and extends the keys before it.
  lemma NextKey<V>(e: Dict<V>, i: nat)
    requires i < |e.keys|
    ensures e.keys[i] in e.vals && e.keys[i] !in e.keys[..i]
    ensures e.keys[..i + 1] == e.keys[..i] + [e.keys[i]]
  {
    assert e.keys[i] in e.keys;
  }

  // `f` is `d` with what `vals` holds at the keys `ks` that `d` lacks, in order.
  ghost predicate Unites<V>(d: Dict<V>, vals: map<string, V>, ks: seq<string>, f: Dict<V>) {
    && f.keys == d.keys + Missing(d, ks)
    && (forall k :: k in f.vals <==> k in d.vals || k in ks)
    && (forall k :: k in f.vals ==> if k in d.vals then f.vals[k] == d.vals[k] else k in vals && f.vals[k] == vals[k])
  }

  lemma UnitesSnoc<V>(d: Dict<V>, vals: map<string, V>, ks: seq<string>, k: string, f: Dict<V>)
    requires k in vals && k !in ks && Unites(d, vals, ks, f)
    ensures Unites(d, vals, ks + [k], SetDefault(f, k, vals[k]))
  {
    assert (ks + [k])[..|ks|] == ks;
    assert d.keys + (Missing(d, ks) + [k]) == (d.keys + Missing(d, ks)) + [k];
    assert d.keys + (Missing(d, ks) + []) == d.keys + Missing(d, ks);
  }

  // d, then what e adds: d's entries win and come first.
  function Union<V>(d: Dict<V>, e: Dict<V>): (f: Dict<V>)
    ensures f.keys == d.keys + Missing(d, e.keys)
    ensures forall k :: k in f.vals <==> k in d.vals || k in e.vals
    ensures forall k :: k in f.vals ==> f.vals[k] == if k in d.vals then d.vals[k] else e.vals[k]
  {
    assert e.keys[..|e.keys|] == e.keys;
    UnionUpto(d, e, |e.keys|)
  }

  // `for k, v in e.items(): d.setdefault(k, v)`
  method SetDefaults<V>(d: Dict<V>, e: Dict<V>) returns (f: Dict<V>)
    ensures f == Union(d, e)
  {
    f := d;
    for i := 0 to |e.keys|
      invariant f == UnionUpto(d, e, i)
    {
      assert e.keys[i] in e.keys;
      f := SetDefault(f, e.keys[i], e.vals[e.keys[i]]);
    }
  }

  // `for k in ks: m[k] = v`
  method PutAll<V>(m: map<string, V>, ks: seq<string>, v: V) returns (n: map<string, V>)
    ensures forall k :: k in n <==> k in m || k in ks
    ensures forall k :: k in n ==> n[k] == if k in ks then v else m[k]
  {
    n := m;
    for i := 0 to |ks|
      invariant forall k :: k in n <==> k in m || k in ks[..i]
      invariant forall k :: k in n ==> n[k] == if k in ks[..i] then v else m[k]
    {
      n := n[ks[i] := v];
      assert ks[..i + 1] == ks[..i] + [ks[i]];
    }
    assert ks[..|ks|] == ks;
  }

  // `m` is `base` with the entries of `all` at the keys done so far.
  ghost predicate Mixed<V>(base: map<string, V>, all: map<string, V>, done: set<string>, m: map<string, V>)
    requires done <= all.Keys
  {
    && m.Keys == base.Keys + done
    && forall k :: k in m ==> m[k] == if k in done then all[k] else base[k]
  }

  lemma MixedStep<V>(base: map<string, V>, all: map<string, V>, done: set<string>, m: map<string, V>, key: string)
    requires done <= all.Keys && key in all && Mixed(base, all, done, m)
    ensures Mixed(base, all, done + {key}, m[key := all[key]])
  {}

  lemma MixedAll<V>(base: map<string, V>, all: map<string, V>, done: set<string>, m: map<string, V>)
    requires done <= all.Keys && Mixed(base, all, done, m)
    requires all.Keys == base.Keys + done && forall k :: k in base && k !in done ==> all[k] == base[k]
    ensures m == all
  {}

  // The first n keys, as a set.
  ghost function KeySet<V>(e: Dict<V>, n: nat): set<string>
    requires n <= |e.keys|
  {
    if n == 0 then {} else KeySet(e, n - 1) + {e.keys[n - 1]}
  }

  lemma {:induction false} KeySetIs<V>(e: Dict<V>, n: nat)
    requires n <= |e.keys|
    ensures forall k :: k in KeySet(e, n) <==> k in e.keys[..n]
    ensures KeySet(e, n) <= e.vals.Keys
  {
    if n > 0 {
      KeySetIs(e, n - 1);
      NextKey(e, n - 1);
    }
  }

  lemma KeySetNext<V>(e: Dict<V>, n: nat)
    requires n < |e.keys|
    ensures e.keys[n] in e.vals && e.keys[n] !in KeySet(e, n)
  {
    KeySetIs(e, n);
    NextKey(e, n);
  }

  lemma KeySetAll<V>(e: Dict<V>)
    ensures KeySet(e, |e.keys|) == e.vals.Keys
  {
    KeySetIs(e, |e.keys|);
    assert e.keys[..|e.keys|] == e.keys;
  }
}
