// resume_store.py: what the shelves read back, newest first, and the recent queries.
module ResumeViews {
  import opened Seqs
  import opened Wrappers
  import opened ResumeStore
  import Lex

  // ---- Recent queries ----

  // The queries asked so far, each once, the last asked first: no bound, no state. A blank one
  // is no query.
  ghost function LastUses(asked: seq<string>): seq<string> {
    if asked == [] then []
    else
      var before, q := LastUses(asked[..|asked| - 1]), asked[|asked| - 1];
      if q == "" then before else [q] + Without(before, q)
  }

  lemma {:induction false} WithoutKeepsOrder(xs: seq<string>, x: string)
    requires Distinct(xs)
    ensures Distinct(Without(xs, x)) && x !in Without(xs, x)
    ensures forall y :: y in Without(xs, x) <==> y in xs && y != x
  {
    if xs != [] {
      var rest := xs[1..];
      assert forall y :: y in xs <==> y == xs[0] || y in rest;
      WithoutKeepsOrder(rest, x);
      assert forall i :: 0 <= i < |rest| ==> rest[i] == xs[i + 1];
      assert xs[0] !in rest;
    }
  }

  lemma {:induction false} WithoutAbsent(xs: seq<string>, x: string)
    requires x !in xs
    ensures Without(xs, x) == xs
  {
    if xs != [] {
      assert x !in xs[1..];
      WithoutAbsent(xs[1..], x);
    }
  }

  // Dropping an entry from the first n leaves the first n - 1 of the list without it.
  lemma {:induction false} WithoutFront(xs: seq<string>, x: string, n: nat)
    requires Distinct(xs) && n > 0
    ensures Front(Without(Front(xs, n), x), n - 1) == Front(Without(xs, x), n - 1)
  {
    if xs != [] {
      var rest := xs[1..];
      assert Distinct(rest) by {
        assert forall i :: 0 <= i < |rest| ==> rest[i] == xs[i + 1];
      }
      assert Front(xs, n) == [xs[0]] + Front(rest, n - 1);
      assert Front(xs, n)[1..] == Front(rest, n - 1);
      if xs[0] == x {
        assert x !in rest;
        WithoutAbsent(rest, x);
        WithoutAbsent(Front(rest, n - 1), x);
      } else if n == 1 {
      } else {
        WithoutFront(rest, x, n - 1);
        FrontCons(xs[0], Without(rest, x), n - 1);
        FrontCons(xs[0], Without(Front(rest, n - 1), x), n - 1);
      }
    }
  }

  lemma FrontCons(x: string, xs: seq<string>, n: nat)
    requires n > 0
    ensures Front([x] + xs, n) == [x] + Front(xs, n - 1)
  {}

  ghost function AskedIn(s: State, asked: seq<string>): State {
    if asked == [] then s else QueryRecorded(AskedIn(s, asked[..|asked| - 1]), asked[|asked| - 1])
  }

  lemma {:induction false} LastUsesDistinct(asked: seq<string>)
    ensures Distinct(LastUses(asked))
  {
    if asked != [] {
      LastUsesDistinct(asked[..|asked| - 1]);
      WithoutKeepsOrder(LastUses(asked[..|asked| - 1]), asked[|asked| - 1]);
    }
  }

  // From an empty store, moving each repeat to the front and keeping 50 at every step holds
  // the 50 most recently asked of all queries ever asked, in order of their last use.
  lemma {:induction false} RecentQueries(asked: seq<string>)
    ensures AskedIn(EMPTY, asked).queries == Front(LastUses(asked), MAX_QUERIES)
  {
    if asked != [] {
      var before, q := asked[..|asked| - 1], asked[|asked| - 1];
      RecentQueries(before);
      LastUsesDistinct(before);
      var all := LastUses(before);
      WithoutFront(all, q, MAX_QUERIES);
      FrontCons(q, Without(Front(all, MAX_QUERIES), q), MAX_QUERIES);
      FrontCons(q, Without(all, q), MAX_QUERIES);
    }
  }

  // ---- Newest first ----

  datatype Seen = Seen(at: real, id: string)

  predicate NoNewer(x: Seen, y: Seen) {
    Before(x.at, x.id, y.at, y.id)
  }

  lemma NoNewerTotal(x: Seen, y: Seen)
    ensures NoNewer(x, y) || NoNewer(y, x)
  {
    Lex.LeTotal(x.id, y.id);
  }

  lemma NoNewerTransitive(x: Seen, y: Seen, z: Seen)
    requires NoNewer(x, y) && NoNewer(y, z)
    ensures NoNewer(x, z)
  {
    if Lex.Le(x.id, y.id) && Lex.Le(y.id, z.id) {
      Lex.LeTransitive(x.id, y.id, z.id);
    }
  }

  ghost predicate Newest(x: Seen, all: multiset<Seen>) {
    x in all && forall y :: y in all ==> NoNewer(y, x)
  }

  ghost predicate Descending(xs: seq<Seen>) {
    forall i, j :: 0 <= i < j < |xs| ==> NoNewer(xs[j], xs[i])
  }

  function Ids(xs: seq<Seen>): (ids: seq<string>)
    ensures |ids| == |xs| && forall i :: 0 <= i < |ids| ==> ids[i] == xs[i].id
  {
    seq(|xs|, i requires 0 <= i < |xs| => xs[i].id)
  }

  lemma {:induction false} NewestExists(all: multiset<Seen>)
    requires all != multiset{}
    ensures exists x :: Newest(x, all)
    decreases |all|
  {
    var x :| x in all;
    var rest := all - multiset{x};
    NoNewerTotal(x, x);
    if rest == multiset{} {
      assert forall y :: y in all ==> y == x || y in rest;
      assert Newest(x, all);
    } else {
      NewestExists(rest);
      var y :| Newest(y, rest);
      assert forall z :: z in all ==> z == x || z in rest;
      NoNewerTotal(x, y);
      if NoNewer(x, y) {
        assert Newest(y, all);
      } else {
        forall z | z in all ensures NoNewer(z, x) {
          if z != x {
            NoNewerTransitive(z, y, x);
          }
        }
        assert Newest(x, all);
      }
    }
  }

  // Python's `sorted(..., reverse=True)`; equal elements here are the same pair.
  method SortedNewestFirst(all: multiset<Seen>) returns (out: seq<Seen>)
    ensures multiset(out) == all && Descending(out)
  {
    out := [];
    var rest := all;
    while rest != multiset{}
      invariant multiset(out) + rest == all && Descending(out)
      invariant forall i, y :: 0 <= i < |out| && y in rest ==> NoNewer(y, out[i])
      decreases |rest|
    {
      NewestExists(rest);
      var x :| x in rest && forall y :: y in rest ==> NoNewer(y, x);
      out := out + [x];
      rest := rest - multiset{x};
    }
  }

  function ItemTimes(s: State): set<Seen> {
    set k | k in s.items :: Seen(Stamp(s.items[k]), k)
  }

  function FinishedTimes(s: State): set<Seen> {
    set k | k in s.finished :: Seen(s.finished[k], k)
  }

  function Timeline(s: State): multiset<Seen> {
    multiset(ItemTimes(s)) + multiset(FinishedTimes(s))
  }

  // `ids` are the newest `limit` of these, in order.
  ghost predicate AreNewest(ids: seq<string>, all: multiset<Seen>, limit: nat) {
    exists out :: multiset(out) == all && Descending(out) && ids == Front(Ids(out), limit)
  }

  // «Recently watched»: active and finished items together.
  method History(s: State, limit: nat) returns (ids: seq<string>)
    ensures AreNewest(ids, Timeline(s), limit)
  {
    var out := SortedNewestFirst(Timeline(s));
    ids := Front(Ids(out), limit);
  }

  // The resume row: active items.
  method Recent(s: State, limit: nat) returns (ids: seq<string>)
    ensures AreNewest(ids, multiset(ItemTimes(s)), limit)
  {
    var out := SortedNewestFirst(multiset(ItemTimes(s)));
    ids := Front(Ids(out), limit);
  }

  lemma TwiceCounts(out: seq<Seen>, i: nat, j: nat)
    requires i < j < |out| && out[i] == out[j]
    ensures multiset(out)[out[i]] >= 2
  {
    assert out == out[..j] + out[j..];
    assert out[..j][i] == out[i] && out[j..][0] == out[i];
    assert out[i] in multiset(out[..j]) && out[i] in multiset(out[j..]);
  }

  lemma {:induction false} CountsTwice(out: seq<Seen>, x: Seen)
    requires multiset(out)[x] >= 2
    ensures exists i, j :: 0 <= i < j < |out| && out[i] == x && out[j] == x
  {
    var last := |out| - 1;
    assert out == out[..last] + [out[last]];
    if out[last] == x {
      assert x in multiset(out[..last]);
      var i :| 0 <= i < last && out[..last][i] == x;
      assert out[i] == x && out[last] == x;
    } else {
      CountsTwice(out[..last], x);
      var i, j :| 0 <= i < j < last && out[..last][i] == x && out[..last][j] == x;
      assert out[i] == x && out[j] == x;
    }
  }

  // The whole history names an item twice exactly when it is on the shelf and was finished
  // before: a rewatch shows up as two rows.
  lemma HistoryRepeatsIff(s: State, out: seq<Seen>, id: string)
    requires multiset(out) == Timeline(s)
    ensures (exists i, j :: 0 <= i < j < |out| && out[i].id == id && out[j].id == id) <==>
      id in s.items && id in s.finished
    ensures id in s.items || id in s.finished <==> exists i :: 0 <= i < |out| && out[i].id == id
  {
    var items, finished := ItemTimes(s), FinishedTimes(s);
    assert forall i :: 0 <= i < |out| ==> out[i] in multiset(out);
    if id in s.items {
      assert Seen(Stamp(s.items[id]), id) in items;
      assert Seen(Stamp(s.items[id]), id) in multiset(out);
    }
    if id in s.finished {
      assert Seen(s.finished[id], id) in finished;
      assert Seen(s.finished[id], id) in multiset(out);
    }
    if id in s.items && id in s.finished {
      BothAppear(s, out, id);
    }
    if i, j :| 0 <= i < j < |out| && out[i].id == id && out[j].id == id {
      if out[i] == out[j] {
        TwiceCounts(out, i, j);
      }
    }
  }

  lemma BothAppear(s: State, out: seq<Seen>, id: string)
    requires multiset(out) == Timeline(s) && id in s.items && id in s.finished
    ensures exists i, j :: 0 <= i < j < |out| && out[i].id == id && out[j].id == id
  {
    var x, y := Seen(Stamp(s.items[id]), id), Seen(s.finished[id], id);
    assert x in ItemTimes(s) && y in FinishedTimes(s);
    assert x in multiset(out) && y in multiset(out);
    if x == y {
      assert multiset(out)[x] >= 2;
      CountsTwice(out, x);
    } else {
      var i :| 0 <= i < |out| && out[i] == x;
      var j :| 0 <= j < |out| && out[j] == y;
      assert out[i].id == id && out[j].id == id && i != j;
      if i < j {
        assert 0 <= i < j < |out|;
      } else {
        assert 0 <= j < i < |out|;
      }
    }
  }

  // The resume row never repeats an item.
  lemma RecentDistinct(s: State, out: seq<Seen>)
    requires multiset(out) == multiset(ItemTimes(s))
    ensures Distinct(Ids(out))
  {
    assert forall i :: 0 <= i < |out| ==> out[i] in multiset(out);
    forall i, j | 0 <= i < j < |out| ensures out[i].id != out[j].id {
      assert out[i] in ItemTimes(s) && out[j] in ItemTimes(s);
      if out[i].id == out[j].id {
        TwiceCounts(out, i, j);
      }
    }
  }

  // A report that finishes an item leaves it in the history exactly once, however often it was seen before.
  lemma FinishedOnce(s: State, id: string, position: int, runtime: Option<int>, now: real, out: seq<Seen>)
    requires position > 0 && multiset(out) == Timeline(Recorded(s, id, position, runtime, now))
    ensures Finishes(s, id, position, runtime) ==>
      forall i, j :: 0 <= i < j < |out| && out[i].id == id ==> out[j].id != id
  {
    HistoryRepeatsIff(Recorded(s, id, position, runtime, now), out, id);
  }
}
