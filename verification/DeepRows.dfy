// snapshot.py extend_row_pool: a row's cards past the snapshot.
module DeepRows {
  import opened Seqs
  import opened WireIdentity
  import opened Wrappers
  import opened Merge
  import opened MergeKeys
  import opened RoundRobin
  import opened Dicts
  import opened Home
  import Lex

  // No two of the first n groups are those of two twins.
  ghost predicate NoTwinsShown(r: Rules, walk: seq<SearchResult>, n: nat) {
    forall k, l :: 0 <= k < l < n ==> !TwinGroups(r, walk, k, l)
  }

  // Folding a row by key changes nothing exactly if its cards, which are the groups within the
  // cut, hold no two groups of twins.
  lemma RowIsAlreadyFoldedIff(r: Rules, lists: Listings, limit: int)
    requires Lawful(r)
    ensures Aggregated(RowItems(r, lists, limit)) == RowItems(r, lists, limit)
       <==> NoTwinsShown(r, WalkOf(lists, limit), |RowItems(r, lists, limit)|)
  {
    var items, walk := RowItems(r, lists, limit), WalkOf(lists, limit);
    FoldIdentityIff(items);
    forall k, l | 0 <= k < l < |items| ensures PairDecided(r, items, walk, k, l) {
      RowPair(r, lists, limit, k, l);
    }
    PairsDecide(r, items, walk);
  }

  ghost predicate PairDecided(r: Rules, items: seq<HomeItem>, walk: seq<SearchResult>, k: nat, l: nat)
    requires k < |items| && l < |items|
  {
    items[k].groupKey == items[l].groupKey <==> TwinGroups(r, walk, k, l)
  }

  lemma PairsDecide(r: Rules, items: seq<HomeItem>, walk: seq<SearchResult>)
    requires forall k, l :: 0 <= k < l < |items| ==> PairDecided(r, items, walk, k, l)
    ensures DistinctItems(items) <==> NoTwinsShown(r, walk, |items|)
  {
    if DistinctItems(items) {
      forall k, l | 0 <= k < l < |items| ensures !TwinGroups(r, walk, k, l) {
        assert PairDecided(r, items, walk, k, l);
      }
    }
    if NoTwinsShown(r, walk, |items|) {
      forall k, l | 0 <= k < l < |items| ensures items[k].groupKey != items[l].groupKey {
        assert PairDecided(r, items, walk, k, l);
      }
    }
  }

  lemma RowPair(r: Rules, lists: Listings, limit: int, k: nat, l: nat)
    requires Lawful(r) && k < l < |RowItems(r, lists, limit)|
    ensures PairDecided(r, RowItems(r, lists, limit), WalkOf(lists, limit), k, l)
  {
    RowKey(r, lists, limit, k);
    RowKey(r, lists, limit, l);
    GroupKeysIff(r, WalkOf(lists, limit), k, l);
  }

  // The k-th card of the row is the k-th group of the walk.
  lemma RowKey(r: Rules, lists: Listings, limit: int, k: nat)
    requires k < |RowItems(r, lists, limit)|
    ensures k < |MergeSpec(r, WalkOf(lists, limit))|
    ensures RowItems(r, lists, limit)[k].groupKey == MergeSpec(r, WalkOf(lists, limit))[k].key
  {
    SourcesNonEmpty(r, WalkOf(lists, limit));
    assert RowItems(r, lists, limit)[k] == ItemOf(r, MergeSpec(r, WalkOf(lists, limit))[k]);
  }

  // The snapshot's cards, then the deeper cards whose keys are new.
  function Extended(pool: seq<HomeItem>, deeper: seq<HomeItem>): seq<HomeItem> {
    if deeper == [] then pool
    else
      var n := |deeper| - 1;
      var acc := Extended(pool, deeper[..n]);
      if deeper[n].groupKey in Keys(acc) then acc else acc + [deeper[n]]
  }

  method ExtendRowPool(r: Rules, snapshot: seq<HomeItem>, collected: Listings) returns (pool: Option<seq<HomeItem>>)
    ensures pool == if Total(collected) == 0 then None
                    else Some(Extended(snapshot, RowItems(r, collected, Total(collected))))
  {
    if Total(collected) == 0 {
      return None;
    }
    var deeper := RoundRobinDedup(r, collected, Total(collected));
    var items := AppendFresh(snapshot, deeper);
    pool := Some(items);
  }

  method AppendFresh(snapshot: seq<HomeItem>, deeper: seq<HomeItem>) returns (items: seq<HomeItem>)
    ensures items == Extended(snapshot, deeper)
  {
    items := snapshot;
    var seen := Lex.Elements(Keys(snapshot));
    for i := 0 to |deeper|
      invariant items == Extended(snapshot, deeper[..i])
      invariant seen == Lex.Elements(Keys(items))
    {
      var it := deeper[i];
      assert deeper[..i + 1][..i] == deeper[..i];
      KeysSnoc(items, it);
      if it.groupKey !in seen {
        items := items + [it];
        seen := seen + {it.groupKey};
      }
    }
    assert deeper[..|deeper|] == deeper;
  }

  // The snapshot slice is untouched, what follows has new and distinct keys, no key is lost.
  lemma {:induction false} ExtendedProperties(pool: seq<HomeItem>, deeper: seq<HomeItem>)
    ensures pool <= Extended(pool, deeper)
    ensures forall k :: k in Keys(Extended(pool, deeper)) <==> k in Keys(pool) || k in Keys(deeper)
    ensures var out := Extended(pool, deeper);
      forall i, j :: 0 <= i < j < |out| && |pool| <= j ==> out[i].groupKey != out[j].groupKey
  {
    if deeper != [] {
      var n := |deeper| - 1;
      ExtendedProperties(pool, deeper[..n]);
      assert Keys(deeper) == Keys(deeper[..n]) + [deeper[n].groupKey];
      var acc := Extended(pool, deeper[..n]);
      assert Keys(acc + [deeper[n]]) == Keys(acc) + [deeper[n].groupKey];
      assert forall i :: 0 <= i < |acc| ==> Keys(acc)[i] == acc[i].groupKey;
    }
  }

  // What follows the snapshot are cards of the deeper row, in its order, each the first of its
  // key and of a key the snapshot does not have.
  ghost predicate FreshAt(pool: seq<HomeItem>, deeper: seq<HomeItem>, out: seq<HomeItem>, at: seq<nat>) {
    && |out| == |pool| + |at| && (forall a, b :: 0 <= a < b < |at| ==> at[a] < at[b])
    && (forall a :: 0 <= a < |at| ==> at[a] < |deeper| && out[|pool| + a] == deeper[at[a]])
    && (forall a :: 0 <= a < |at| ==> deeper[at[a]].groupKey !in Keys(pool) && FirstOf(deeper, at[a]))
  }

  ghost predicate FirstOf(items: seq<HomeItem>, i: nat)
    requires i < |items|
  {
    forall j :: 0 <= j < i ==> items[j].groupKey != items[i].groupKey
  }

  lemma {:induction false} ExtendedIs(pool: seq<HomeItem>, deeper: seq<HomeItem>) returns (at: seq<nat>)
    ensures FreshAt(pool, deeper, Extended(pool, deeper), at)
  {
    at := [];
    if deeper != [] {
      var n := |deeper| - 1;
      assert deeper == deeper[..n] + [deeper[n]];
      at := ExtendedIs(pool, deeper[..n]);
      ExtendedProperties(pool, deeper[..n]);
      at := FreshSnoc(pool, deeper[..n], deeper[n], deeper, Extended(pool, deeper[..n]), at);
    }
  }

  lemma FreshSnoc(pool: seq<HomeItem>, front: seq<HomeItem>, last: HomeItem, deeper: seq<HomeItem>,
      acc: seq<HomeItem>, at: seq<nat>) returns (at': seq<nat>)
    requires deeper == front + [last] && FreshAt(pool, front, acc, at)
    requires last.groupKey in Keys(acc) <==> last.groupKey in Keys(pool) || last.groupKey in Keys(front)
    ensures FreshAt(pool, deeper, if last.groupKey in Keys(acc) then acc else acc + [last], at')
  {
    forall a | 0 <= a < |at| ensures FirstOf(deeper, at[a]) {
      assert FirstOf(front, at[a]);
    }
    at' := at;
    if last.groupKey !in Keys(acc) {
      at' := at + [|front|];
      forall j | 0 <= j < |front| ensures deeper[j].groupKey != last.groupKey {
        assert Keys(front)[j] == front[j].groupKey;
      }
    }
  }

  lemma {:induction false} MultipleBounds(n: nat)
    ensures Max0(n * WALK_BUDGET_MULTIPLIER) >= n
  {
  }

  lemma LeadersFewer(r: Rules, items: seq<SearchResult>, n: nat)
    ensures |Leaders(r, items, n)| <= n
  {
    if n > 0 {
      LeadersFewer(r, items, n - 1);
    }
  }

  // The deep fetch loses no card: the group of every fetched card is in the pool.
  lemma EveryFetchedGroupKept(r: Rules, snapshot: seq<HomeItem>, collected: Listings, p: nat, k: nat)
    returns (i: nat)
    requires p < |collected| && k < |collected[p]|
    ensures var walk := WalkOf(collected, Total(collected));
      && i < |walk| && walk[i] == collected[p][k]
      && KeyAt(r, walk, i) in Keys(Extended(snapshot, RowItems(r, collected, Total(collected))))
  {
    var total := Total(collected);
    MultipleBounds(total);
    OrderComplete(collected);
    var walk := WalkOf(collected, total);
    assert Order(collected)[..total] == Order(collected);
    assert Place(p, k) in Order(collected);
    i :| 0 <= i < |walk| && Order(collected)[i] == Place(p, k);
    assert walk[i] == CardAt(collected, Place(p, k));
    PartitionCovers(r, walk);
    assert Covered(Partition(r, walk), i);
    var g :| 0 <= g < |Partition(r, walk)| && i in Partition(r, walk)[g];
    GroupHolds(r, walk, g, i);
    LeadersFewer(r, walk, |walk|);
    var items := RowItems(r, collected, total);
    assert items[g] == ItemOf(r, MergeSpec(r, walk)[g]);
    assert Keys(items)[g] == KeyAt(r, walk, i);
    ExtendedProperties(snapshot, items);
  }
}
