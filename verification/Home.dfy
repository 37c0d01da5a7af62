// home.py: the cards of the home rows.
module Home {
  import opened Seqs
  import opened Wrappers
  import opened WireIdentity
  import opened Merge
  import opened MergeKeys
  import opened RoundRobin
  import opened Dicts
  import Lex

  datatype HomeItem = HomeItem(
    groupKey: string,
    title: string,
    year: Option<int>,
    form: Form,
    providers: seq<string>,
    memberKeys: seq<string>)

  const WALK_BUDGET_MULTIPLIER := 4

  function Providers(its: seq<SearchResult>): seq<string> {
    seq(|its|, k requires 0 <= k < |its| => its[k].provider)
  }

  function ItemOf(r: Rules, mg: MergeGroup): HomeItem
    requires mg.sources != []
  {
    var sample := mg.sources[0];
    HomeItem(mg.key, sample.title, sample.year, sample.form,
      FromKeys(Providers(mg.sources)), FromKeys(ItemKeys(r, mg.sources)))
  }

  function Max0(n: int): nat {
    if n < 0 then 0 else n
  }

  ghost function WalkOf(lists: Listings, limit: int): seq<SearchResult> {
    Collected(lists, Max0(limit * WALK_BUDGET_MULTIPLIER))
  }

  lemma SourcesNonEmpty(r: Rules, items: seq<SearchResult>)
    ensures forall k :: 0 <= k < |MergeSpec(r, items)| ==> MergeSpec(r, items)[k].sources != []
  {
    PartitionCovers(r, items);
  }

  // The row's cards: the merge of the walked cards, one card a group, cut at the limit.
  ghost function RowItems(r: Rules, lists: Listings, limit: int): (items: seq<HomeItem>)
    ensures |items| <= Max0(limit)
  {
    var groups := MergeSpec(r, WalkOf(lists, limit));
    SourcesNonEmpty(r, WalkOf(lists, limit));
    ItemsOf(r, Cut(groups, limit))
  }

  function ItemsOf(r: Rules, groups: seq<MergeGroup>): (items: seq<HomeItem>)
    requires forall k :: 0 <= k < |groups| ==> groups[k].sources != []
    ensures |items| == |groups|
  {
    seq(|groups|, k requires 0 <= k < |groups| => ItemOf(r, groups[k]))
  }

  function Cut(groups: seq<MergeGroup>, limit: int): seq<MergeGroup> {
    groups[..if |groups| < Max0(limit) then |groups| else Max0(limit)]
  }

  method Project(r: Rules, groups: seq<MergeGroup>, limit: int) returns (items: seq<HomeItem>)
    requires forall k :: 0 <= k < |groups| ==> groups[k].sources != []
    ensures items == ItemsOf(r, Cut(groups, limit))
  {
    items := [];
    for k := 0 to |groups|
      invariant k <= Max0(limit) && items == ItemsOf(r, groups[..k])
    {
      if |items| >= limit {
        break;
      }
      assert groups[..k + 1] == groups[..k] + [groups[k]];
      items := items + [ItemOf(r, groups[k])];
    }
  }

  method RoundRobinDedup(r: Rules, lists: Listings, limit: int) returns (items: seq<HomeItem>)
    ensures items == RowItems(r, lists, limit)
  {
    var collected := Walk(lists, Max0(limit * WALK_BUDGET_MULTIPLIER));
    var groups, _ := MergeResults(r, collected);
    SourcesNonEmpty(r, collected);
    items := Project(r, groups, limit);
  }

  // What a card says of the sources it stands for: the first one's fields, every source's
  // provider, and every source's own key.
  ghost predicate StandsFor(r: Rules, its: seq<SearchResult>, item: HomeItem) {
    && its != []
    && item.title == its[0].title && item.year == its[0].year && item.form == its[0].form
    && (forall p :: p in item.providers <==> exists it :: it in its && it.provider == p)
    && (forall key :: key in item.memberKeys <==> exists it :: it in its && ItemGroupKey(r, it) == key)
    && Distinct(item.providers) && Distinct(item.memberKeys)
  }

  lemma ProvidersElements(its: seq<SearchResult>)
    ensures forall p :: p in Providers(its) <==> exists it :: it in its && it.provider == p
  {
    var ps := Providers(its);
    forall it | it in its ensures it.provider in ps {
      var k :| 0 <= k < |its| && its[k] == it;
      assert ps[k] == it.provider;
    }
  }

  lemma ItemStands(r: Rules, mg: MergeGroup)
    requires mg.sources != []
    ensures StandsFor(r, mg.sources, ItemOf(r, mg)) && ItemOf(r, mg).groupKey == mg.key
  {
    ProvidersElements(mg.sources);
    ItemKeysElements(r, mg.sources);
  }

  // The k-th card of a row stands for the k-th group of the merge of the walked cards, under
  // that group's key; providers and member keys come in the order the sources show them. A row
  // has as many cards as there are groups, up to the limit.
  lemma RowItemIs(r: Rules, lists: Listings, limit: int, k: nat, ps: seq<string>, keys: seq<string>)
    requires k < |RowItems(r, lists, limit)|
    requires k < |MergeSpec(r, WalkOf(lists, limit))| ==>
      var its := MergeSpec(r, WalkOf(lists, limit))[k].sources;
      && |ps| == |keys| == |its|
      && forall i :: 0 <= i < |its| ==> ps[i] == its[i].provider && keys[i] == ItemGroupKey(r, its[i])
    ensures var groups, item := MergeSpec(r, WalkOf(lists, limit)), RowItems(r, lists, limit)[k];
      && k < |groups| && item.groupKey == groups[k].key
      && StandsFor(r, groups[k].sources, item)
      && FirstSeen(ps, item.providers) && FirstSeen(keys, item.memberKeys)
  {
    var mg := MergeSpec(r, WalkOf(lists, limit))[k];
    SourcesNonEmpty(r, WalkOf(lists, limit));
    ItemStands(r, mg);
    assert RowItems(r, lists, limit)[k] == ItemOf(r, mg);
    assert ps == Providers(mg.sources) && keys == ItemKeys(r, mg.sources);
    FromKeysFirstSeen(ps);
    FromKeysFirstSeen(keys);
  }

  // The walk takes four cards for each place of the row, as long as there are cards.
  lemma RowSizes(r: Rules, lists: Listings, limit: int)
    requires limit >= 0
    ensures |WalkOf(lists, limit)| == Least(4 * limit, Total(lists))
    ensures |RowItems(r, lists, limit)| == Least(limit, |MergeSpec(r, WalkOf(lists, limit))|)
  {
    WalkCount(lists, Max0(limit * WALK_BUDGET_MULTIPLIER));
  }

  // ---------------------------------------------------------------- aggregate_by_group_key

  function Keys(items: seq<HomeItem>): seq<string> {
    seq(|items|, k requires 0 <= k < |items| => items[k].groupKey)
  }

  lemma KeysSnoc(items: seq<HomeItem>, it: HomeItem)
    ensures Lex.Elements(Keys(items + [it])) == Lex.Elements(Keys(items)) + {it.groupKey}
    ensures it.groupKey in Keys(items) <==> it.groupKey in Lex.Elements(Keys(items))
  {
    assert Keys(items + [it]) == Keys(items) + [it.groupKey];
  }

  function AppendNew(ps: seq<string>, more: seq<string>): (qs: seq<string>)
    ensures forall p :: p in qs <==> p in ps || p in more
  {
    if more == [] then ps
    else
      var n := |more| - 1;
      assert forall p :: p in more <==> p in more[..n] || p == more[n];
      var acc := AppendNew(ps, more[..n]);
      if more[n] in acc then acc else acc + [more[n]]
  }

  // `item` with the providers of `more` that it lacks.
  function WithProviders(item: HomeItem, more: seq<string>): HomeItem {
    item.(providers := AppendNew(item.providers, more))
  }

  // What folding means: the first item of each key, with everybody's providers.
  function Aggregated(items: seq<HomeItem>): (out: seq<HomeItem>)
    ensures Distinct(Keys(out)) && forall k :: k in Keys(out) <==> k in Keys(items)
  {
    if items == [] then []
    else
      var n := |items| - 1;
      var acc := Aggregated(items[..n]);
      assert Keys(items) == Keys(items[..n]) + [items[n].groupKey];
      if items[n].groupKey in Keys(acc) then
        FoldIn(acc, items[n])
      else
        assert Keys(acc + [items[n]]) == Keys(acc) + [items[n].groupKey];
        acc + [items[n]]
  }

  function FoldIn(acc: seq<HomeItem>, it: HomeItem): (out: seq<HomeItem>)
    ensures Keys(out) == Keys(acc)
  {
    seq(|acc|, k requires 0 <= k < |acc| =>
      if acc[k].groupKey == it.groupKey then WithProviders(acc[k], it.providers) else acc[k])
  }

  // No two items have one key.
  ghost predicate DistinctItems(items: seq<HomeItem>) {
    forall k, l :: 0 <= k < l < |items| ==> items[k].groupKey != items[l].groupKey
  }

  lemma DistinctItemsIff(items: seq<HomeItem>)
    ensures DistinctItems(items) <==> Distinct(Keys(items))
  {
    var keys := Keys(items);
    assert |keys| == |items|;
    assert forall k :: 0 <= k < |items| ==> keys[k] == items[k].groupKey;
    if Distinct(keys) {
      forall k, l | 0 <= k < l < |items| ensures items[k].groupKey != items[l].groupKey {
        assert keys[k] != keys[l];
      }
    }
  }

  // Items with distinct keys pass through unchanged.
  lemma {:induction false} AggregatedIdentity(items: seq<HomeItem>)
    requires DistinctItems(items)
    ensures Aggregated(items) == items
  {
    if items != [] {
      var n := |items| - 1;
      AggregatedIdentity(items[..n]);
      LastKeyNew(items);
      assert items == items[..n] + [items[n]];
    }
  }

  lemma LastKeyNew(items: seq<HomeItem>)
    requires items != [] && DistinctItems(items)
    ensures items[|items| - 1].groupKey !in Keys(items[..|items| - 1])
  {
    var keys := Keys(items[..|items| - 1]);
    forall k | 0 <= k < |keys| ensures keys[k] != items[|items| - 1].groupKey {
      assert keys[k] == items[k].groupKey;
    }
  }

  // The fold is the identity exactly on items with distinct keys.
  lemma FoldIdentityIff(items: seq<HomeItem>)
    ensures Aggregated(items) == items <==> DistinctItems(items)
  {
    DistinctItemsIff(items);
    if DistinctItems(items) {
      AggregatedIdentity(items);
    }
  }

  // Item k of `out` is the first of its key, with the providers of all items of that key.
  ghost predicate FoldOf(items: seq<HomeItem>, out: HomeItem) {
    && (exists i :: IsFirst(items, i, out.groupKey) && out == items[i].(providers := out.providers))
    && (forall p :: p in out.providers <==> Provides(items, out.groupKey, p))
  }

  ghost predicate IsFirst(items: seq<HomeItem>, i: int, key: string) {
    0 <= i < |items| && items[i].groupKey == key && forall j :: 0 <= j < i ==> items[j].groupKey != key
  }

  ghost predicate Provides(items: seq<HomeItem>, key: string, p: string) {
    exists it :: it in items && it.groupKey == key && p in it.providers
  }

  ghost predicate AllFolded(items: seq<HomeItem>, out: seq<HomeItem>) {
    forall k :: 0 <= k < |out| ==> FoldOf(items, out[k])
  }

  // Folding: one item for each key, in the order the keys are first seen, and each of them is
  // the first item of its key with the providers of all of them.
  lemma {:induction false} AggregatedIs(items: seq<HomeItem>)
    ensures AllFolded(items, Aggregated(items))
    ensures FirstSeen(Keys(items), Keys(Aggregated(items)))
  {
    if items != [] {
      var n := |items| - 1;
      var acc := Aggregated(items[..n]);
      AggregatedIs(items[..n]);
      FoldedSnoc(items[..n], acc, items[n], items, Aggregated(items));
      FoldedKeys(items[..n], acc, items[n], items, Aggregated(items));
    }
  }

  ghost predicate FoldStep(acc: seq<HomeItem>, last: HomeItem, out: seq<HomeItem>) {
    out == if last.groupKey in Keys(acc) then FoldIn(acc, last) else acc + [last]
  }

  lemma FoldedKeys(items: seq<HomeItem>, acc: seq<HomeItem>, last: HomeItem, more: seq<HomeItem>, out: seq<HomeItem>)
    requires FirstSeen(Keys(items), Keys(acc)) && FoldStep(acc, last, out) && more == items + [last]
    ensures FirstSeen(Keys(more), Keys(out))
  {
    assert Keys(more) == Keys(items) + [last.groupKey];
    assert last.groupKey !in Keys(acc) ==> Keys(out) == Keys(acc) + [last.groupKey];
    FirstSeenSnoc(Keys(items), Keys(acc), last.groupKey, Keys(more), Keys(out));
  }

  lemma FoldedSnoc(items: seq<HomeItem>, acc: seq<HomeItem>, last: HomeItem, more: seq<HomeItem>, out: seq<HomeItem>)
    requires AllFolded(items, acc) && FirstSeen(Keys(items), Keys(acc))
    requires FoldStep(acc, last, out) && more == items + [last]
    ensures AllFolded(more, out)
  {
    forall k | 0 <= k < |out| ensures FoldOf(more, out[k]) {
      if k < |acc| {
        assert Keys(acc)[k] == acc[k].groupKey;
        FoldStays(items, last, acc[k]);
      } else {
        FoldStarts(items, last);
      }
    }
  }

  // One more item: it joins the item of its key, and no other.
  lemma FoldStays(items: seq<HomeItem>, last: HomeItem, out: HomeItem)
    requires FoldOf(items, out)
    ensures FoldOf(items + [last], if out.groupKey == last.groupKey then WithProviders(out, last.providers) else out)
  {
    var more := items + [last];
    var i :| IsFirst(items, i, out.groupKey) && out == items[i].(providers := out.providers);
    assert more[i] == items[i] && IsFirst(more, i, out.groupKey);
    forall p ensures Provides(more, out.groupKey, p) <==>
      Provides(items, out.groupKey, p) || (out.groupKey == last.groupKey && p in last.providers)
    {
      assert forall it :: it in more <==> it in items || it == last;
    }
  }

  lemma FoldStarts(items: seq<HomeItem>, last: HomeItem)
    requires last.groupKey !in Keys(items)
    ensures FoldOf(items + [last], last)
  {
    var more, keys := items + [last], Keys(items);
    forall j | 0 <= j < |items| ensures items[j].groupKey != last.groupKey {
      assert keys[j] in keys;
    }
    assert more[|items|] == last && IsFirst(more, |items|, last.groupKey);
    forall p ensures Provides(more, last.groupKey, p) <==> p in last.providers {
      assert forall it :: it in more <==> it in items || it == last;
    }
  }

  // The providers of all items of one key, item by item.
  function ProvidersUnder(items: seq<HomeItem>, key: string): seq<string> {
    if items == [] then []
    else
      var n := |items| - 1;
      ProvidersUnder(items[..n], key) + if items[n].groupKey == key then items[n].providers else []
  }

  ghost predicate InFoldOrder(items: seq<HomeItem>, out: HomeItem) {
    out.providers == FromKeys(ProvidersUnder(items, out.groupKey))
  }

  ghost predicate AllInFoldOrder(items: seq<HomeItem>, out: seq<HomeItem>) {
    forall k :: 0 <= k < |out| ==> InFoldOrder(items, out[k])
  }

  // And the providers come in the order the items show them.
  lemma FoldKeepsOrder(items: seq<HomeItem>, k: nat)
    requires k < |Aggregated(items)| && forall it :: it in items ==> Distinct(it.providers)
    ensures FirstSeen(ProvidersUnder(items, Aggregated(items)[k].groupKey), Aggregated(items)[k].providers)
  {
    FoldInOrder(items);
    assert InFoldOrder(items, Aggregated(items)[k]);
    FromKeysFirstSeen(ProvidersUnder(items, Aggregated(items)[k].groupKey));
  }

  lemma {:induction false} FoldInOrder(items: seq<HomeItem>)
    requires forall it :: it in items ==> Distinct(it.providers)
    ensures AllInFoldOrder(items, Aggregated(items))
  {
    if items != [] {
      var n := |items| - 1;
      FoldInOrder(items[..n]);
      assert items == items[..n] + [items[n]];
      OrderSnoc(items[..n], Aggregated(items[..n]), items[n], items, Aggregated(items));
    }
  }

  lemma OrderSnoc(items: seq<HomeItem>, acc: seq<HomeItem>, last: HomeItem, more: seq<HomeItem>, out: seq<HomeItem>)
    requires AllInFoldOrder(items, acc) && Distinct(last.providers)
    requires forall key :: key in Keys(items) ==> key in Keys(acc)
    requires FoldStep(acc, last, out) && more == items + [last]
    ensures AllInFoldOrder(more, out)
  {
    forall k | 0 <= k < |out| ensures InFoldOrder(more, out[k]) {
      if k < |acc| {
        assert Keys(acc)[k] == acc[k].groupKey;
        OrderStays(items, last, acc[k], more);
      } else {
        OrderStarts(items, last, more);
      }
    }
  }

  lemma OrderStays(items: seq<HomeItem>, last: HomeItem, out: HomeItem, more: seq<HomeItem>)
    requires InFoldOrder(items, out) && more == items + [last]
    ensures InFoldOrder(more, if out.groupKey == last.groupKey then WithProviders(out, last.providers) else out)
  {
    assert more[..|more| - 1] == items;
    var before := ProvidersUnder(items, out.groupKey);
    AppendFromKeys(before, last.providers);
    assert before + [] == before;
  }

  lemma OrderStarts(items: seq<HomeItem>, last: HomeItem, more: seq<HomeItem>)
    requires last.groupKey !in Keys(items) && Distinct(last.providers) && more == items + [last]
    ensures InFoldOrder(more, last)
  {
    assert more[..|more| - 1] == items;
    NoneUnder(items, last.groupKey);
    FromDistinct(last.providers);
    assert [] + last.providers == last.providers;
  }

  lemma {:induction false} NoneUnder(items: seq<HomeItem>, key: string)
    requires key !in Keys(items)
    ensures ProvidersUnder(items, key) == []
  {
    if items != [] {
      var n := |items| - 1;
      assert Keys(items)[n] == items[n].groupKey && Keys(items) == Keys(items[..n]) + [items[n].groupKey];
      NoneUnder(items[..n], key);
    }
  }

  lemma {:induction false} AppendFromKeys(xs: seq<string>, more: seq<string>)
    ensures AppendNew(FromKeys(xs), more) == FromKeys(xs + more)
  {
    if more == [] {
      assert xs + more == xs;
    } else {
      var n := |more| - 1;
      AppendFromKeys(xs, more[..n]);
      assert xs + more == (xs + more[..n]) + [more[n]];
      FromKeysSnoc(xs + more[..n], more[n]);
    }
  }

  lemma FromKeysSnoc(xs: seq<string>, x: string)
    ensures FromKeys(xs + [x]) == if x in FromKeys(xs) then FromKeys(xs) else FromKeys(xs) + [x]
  {
    assert (xs + [x])[..|xs|] == xs;
  }

  lemma {:induction false} FromDistinct(xs: seq<string>)
    requires Distinct(xs)
    ensures FromKeys(xs) == xs
  {
    if xs != [] {
      DistinctLast(xs);
      FromDistinct(xs[..|xs| - 1]);
      assert xs == xs[..|xs| - 1] + [xs[|xs| - 1]];
    }
  }

  method AggregateByGroupKey(items: seq<HomeItem>) returns (out: seq<HomeItem>)
    ensures out == Aggregated(items)
  {
    var byKey: map<string, HomeItem> := map[];
    var order: seq<string> := [];
    for i := 0 to |items|
      invariant Folded(items[..i], byKey, order)
    {
      var it := items[i];
      FoldedStep(items, i, byKey, order);
      if it.groupKey !in byKey {
        byKey := byKey[it.groupKey := it];
        order := order + [it.groupKey];
      } else {
        byKey := byKey[it.groupKey := WithProviders(byKey[it.groupKey], it.providers)];
      }
    }
    assert items[..|items|] == items;
    out := seq(|order|, k requires 0 <= k < |order| && order[k] in byKey => byKey[order[k]]);
  }

  ghost predicate Folded(items: seq<HomeItem>, byKey: map<string, HomeItem>, order: seq<string>) {
    var acc := Aggregated(items);
    && order == Keys(acc)
    && (forall k :: k in byKey ==> k in order)
    && (forall k :: 0 <= k < |acc| ==> order[k] in byKey && byKey[order[k]] == acc[k])
  }

  lemma FoldedStep(items: seq<HomeItem>, i: nat, byKey: map<string, HomeItem>, order: seq<string>)
    requires i < |items| && Folded(items[..i], byKey, order)
    ensures var it := items[i];
      if it.groupKey !in byKey then Folded(items[..i + 1], byKey[it.groupKey := it], order + [it.groupKey])
      else Folded(items[..i + 1], byKey[it.groupKey := WithProviders(byKey[it.groupKey], it.providers)], order)
  {
    assert items[..i + 1][..i] == items[..i];
    var acc, acc' := Aggregated(items[..i]), Aggregated(items[..i + 1]);
    assert Keys(acc) == order;
    if items[i].groupKey !in byKey {
      assert items[i].groupKey !in order;
      assert acc' == acc + [items[i]];
      assert Keys(acc') == order + [items[i].groupKey];
    } else {
      assert acc' == FoldIn(acc, items[i]);
    }
  }
}
