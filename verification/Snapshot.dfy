// _catalog_state/snapshot.py: the resolution map built from the raw listings.
module Snapshot {
  import opened Seqs
  import opened Wrappers
  import opened WireIdentity
  import opened Merge
  import opened MergeKeys
  import opened RoundRobin
  import opened Dicts
  import opened Home
  import Lex

  type SourcesMap = map<string, Dict<SearchResult>>

  // provider_union: provider -> its first card, in first-seen order.
  function UnionOf(sources: seq<SearchResult>): (d: Dict<SearchResult>)
    ensures d.keys == FromKeys(Providers(sources))
    ensures forall p :: p in d.vals ==> d.vals[p] in sources && d.vals[p].provider == p
    ensures forall s :: s in sources ==> s.provider in d.vals
  {
    if sources == [] then Empty()
    else
      var n := |sources| - 1;
      assert Providers(sources)[..n] == Providers(sources[..n]);
      assert Providers(sources)[n] == sources[n].provider;
      assert forall s :: s in sources <==> s in sources[..n] || s == sources[n];
      SetDefault(UnionOf(sources[..n]), sources[n].provider, sources[n])
  }

  ghost predicate NoneBefore(sources: seq<SearchResult>, i: nat, p: string)
    requires i <= |sources|
  {
    forall j :: 0 <= j < i ==> sources[j].provider != p
  }

  // Each provider has the first card it shows.
  ghost predicate FirstCards(sources: seq<SearchResult>, vals: map<string, SearchResult>) {
    forall i :: 0 <= i < |sources| && NoneBefore(sources, i, sources[i].provider) ==>
      sources[i].provider in vals && vals[sources[i].provider] == sources[i]
  }

  lemma FirstCardsSnoc(sources: seq<SearchResult>, last: SearchResult, all: seq<SearchResult>,
      vals: map<string, SearchResult>)
    requires all == sources + [last] && FirstCards(sources, vals)
    requires forall p :: p in vals ==> vals[p] in sources && vals[p].provider == p
    ensures FirstCards(all, if last.provider in vals then vals else vals[last.provider := last])
  {
    forall i | 0 <= i < |sources| && NoneBefore(all, i, all[i].provider)
      ensures all[i].provider in vals && vals[all[i].provider] == all[i]
    {
      assert forall j :: 0 <= j < i ==> all[j] == sources[j];
      assert all[i] == sources[i] && NoneBefore(sources, i, sources[i].provider);
    }
    if last.provider in vals {
      var k :| 0 <= k < |sources| && sources[k] == vals[last.provider];
      assert all[k].provider == last.provider;
    }
  }

  // Each provider once, in the order the sources show it, with the first card it shows.
  lemma {:induction false} UnionIs(sources: seq<SearchResult>)
    ensures FirstSeen(Providers(sources), UnionOf(sources).keys) && FirstCards(sources, UnionOf(sources).vals)
  {
    FromKeysFirstSeen(Providers(sources));
    UnionFirst(sources);
  }

  lemma {:induction false} UnionFirst(sources: seq<SearchResult>)
    ensures FirstCards(sources, UnionOf(sources).vals)
  {
    if sources != [] {
      var n := |sources| - 1;
      assert sources == sources[..n] + [sources[n]];
      UnionFirst(sources[..n]);
      FirstCardsSnoc(sources[..n], sources[n], sources, UnionOf(sources[..n]).vals);
    }
  }

  method ProviderUnion(sources: seq<SearchResult>) returns (union: Dict<SearchResult>)
    ensures union == UnionOf(sources)
  {
    union := Empty();
    for i := 0 to |sources|
      invariant union == UnionOf(sources[..i])
    {
      assert sources[..i + 1][..i] == sources[..i];
      union := SetDefault(union, sources[i].provider, sources[i]);
    }
    assert sources[..|sources|] == sources;
  }

  // ---------------------------------------------------------------- meaning of the map

  ghost predicate HasKey(r: Rules, items: seq<SearchResult>, key: string) {
    exists i :: 0 <= i < |items| && ItemGroupKey(r, items[i]) == key
  }

  // The map answers exactly the stateless keys of these cards.
  ghost predicate KeysMatch(r: Rules, all: seq<SearchResult>, out: SourcesMap) {
    forall key :: key in out <==> HasKey(r, all, key)
  }

  // The member keys and the provider union of each group.
  datatype GroupUnion = GroupUnion(keys: set<string>, union: Dict<SearchResult>)

  ghost function GroupUnionOf(r: Rules, mg: MergeGroup): GroupUnion {
    GroupUnion(Lex.Elements(ItemKeys(r, mg.sources)), UnionOf(mg.sources))
  }

  ghost function GroupUnions(r: Rules, groups: seq<MergeGroup>): seq<GroupUnion> {
    seq(|groups|, k requires 0 <= k < |groups| => GroupUnionOf(r, groups[k]))
  }

  ghost predicate IsLast(regs: seq<GroupUnion>, n: nat, key: string, k: nat)
    requires n <= |regs|
  {
    k < n && key in regs[k].keys && forall l :: k < l < n ==> key !in regs[l].keys
  }

  // d is the union of the last of the first n groups that has this member key.
  ghost predicate LastUnion(regs: seq<GroupUnion>, n: nat, key: string, d: Dict<SearchResult>)
    requires n <= |regs|
  {
    exists k: nat :: IsLast(regs, n, key, k) && d == regs[k].union
  }

  ghost predicate InSome(regs: seq<GroupUnion>, n: nat, key: string)
    requires n <= |regs|
  {
    exists k :: 0 <= k < n && key in regs[k].keys
  }

  ghost predicate SourcesMapFor(r: Rules, all: seq<SearchResult>, out: SourcesMap) {
    var regs := GroupUnions(r, MergeSpec(r, all));
    && KeysMatch(r, all, out)
    && (forall key :: key in out ==> LastUnion(regs, |regs|, key, out[key]))
  }

  function Concat(lists: Listings): seq<SearchResult> {
    if lists == [] then [] else Concat(lists[..|lists| - 1]) + lists[|lists| - 1]
  }

  method AddListings(r: Rules, lists: Listings, all: seq<SearchResult>, out: SourcesMap)
    returns (all': seq<SearchResult>, out': SourcesMap)
    requires KeysMatch(r, all, out)
    ensures all' == all + Concat(lists)
    ensures KeysMatch(r, all', out')
  {
    all', out' := all, out;
    for p := 0 to |lists|
      invariant all' == all + Concat(lists[..p])
      invariant KeysMatch(r, all', out')
    {
      var was := all';
      for k := 0 to |lists[p]|
        invariant all' == was + lists[p][..k]
        invariant KeysMatch(r, all', out')
      {
        PrefixSnoc(was, lists[p], k);
        all', out' := AddCard(r, all', out', lists[p][k]);
      }
      assert lists[..p + 1][..p] == lists[..p];
      assert all' == was + lists[p];
      assert was + lists[p] == all + (Concat(lists[..p]) + lists[p]);
    }
    assert lists[..|lists|] == lists;
  }

  method AddCard(r: Rules, all: seq<SearchResult>, out: SourcesMap, it: SearchResult)
    returns (all': seq<SearchResult>, out': SourcesMap)
    requires KeysMatch(r, all, out)
    ensures all' == all + [it]
    ensures KeysMatch(r, all', out')
  {
    HasKeySnoc(r, all, it);
    var key := ItemGroupKey(r, it);
    out' := out[key := SetDefault(if key in out then out[key] else Empty(), it.provider, it)];
    all' := all + [it];
  }

  lemma PrefixSnoc(was: seq<SearchResult>, list: seq<SearchResult>, k: nat)
    requires k < |list|
    ensures was + list[..k] + [list[k]] == was + list[..k + 1]
  {}

  lemma HasKeySnoc(r: Rules, items: seq<SearchResult>, it: SearchResult)
    ensures forall key :: HasKey(r, items + [it], key) <==> HasKey(r, items, key) || key == ItemGroupKey(r, it)
  {
    var more := items + [it];
    forall key ensures HasKey(r, more, key) <==> HasKey(r, items, key) || key == ItemGroupKey(r, it) {
      if HasKey(r, items, key) {
        var i :| 0 <= i < |items| && ItemGroupKey(r, items[i]) == key;
        assert more[i] == items[i];
      }
      assert more[|items|] == it;
    }
  }

  // One list of listings per kind of row, under the keys of `by_type`.
  datatype Collection = Collection(newest: Listings, popular: Listings, byType: seq<(RowKind, Listings)>)

  datatype RowKind =
    | RecentMovie | RecentSeries | NewEpisodes | RecentlyWatched | Popular
    | TypeMovie | TypeSeries | Anime | Cartoon | Dorama | Other(name: string)

  function ByType(bt: seq<(RowKind, Listings)>): Listings {
    if bt == [] then [] else ByType(bt[..|bt| - 1]) + bt[|bt| - 1].1
  }

  function AllItems(c: Collection): seq<SearchResult> {
    Concat(c.newest) + Concat(c.popular) + Concat(ByType(c.byType))
  }

  method BuildSourcesMap(r: Rules, c: Collection) returns (out: SourcesMap)
    ensures SourcesMapFor(r, AllItems(c), out)
  {
    out := map[];
    var all: seq<SearchResult> := [];
    all, out := AddListings(r, c.newest, all, out);
    all, out := AddListings(r, c.popular, all, out);
    all, out := AddListings(r, ByType(c.byType), all, out);
    assert all == AllItems(c);
    var groups, _ := MergeResults(r, all);
    for k := 0 to |groups|
      invariant MapUpto(r, all, k, out)
    {
      var union := ProviderUnion(groups[k].sources);
      ghost var before := out;
      out := PutAll(out, FromKeys(ItemKeys(r, groups[k].sources)), union);
      RegisterStep(r, all, k, before, out);
    }
    forall key | key in out ensures InSome(GroupUnions(r, groups), |groups|, key) {
      KeyInSome(r, all, key);
    }
  }

  ghost predicate MapUpto(r: Rules, all: seq<SearchResult>, n: nat, out: SourcesMap) {
    var regs := GroupUnions(r, MergeSpec(r, all));
    && n <= |regs|
    && KeysMatch(r, all, out)
    && AnswersLast(regs, n, out)
  }

  lemma LastUnionStep(regs: seq<GroupUnion>, n: nat, key: string, d: Dict<SearchResult>)
    requires n < |regs| && InSome(regs, n + 1, key)
    requires InSome(regs, n, key) && key !in regs[n].keys ==> LastUnion(regs, n, key, d)
    ensures LastUnion(regs, n + 1, key, if key in regs[n].keys then regs[n].union else d)
  {
    if key in regs[n].keys {
      assert IsLast(regs, n + 1, key, n);
    } else {
      LastUnionStays(regs, n, key, d);
    }
  }

  lemma LastUnionStays(regs: seq<GroupUnion>, n: nat, key: string, d: Dict<SearchResult>)
    requires n < |regs| && key !in regs[n].keys && LastUnion(regs, n, key, d)
    ensures LastUnion(regs, n + 1, key, d)
  {
    var k: nat :| IsLast(regs, n, key, k) && d == regs[k].union;
    assert IsLast(regs, n + 1, key, k);
  }

  ghost predicate AnswersLast(regs: seq<GroupUnion>, n: nat, out: SourcesMap)
    requires n <= |regs|
  {
    forall key :: InSome(regs, n, key) ==> key in out && LastUnion(regs, n, key, out[key])
  }

  // `out'` is `out` with the union under every member key, replacing what was there.
  ghost predicate Replaces(reg: GroupUnion, out: SourcesMap, out': SourcesMap) {
    && (forall key :: key in out' <==> key in out || key in reg.keys)
    && (forall key :: key in out' ==> out'[key] == if key in reg.keys then reg.union else out[key])
  }

  lemma AnswersStep(regs: seq<GroupUnion>, n: nat, out: SourcesMap, out': SourcesMap)
    requires n < |regs| && AnswersLast(regs, n, out) && Replaces(regs[n], out, out')
    ensures AnswersLast(regs, n + 1, out')
  {
    forall key | InSome(regs, n + 1, key) ensures key in out' && LastUnion(regs, n + 1, key, out'[key]) {
      if key !in regs[n].keys {
        assert InSome(regs, n, key);
        LastUnionStep(regs, n, key, out[key]);
      } else {
        LastUnionStep(regs, n, key, regs[n].union);
      }
    }
  }

  lemma RegisterStep(r: Rules, all: seq<SearchResult>, k: nat, out: SourcesMap, out': SourcesMap)
    requires k < |MergeSpec(r, all)| && MapUpto(r, all, k, out)
    requires Replaces(GroupUnionOf(r, MergeSpec(r, all)[k]), out, out')
    ensures MapUpto(r, all, k + 1, out')
  {
    var regs := GroupUnions(r, MergeSpec(r, all));
    forall key | key in regs[k].keys ensures HasKey(r, all, key) {
      var x := CarrierOf(r, all, k, key);
    }
    AnswersStep(regs, k, out, out');
  }

  lemma KeyInSome(r: Rules, all: seq<SearchResult>, key: string)
    requires HasKey(r, all, key)
    ensures InSome(GroupUnions(r, MergeSpec(r, all)), |MergeSpec(r, all)|, key)
  {
    var i :| 0 <= i < |all| && ItemGroupKey(r, all[i]) == key;
    PartitionCovers(r, all);
    assert Covered(Partition(r, all), i);
    var k :| 0 <= k < |Partition(r, all)| && i in Partition(r, all)[k];
    var part := Partition(r, all)[k];
    var m :| 0 <= m < |part| && part[m] == i;
    assert ItemKeys(r, MergeSpec(r, all)[k].sources)[m] == key;
    assert key in GroupUnions(r, MergeSpec(r, all))[k].keys;
  }

  // ---------------------------------------------------------------- every key resolves

  // A wire id is `provider:external`, so it names its provider.
  ghost predicate IdsNameProviders(items: seq<SearchResult>) {
    forall x, y :: 0 <= x < |items| && 0 <= y < |items| && items[x].id == items[y].id ==>
      items[x].provider == items[y].provider
  }

  ghost predicate ProvidersOf(its: seq<SearchResult>, d: Dict<SearchResult>) {
    forall p :: p in d.vals <==> exists it :: it in its && it.provider == p
  }

  // Some card with the same stateless key, whose group the map answers with.
  lemma KeyHolder(r: Rules, all: seq<SearchResult>, out: SourcesMap, i: nat) returns (j: nat)
    requires SourcesMapFor(r, all, out) && i < |all|
    ensures j < |all| && ItemGroupKey(r, all[j]) == ItemGroupKey(r, all[i])
    ensures ItemGroupKey(r, all[i]) in out
    ensures ProvidersOf(ClassOf(r, all, j), out[ItemGroupKey(r, all[i])])
  {
    var key := ItemGroupKey(r, all[i]);
    assert HasKey(r, all, key);
    var k := AnsweringGroup(r, all, out, key);
    j := CarrierOf(r, all, k, key);
    GroupHolds(r, all, k, j);
    UnionProviders(MergeSpec(r, all)[k].sources, ClassOf(r, all, j));
  }

  // The group whose union the map answers a key with.
  lemma AnsweringGroup(r: Rules, all: seq<SearchResult>, out: SourcesMap, key: string) returns (k: nat)
    requires SourcesMapFor(r, all, out) && key in out
    ensures k < |MergeSpec(r, all)| && key in ItemKeys(r, MergeSpec(r, all)[k].sources)
    ensures out[key] == UnionOf(MergeSpec(r, all)[k].sources)
  {
    var groups := MergeSpec(r, all);
    var regs := GroupUnions(r, groups);
    k :| IsLast(regs, |regs|, key, k) && out[key] == regs[k].union;
    assert regs[k] == GroupUnionOf(r, groups[k]);
  }

  lemma UnionProviders(sources: seq<SearchResult>, its: seq<SearchResult>)
    requires forall it :: it in sources <==> it in its
    ensures ProvidersOf(its, UnionOf(sources))
  {}

  // The map answers any card's own key with the providers of that card's whole group,
  // twins included.
  lemma MapResolvesGroup(r: Rules, all: seq<SearchResult>, out: SourcesMap, i: nat)
    requires Lawful(r) && IdsNameProviders(all) && SourcesMapFor(r, all, out) && i < |all|
    ensures ItemGroupKey(r, all[i]) in out
    ensures ProvidersOf(ClassOf(r, all, i), out[ItemGroupKey(r, all[i])])
  {
    var key := ItemGroupKey(r, all[i]);
    var j := KeyHolder(r, all, out, i);
    KeyCollision(r, all[i], all[j]);
    if Linked(r, all[i], all[j]) {
      ConnectedLink(r, all, i, j);
      SameClassSame(r, all, i, j);
    } else {
      BlankClass(r, all, i);
      BlankClass(r, all, j);
    }
  }

  lemma SameClassSame(r: Rules, all: seq<SearchResult>, i: nat, j: nat)
    requires i < |all| && j < |all| && Connected(r, all, i, j)
    ensures forall it :: it in ClassOf(r, all, i) <==> it in ClassOf(r, all, j)
  {
    ConnectedSymmetric(r, all, i, j);
    forall x: nat ensures Connected(r, all, i, x) <==> Connected(r, all, j, x) {
      if Connected(r, all, i, x) { ConnectedTransitive(r, all, j, i, x); }
      if Connected(r, all, j, x) { ConnectedTransitive(r, all, i, j, x); }
    }
  }

  lemma BlankClass(r: Rules, all: seq<SearchResult>, i: nat)
    requires i < |all| && Blank(r, all[i])
    ensures forall it :: it in ClassOf(r, all, i) <==> it == all[i]
  {
    ConnectedReflexive(r, all, i);
    forall j | 0 <= j < |all| && Connected(r, all, i, j) ensures i == j {
      BlankAlone(r, all, i, j);
    }
  }

  // What a client needs of a card: each of its keys is in the map, all of them answer
  // alike, and the answer has every provider the card lists.
  ghost predicate Resolves(out: SourcesMap, item: HomeItem) {
    && item.groupKey in item.memberKeys
    && (forall k :: k in item.memberKeys ==> k in out)
    && (forall k :: k in item.memberKeys ==> out[k].vals.Keys == out[item.groupKey].vals.Keys)
    && (forall p :: p in item.providers ==> p in out[item.groupKey].vals)
  }

  lemma EmbedList(sub: seq<SearchResult>, all: seq<SearchResult>) returns (f: seq<nat>)
    requires forall it :: it in sub ==> it in all
    ensures Embeds(sub, all, f)
  {
    f := [];
    for k := 0 to |sub|
      invariant |f| == k && forall i :: 0 <= i < k ==> f[i] < |all| && sub[i] == all[f[i]]
    {
      assert sub[k] in all;
      var x :| 0 <= x < |all| && all[x] == sub[k];
      f := f + [x];
    }
  }

  lemma MemberResolves(r: Rules, sub: seq<SearchResult>, all: seq<SearchResult>, out: SourcesMap,
      f: seq<nat>, x: nat, y: nat)
    requires Lawful(r) && IdsNameProviders(all) && SourcesMapFor(r, all, out)
    requires Embeds(sub, all, f) && Connected(r, sub, x, y) && x < |sub| && y < |sub|
    ensures ItemGroupKey(r, sub[y]) in out
    ensures ProvidersOf(ClassOf(r, all, f[x]), out[ItemGroupKey(r, sub[y])])
    ensures sub[y] in ClassOf(r, all, f[x])
  {
    ConnectedEmbeds(r, sub, all, f, x, y);
    MapResolvesGroup(r, all, out, f[y]);
    SameClassSame(r, all, f[x], f[y]);
  }

  // Every source of a merged group of the row, against the whole of which it is a part.
  lemma GroupSources(r: Rules, sub: seq<SearchResult>, all: seq<SearchResult>, out: SourcesMap, k: nat)
    returns (whole: seq<SearchResult>)
    requires Lawful(r) && IdsNameProviders(all) && SourcesMapFor(r, all, out)
    requires forall it :: it in sub ==> it in all
    requires k < |MergeSpec(r, sub)|
    ensures MergeSpec(r, sub)[k].sources != []
    ensures forall it | it in MergeSpec(r, sub)[k].sources ::
      it in whole && ItemGroupKey(r, it) in out && ProvidersOf(whole, out[ItemGroupKey(r, it)])
  {
    PartitionCovers(r, sub);
    var its := MergeSpec(r, sub)[k].sources;
    var part := Partition(r, sub)[k];
    var f := EmbedList(sub, all);
    var x0 := part[0];
    assert x0 in part;
    whole := ClassOf(r, all, f[x0]);
    forall it | it in its
      ensures it in whole && ItemGroupKey(r, it) in out && ProvidersOf(whole, out[ItemGroupKey(r, it)])
    {
      var m :| 0 <= m < |its| && its[m] == it;
      assert part[m] in part && it == sub[part[m]];
      MemberResolves(r, sub, all, out, f, x0, part[m]);
    }
  }

  // A row merges only some of the listed cards, yet its cards resolve against the map that
  // merged them all: a chain in the row is a chain in the whole.
  lemma GroupItemResolves(r: Rules, sub: seq<SearchResult>, all: seq<SearchResult>, out: SourcesMap, k: nat)
    requires Lawful(r) && IdsNameProviders(all) && SourcesMapFor(r, all, out)
    requires forall it :: it in sub ==> it in all
    requires k < |MergeSpec(r, sub)|
    ensures MergeSpec(r, sub)[k].sources != [] && Resolves(out, ItemOf(r, MergeSpec(r, sub)[k]))
  {
    var whole := GroupSources(r, sub, all, out, k);
    var mg := MergeSpec(r, sub)[k];
    CanonicalKeyIsMemberKey(r, MergeSpec(r, sub)[k].sources);
    ItemResolves(r, mg, out, whole);
  }

  lemma ItemResolves(r: Rules, mg: MergeGroup, out: SourcesMap, whole: seq<SearchResult>)
    requires mg.sources != [] && mg.key in ItemKeys(r, mg.sources)
    requires forall it | it in mg.sources ::
      it in whole && ItemGroupKey(r, it) in out && ProvidersOf(whole, out[ItemGroupKey(r, it)])
    ensures Resolves(out, ItemOf(r, mg))
  {
    var item := ItemOf(r, mg);
    var ps := Providers(mg.sources);
    ItemKeysElements(r, mg.sources);
    forall key | key in item.memberKeys ensures key in out && ProvidersOf(whole, out[key]) {
      var it :| it in mg.sources && ItemGroupKey(r, it) == key;
    }
    SameAnswers(whole, out, item.memberKeys, item.groupKey);
    forall p | p in item.providers ensures p in out[item.groupKey].vals {
      var m :| 0 <= m < |ps| && ps[m] == p;
      assert mg.sources[m] in whole;
    }
  }

  lemma SameAnswers(whole: seq<SearchResult>, out: SourcesMap, keys: seq<string>, key: string)
    requires key in keys && forall k :: k in keys ==> k in out && ProvidersOf(whole, out[k])
    ensures forall k :: k in keys ==> out[k].vals.Keys == out[key].vals.Keys
  {
    forall k | k in keys ensures out[k].vals.Keys == out[key].vals.Keys {
      forall p ensures p in out[k].vals <==> p in out[key].vals {}
    }
  }

  lemma {:induction false} AggregatedResolves(out: SourcesMap, items: seq<HomeItem>)
    requires forall item :: item in items ==> Resolves(out, item)
    ensures forall item :: item in Aggregated(items) ==> Resolves(out, item)
  {
    if items != [] {
      var n := |items| - 1;
      assert items[n] in items;
      AggregatedResolves(out, items[..n]);
      var acc := Aggregated(items[..n]);
      if items[n].groupKey in Keys(acc) {
        forall k | 0 <= k < |acc| ensures Resolves(out, FoldIn(acc, items[n])[k]) {
          assert acc[k] in acc;
        }
      }
    }
  }
}
