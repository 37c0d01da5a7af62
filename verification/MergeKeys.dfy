// What the merge promises about the keys of its groups.
module MergeKeys {
  import opened Wrappers
  import opened WireIdentity
  import opened Merge
  import Lex

  // ---------------------------------------------------------------- one group's key

  lemma {:induction false} ImdbIdsElements(its: seq<SearchResult>)
    ensures forall s :: s in ImdbIds(its) <==> exists it :: it in its && HasImdb(it) && it.imdb.value == s
  {
    if its != [] {
      ImdbIdsElements(its[1..]);
      assert forall it :: it in its <==> it == its[0] || it in its[1..];
    }
  }

  lemma {:induction false} YearfulElements(r: Rules, its: seq<SearchResult>)
    ensures forall it :: it in Yearful(r, its) <==> it in its && EffectiveYear(r, it).Some?
  {
    if its != [] {
      YearfulElements(r, its[1..]);
      assert forall it :: it in its <==> it == its[0] || it in its[1..];
    }
  }

  lemma ItemKeysElements(r: Rules, its: seq<SearchResult>)
    ensures forall s :: s in ItemKeys(r, its) <==> exists it :: it in its && ItemGroupKey(r, it) == s
  {
    var ks := ItemKeys(r, its);
    forall it | it in its ensures ItemGroupKey(r, it) in ks {
      var k :| 0 <= k < |its| && its[k] == it;
      assert ks[k] == ItemGroupKey(r, it);
    }
  }

  // The canonical key is one of the keys its own members recompute from their listing data.
  lemma CanonicalKeyIsMemberKey(r: Rules, its: seq<SearchResult>)
    requires its != []
    ensures KeyOf(r, its) in ItemKeys(r, its)
  {
    ItemKeysElements(r, its);
    ImdbIdsElements(its);
    YearfulElements(r, its);
    if ImdbIds(its) != [] {
      var s := Lex.Min(ImdbIds(its));
      assert s in ImdbIds(its);
      var it :| it in its && HasImdb(it) && it.imdb.value == s;
      assert ItemGroupKey(r, it) == KeyOf(r, its);
    } else {
      var preferred := if Yearful(r, its) != [] then Yearful(r, its) else its;
      ItemKeysElements(r, preferred);
      assert KeyOf(r, its) in ItemKeys(r, preferred);
    }
  }

  // The key is a function of the set of members: neither their order nor repeats matter.
  lemma KeyOfSet(r: Rules, xs: seq<SearchResult>, ys: seq<SearchResult>)
    requires xs != [] && ys != [] && forall it :: it in xs <==> it in ys
    ensures KeyOf(r, xs) == KeyOf(r, ys)
  {
    ImdbIdsElements(xs);
    ImdbIdsElements(ys);
    Lex.ElementsEmpty(ImdbIds(xs), ImdbIds(ys));
    if ImdbIds(xs) != [] {
      Lex.MinOfSet(ImdbIds(xs), ImdbIds(ys));
    } else {
      YearfulElements(r, xs);
      YearfulElements(r, ys);
      assert Yearful(r, xs) != [] ==> Yearful(r, xs)[0] in Yearful(r, ys);
      assert Yearful(r, ys) != [] ==> Yearful(r, ys)[0] in Yearful(r, xs);
      var px := if Yearful(r, xs) != [] then Yearful(r, xs) else xs;
      var py := if Yearful(r, ys) != [] then Yearful(r, ys) else ys;
      ItemKeysElements(r, px);
      ItemKeysElements(r, py);
      assert Lex.Elements(ItemKeys(r, px)) == Lex.Elements(ItemKeys(r, py));
      Lex.MinOfSet(ItemKeys(r, px), ItemKeys(r, py));
    }
  }

  ghost function Asserted(its: seq<SearchResult>): set<SearchResult> {
    set it | it in its && HasImdb(it)
  }

  ghost function Dated(r: Rules, its: seq<SearchResult>): set<SearchResult> {
    set it | it in its && EffectiveYear(r, it).Some?
  }

  // The least IMDb id asserted by one of these cards, as a key.
  ghost predicate LeastId(its: set<SearchResult>, key: string) {
    exists it :: it in its && HasImdb(it) && key == GroupKeyFromImdb(it.imdb.value)
      && forall other :: other in its && HasImdb(other) ==> Lex.Le(it.imdb.value, other.imdb.value)
  }

  // The least of these cards' own keys.
  ghost predicate LeastKey(r: Rules, its: set<SearchResult>, key: string) {
    exists it :: it in its && key == ItemGroupKey(r, it)
      && forall other :: other in its ==> Lex.Le(key, ItemGroupKey(r, other))
  }

  // An asserted IMDb id names the group; failing that the cards of a known year do; failing
  // that all of them.
  ghost predicate Canonical(r: Rules, its: seq<SearchResult>, key: string) {
    if Asserted(its) != {} then LeastId(Asserted(its), key)
    else if Dated(r, its) != {} then LeastKey(r, Dated(r, its), key)
    else LeastKey(r, Lex.Elements(its), key)
  }

  lemma LeastKeyOf(r: Rules, its: seq<SearchResult>)
    requires its != []
    ensures LeastKey(r, Lex.Elements(its), Lex.Min(ItemKeys(r, its)))
  {
    var keys := ItemKeys(r, its);
    var key := Lex.Min(keys);
    assert key in keys;
    var k :| 0 <= k < |keys| && keys[k] == key;
    forall other | other in its ensures Lex.Le(key, ItemGroupKey(r, other)) {
      var j :| 0 <= j < |its| && its[j] == other;
      assert keys[j] in keys;
    }
    assert its[k] in its;
  }

  lemma LeastIdOf(its: seq<SearchResult>)
    requires ImdbIds(its) != []
    ensures LeastId(Asserted(its), GroupKeyFromImdb(Lex.Min(ImdbIds(its))))
  {
    ImdbIdsElements(its);
    var s := Lex.Min(ImdbIds(its));
    assert s in ImdbIds(its);
    var it :| it in its && HasImdb(it) && it.imdb.value == s;
    forall other | other in Asserted(its) ensures Lex.Le(it.imdb.value, other.imdb.value) {
      assert other.imdb.value in ImdbIds(its);
    }
    assert it in Asserted(its);
  }

  lemma AssertedIff(its: seq<SearchResult>)
    ensures Asserted(its) != {} <==> ImdbIds(its) != []
  {
    ImdbIdsElements(its);
    if ImdbIds(its) != [] {
      var s := ImdbIds(its)[0];
      assert s in ImdbIds(its);
      var it :| it in its && HasImdb(it) && it.imdb.value == s;
      assert it in Asserted(its);
    }
    if Asserted(its) != {} {
      var it :| it in Asserted(its);
      assert it.imdb.value in ImdbIds(its);
    }
  }

  lemma DatedAre(r: Rules, its: seq<SearchResult>)
    ensures Dated(r, its) == Lex.Elements(Yearful(r, its))
    ensures Dated(r, its) != {} <==> Yearful(r, its) != []
  {
    YearfulElements(r, its);
    if Yearful(r, its) != [] {
      assert Yearful(r, its)[0] in Dated(r, its);
    }
  }

  lemma KeyIsCanonical(r: Rules, its: seq<SearchResult>)
    requires its != []
    ensures Canonical(r, its, KeyOf(r, its))
  {
    AssertedIff(its);
    DatedAre(r, its);
    if ImdbIds(its) != [] {
      LeastIdOf(its);
    } else if Yearful(r, its) != [] {
      LeastKeyOf(r, Yearful(r, its));
    } else {
      LeastKeyOf(r, its);
    }
  }

  lemma LeastKeyUnique(r: Rules, its: set<SearchResult>, key: string, other: string)
    requires LeastKey(r, its, key) && LeastKey(r, its, other)
    ensures key == other
  {
    Lex.LeAntisymmetric(key, other);
  }

  lemma LeastIdUnique(its: set<SearchResult>, key: string, other: string)
    requires LeastId(its, key) && LeastId(its, other)
    ensures key == other
  {
    var x :| x in its && HasImdb(x) && key == GroupKeyFromImdb(x.imdb.value)
      && forall z :: z in its && HasImdb(z) ==> Lex.Le(x.imdb.value, z.imdb.value);
    var y :| y in its && HasImdb(y) && other == GroupKeyFromImdb(y.imdb.value)
      && forall z :: z in its && HasImdb(z) ==> Lex.Le(y.imdb.value, z.imdb.value);
    Lex.LeAntisymmetric(x.imdb.value, y.imdb.value);
  }

  // Every group of a merge has its canonical key, which is one key only.
  lemma GroupKeyIsCanonical(r: Rules, items: seq<SearchResult>, k: nat, key: string)
    requires k < |MergeSpec(r, items)|
    ensures Canonical(r, MergeSpec(r, items)[k].sources, key) <==> MergeSpec(r, items)[k].key == key
  {
    PartitionCovers(r, items);
    var mg := MergeSpec(r, items)[k];
    KeyIsCanonical(r, mg.sources);
    assert mg.key == KeyOf(r, mg.sources);
    if Canonical(r, mg.sources, key) {
      if Asserted(mg.sources) != {} {
        LeastIdUnique(Asserted(mg.sources), key, mg.key);
      } else if Dated(r, mg.sources) != {} {
        LeastKeyUnique(r, Dated(r, mg.sources), key, mg.key);
      } else {
        LeastKeyUnique(r, Lex.Elements(mg.sources), key, mg.key);
      }
    }
  }

  // ---------------------------------------------------------------- keys across groups

  ghost predicate NoTwins(r: Rules, items: seq<SearchResult>) {
    forall x, y :: 0 <= x < y < |items| ==> !Twins(r, items[x], items[y])
  }

  ghost predicate KeysDisjoint(r: Rules, groups: seq<MergeGroup>) {
    forall k, l :: 0 <= k < l < |groups| ==>
      Lex.Elements(ItemKeys(r, groups[k].sources)) !! Lex.Elements(ItemKeys(r, groups[l].sources))
  }

  ghost predicate DistinctKeys(groups: seq<MergeGroup>) {
    forall k, l :: 0 <= k < l < |groups| ==> groups[k].key != groups[l].key
  }

  // A blank card is alone in its class.
  lemma BlankAlone(r: Rules, items: seq<SearchResult>, x: nat, y: nat)
    requires x < |items| && y < |items| && Blank(r, items[x]) && Connected(r, items, x, y)
    ensures x == y
  {
    var p :| IsPath(r, items, p, x, y);
    assert |p| > 1 ==> Linked(r, items[p[0]], items[p[0 + 1]]);
    assert forall b :: !Linked(r, items[x], b);
  }

  // The card of group k that carries a key of that group.
  lemma CarrierOf(r: Rules, items: seq<SearchResult>, k: nat, key: string) returns (x: nat)
    requires k < |MergeSpec(r, items)| && key in ItemKeys(r, MergeSpec(r, items)[k].sources)
    ensures x < |items| && ItemGroupKey(r, items[x]) == key
    ensures k < |Partition(r, items)| && x in Partition(r, items)[k]
  {
    PartitionCovers(r, items);
    var part := Partition(r, items)[k];
    var ks := ItemKeys(r, MergeSpec(r, items)[k].sources);
    var m :| 0 <= m < |ks| && ks[m] == key;
    x := part[m];
  }

  // A card is in one group only.
  lemma OneGroup(r: Rules, items: seq<SearchResult>, k: nat, l: nat, x: nat)
    requires k < |Partition(r, items)| && l < |Partition(r, items)|
    requires x in Partition(r, items)[k] && x in Partition(r, items)[l]
    ensures k == l
  {
    PartitionCovers(r, items);
    var parts := Partition(r, items);
    var a, b := parts[k][0], parts[l][0];
    assert a in parts[k] && b in parts[l];
    assert Connected(r, items, x, a) && Connected(r, items, x, b);
    var m :| 0 <= m < |parts[k]| && parts[k][m] == b;
    var n :| 0 <= n < |parts[l]| && parts[l][n] == a;
  }

  lemma Singleton(ms: seq<nat>, x: nat)
    requires ms != [] && Ascending(ms) && forall m :: m in ms ==> m == x
    ensures ms == [x]
  {
    assert ms[0] in ms && ms[|ms| - 1] in ms;
  }

  // The groups of two twin cards.
  ghost predicate TwinGroups(r: Rules, items: seq<SearchResult>, k: nat, l: nat) {
    var parts := Partition(r, items);
    k < |parts| && l < |parts| && exists x, y :: x in parts[k] && y in parts[l] && TwinCards(r, items, x, y)
  }

  ghost predicate TwinCards(r: Rules, items: seq<SearchResult>, x: nat, y: nat) {
    x < |items| && y < |items| && x != y && Twins(r, items[x], items[y])
  }

  // The group of a blank card holds nothing else, so it has that card's key and no other.
  lemma BlankGroup(r: Rules, items: seq<SearchResult>, k: nat, x: nat)
    requires k < |Partition(r, items)| && x in Partition(r, items)[k] && x < |items| && Blank(r, items[x])
    ensures k < |MergeSpec(r, items)| && Partition(r, items)[k] == [x]
    ensures ItemKeys(r, MergeSpec(r, items)[k].sources) == [ItemGroupKey(r, items[x])]
    ensures MergeSpec(r, items)[k].key == ItemGroupKey(r, items[x])
  {
    PartitionCovers(r, items);
    var part := Partition(r, items)[k];
    forall m | m in part ensures m == x { BlankAlone(r, items, x, m); }
    Singleton(part, x);
    var group := MergeSpec(r, items)[k];
    assert ItemKeys(r, group.sources) == [ItemGroupKey(r, items[x])];
    CanonicalKeyIsMemberKey(r, group.sources);
  }

  lemma TwinGroupsShareKey(r: Rules, items: seq<SearchResult>, k: nat, l: nat)
    requires Lawful(r) && TwinGroups(r, items, k, l)
    ensures k != l && k < |MergeSpec(r, items)| && l < |MergeSpec(r, items)|
    ensures MergeSpec(r, items)[k].key == MergeSpec(r, items)[l].key
    ensures var groups := MergeSpec(r, items);
      !(Lex.Elements(ItemKeys(r, groups[k].sources)) !! Lex.Elements(ItemKeys(r, groups[l].sources)))
  {
    var parts := Partition(r, items);
    var x, y :| x in parts[k] && y in parts[l] && TwinCards(r, items, x, y);
    BlankGroup(r, items, k, x);
    BlankGroup(r, items, l, y);
    KeyCollision(r, items[x], items[y]);
    var key := ItemGroupKey(r, items[x]);
    assert key in Lex.Elements([key]) * Lex.Elements([key]);
  }

  lemma TwinsCollide(r: Rules, items: seq<SearchResult>, x: nat, y: nat)
    requires Lawful(r) && x < y < |items| && Twins(r, items[x], items[y])
    ensures !KeysDisjoint(r, MergeSpec(r, items)) && !DistinctKeys(MergeSpec(r, items))
  {
    PartitionCovers(r, items);
    var parts, groups := Partition(r, items), MergeSpec(r, items);
    assert Covered(parts, x) && Covered(parts, y);
    var k :| 0 <= k < |parts| && x in parts[k];
    var l :| 0 <= l < |parts| && y in parts[l];
    assert TwinCards(r, items, x, y);
    TwinGroupsShareKey(r, items, k, l);
    var lo, hi := if k < l then k else l, if k < l then l else k;
    assert groups[lo].key == groups[hi].key;
  }

  // Two groups of one merge never share a key, exactly when the listing holds no twins.
  lemma KeysDisjointIff(r: Rules, items: seq<SearchResult>)
    requires Lawful(r)
    ensures KeysDisjoint(r, MergeSpec(r, items)) <==> NoTwins(r, items)
    ensures DistinctKeys(MergeSpec(r, items)) <==> NoTwins(r, items)
  {
    PartitionCovers(r, items);
    var parts, groups := Partition(r, items), MergeSpec(r, items);
    if NoTwins(r, items) {
      forall k, l | 0 <= k < l < |groups|
        ensures Lex.Elements(ItemKeys(r, groups[k].sources)) !! Lex.Elements(ItemKeys(r, groups[l].sources))
        ensures groups[k].key != groups[l].key
      {
        forall key | key in ItemKeys(r, groups[k].sources) ensures key !in ItemKeys(r, groups[l].sources) {
          if key in ItemKeys(r, groups[l].sources) {
            SharedKeyMeansTwins(r, items, k, l, key);
          }
        }
        CanonicalKeyIsMemberKey(r, groups[k].sources);
        CanonicalKeyIsMemberKey(r, groups[l].sources);
      }
    } else {
      var x, y :| 0 <= x < y < |items| && Twins(r, items[x], items[y]);
      TwinsCollide(r, items, x, y);
    }
  }

  lemma SharedKeyMeansTwins(r: Rules, items: seq<SearchResult>, k: nat, l: nat, key: string)
    requires Lawful(r) && k < l < |MergeSpec(r, items)|
    requires key in ItemKeys(r, MergeSpec(r, items)[k].sources)
    requires key in ItemKeys(r, MergeSpec(r, items)[l].sources)
    ensures TwinGroups(r, items, k, l) && !NoTwins(r, items)
  {
    var x := CarrierOf(r, items, k, key);
    var y := CarrierOf(r, items, l, key);
    KeyCollision(r, items[x], items[y]);
    assert !Linked(r, items[x], items[y]) by {
      if Linked(r, items[x], items[y]) {
        SameGroup(r, items, k, l, x, y);
      }
    }
    assert x != y by {
      if x == y {
        OneGroup(r, items, k, l, y);
      }
    }
    assert TwinCards(r, items, x, y);
    var lo, hi := if x < y then x else y, if x < y then y else x;
    assert Twins(r, items[lo], items[hi]);
  }

  lemma SameGroup(r: Rules, items: seq<SearchResult>, k: nat, l: nat, x: nat, y: nat)
    requires k < |Partition(r, items)| && l < |Partition(r, items)|
    requires x in Partition(r, items)[k] && y in Partition(r, items)[l]
    requires x < |items| && y < |items| && Linked(r, items[x], items[y])
    ensures k == l
  {
    PartitionCovers(r, items);
    ConnectedLink(r, items, x, y);
    OneGroup(r, items, k, l, y);
  }

  // Two groups have one canonical key exactly if they are the groups of two twins.
  lemma GroupKeysIff(r: Rules, items: seq<SearchResult>, k: nat, l: nat)
    requires Lawful(r) && k < l < |MergeSpec(r, items)|
    ensures MergeSpec(r, items)[k].key == MergeSpec(r, items)[l].key <==> TwinGroups(r, items, k, l)
  {
    PartitionCovers(r, items);
    if TwinGroups(r, items, k, l) {
      TwinGroupsShareKey(r, items, k, l);
    } else {
      CanonicalKeyIsMemberKey(r, MergeSpec(r, items)[k].sources);
      CanonicalKeyIsMemberKey(r, MergeSpec(r, items)[l].sources);
      if MergeSpec(r, items)[k].key == MergeSpec(r, items)[l].key {
        SharedKeyMeansTwins(r, items, k, l, MergeSpec(r, items)[k].key);
      }
    }
  }

  // ---------------------------------------------------------------- order of the listing

  // Every card of `sub` is found in `all` at its image under f.
  ghost predicate Embeds(sub: seq<SearchResult>, all: seq<SearchResult>, f: seq<nat>) {
    && |f| == |sub|
    && forall i :: 0 <= i < |sub| ==> f[i] < |all| && sub[i] == all[f[i]]
  }

  // A chain among some of the cards is a chain among all of them.
  lemma ConnectedEmbeds(r: Rules, sub: seq<SearchResult>, all: seq<SearchResult>, f: seq<nat>, i: nat, j: nat)
    requires Embeds(sub, all, f) && Connected(r, sub, i, j)
    ensures i < |sub| && j < |sub| && Connected(r, all, f[i], f[j])
  {
    var p :| IsPath(r, sub, p, i, j);
    assert p[|p| - 1] < |sub|;
    var q := seq(|p|, k requires 0 <= k < |p| => f[p[k]]);
    forall k | 0 <= k < |q| - 1 ensures Linked(r, all[q[k]], all[q[k + 1]]) {
      assert Linked(r, sub[p[k]], sub[p[k + 1]]);
    }
    assert IsPath(r, all, q, f[i], f[j]);
  }

  // The cards of i's group, and that group's key.
  ghost function ClassOf(r: Rules, items: seq<SearchResult>, i: nat): (its: seq<SearchResult>)
    requires i < |items|
    ensures its != []
    ensures forall it :: it in its <==> exists j :: 0 <= j < |items| && Connected(r, items, i, j) && items[j] == it
  {
    var ms := Members(r, items, |items|, i);
    MembersProperties(r, items, |items|, i);
    ConnectedReflexive(r, items, i);
    assert i in ms;
    assert forall k :: 0 <= k < |ms| ==> ms[k] in ms;
    var its := Pick(items, ms);
    assert forall j :: j in ms ==> items[j] in its by {
      forall j | j in ms ensures items[j] in its {
        var k :| 0 <= k < |ms| && ms[k] == j;
        assert its[k] == items[j];
      }
    }
    its
  }

  ghost function KeyAt(r: Rules, items: seq<SearchResult>, i: nat): string
    requires i < |items|
  {
    KeyOf(r, ClassOf(r, items, i))
  }

  // Permuting the listing permutes the partition and changes no key.
  lemma OrderIrrelevant(r: Rules, items: seq<SearchResult>, items': seq<SearchResult>, f: seq<nat>, g: seq<nat>,
      i: nat, j: nat)
    requires Embeds(items', items, f) && Embeds(items, items', g)
    requires forall x :: 0 <= x < |g| ==> f[g[x]] == x
    requires forall x :: 0 <= x < |f| ==> g[f[x]] == x
    requires i < |items'| && j < |items'|
    ensures Connected(r, items', i, j) <==> Connected(r, items, f[i], f[j])
    ensures KeyAt(r, items', i) == KeyAt(r, items, f[i])
  {
    forall y | 0 <= y < |items'| ensures Connected(r, items', i, y) <==> Connected(r, items, f[i], f[y]) {
      if Connected(r, items', i, y) {
        ConnectedEmbeds(r, items', items, f, i, y);
      }
      if Connected(r, items, f[i], f[y]) {
        ConnectedEmbeds(r, items, items', g, f[i], f[y]);
        assert g[f[i]] == i && g[f[y]] == y;
      }
    }
    var xs, ys := ClassOf(r, items', i), ClassOf(r, items, f[i]);
    forall it | it in ys ensures it in xs {
      var y :| 0 <= y < |items| && Connected(r, items, f[i], y) && items[y] == it;
      assert f[g[y]] == y && Connected(r, items', i, g[y]);
      assert items'[g[y]] == it;
    }
    KeyOfSet(r, xs, ys);
  }

  // Where the cards of each group stand in the listing: each group in listing order, the groups
  // in the order of their first cards, and every card in the group of everything connected to it.
  ghost predicate Placed(r: Rules, items: seq<SearchResult>, groups: seq<MergeGroup>, at: seq<seq<nat>>) {
    && |at| == |groups|
    && (forall k :: 0 <= k < |at| ==> at[k] != [] && Ascending(at[k]))
    && (forall k, l :: 0 <= k < l < |at| ==> at[k][0] < at[l][0])
    && (forall x :: 0 <= x < |items| ==> Covered(at, x))
    && (forall k, m, x :: 0 <= k < |at| && m in at[k] ==>
          (x in at[k] <==> 0 <= x < |items| && Connected(r, items, m, x)))
    && (forall k :: 0 <= k < |at| ==> Selects(items, at[k], groups[k].sources))
  }

  ghost predicate Selects(items: seq<SearchResult>, places: seq<nat>, its: seq<SearchResult>) {
    |its| == |places| && forall a :: 0 <= a < |places| ==> places[a] < |items| && its[a] == items[places[a]]
  }

  lemma GroupsInOrder(r: Rules, items: seq<SearchResult>) returns (at: seq<seq<nat>>)
    ensures Placed(r, items, MergeSpec(r, items), at)
  {
    PartitionCovers(r, items);
    at := Partition(r, items);
  }

  // The groups of the merge carry exactly these keys and cards.
  lemma GroupHolds(r: Rules, items: seq<SearchResult>, k: nat, i: nat)
    requires k < |Partition(r, items)| && i in Partition(r, items)[k]
    ensures i < |items| && k < |MergeSpec(r, items)|
    ensures MergeSpec(r, items)[k].key == KeyAt(r, items, i)
    ensures forall it :: it in MergeSpec(r, items)[k].sources <==> it in ClassOf(r, items, i)
  {
    PartitionCovers(r, items);
    var part := Partition(r, items)[k];
    var its := MergeSpec(r, items)[k].sources;
    forall it | it in its ensures it in ClassOf(r, items, i) {
      var m :| 0 <= m < |its| && its[m] == it;
      assert part[m] in part;
    }
    forall it | it in ClassOf(r, items, i) ensures it in its {
      var j :| 0 <= j < |items| && Connected(r, items, i, j) && items[j] == it;
      var m :| 0 <= m < |part| && part[m] == j;
      assert its[m] == it;
    }
    KeyOfSet(r, its, ClassOf(r, items, i));
  }

  // ---------------------------------------------------------------- the year-soft rule

  // The pairwise rule is not transitive: one card without a year brings together every
  // card of its alias and form, whatever their years.
  lemma YearlessBridges(r: Rules, items: seq<SearchResult>, x: nat, y: nat, z: nat)
    requires x < |items| && y < |items| && z < |items|
    requires EffectiveYear(r, items[z]).None?
    requires ShareAlias(r, items[x], items[z]) && ShareAlias(r, items[z], items[y])
    requires items[x].form == items[z].form == items[y].form
    ensures Connected(r, items, x, y)
  {
    ConnectedLink(r, items, x, z);
    ConnectedLink(r, items, z, y);
    ConnectedTransitive(r, items, x, z, y);
  }

  // The groups are exactly the pairwise matches.
  ghost predicate PairwiseGroups(r: Rules, items: seq<SearchResult>) {
    forall i, j :: 0 <= i < |items| && 0 <= j < |items| && i != j ==>
      (Connected(r, items, i, j) <==> Linked(r, items[i], items[j]))
  }

  // Card k brings together i and j, which do not match.
  ghost predicate Bridges(r: Rules, items: seq<SearchResult>, i: nat, k: nat, j: nat) {
    && i < |items| && k < |items| && j < |items| && i != j
    && Linked(r, items[i], items[k]) && Linked(r, items[k], items[j]) && !Linked(r, items[i], items[j])
  }

  lemma {:induction false} PathIsLink(r: Rules, items: seq<SearchResult>, p: seq<nat>, i: nat, n: nat)
    requires forall a, k, b :: !Bridges(r, items, a, k, b)
    requires n < |p| && IsPath(r, items, p, i, p[|p| - 1])
    ensures p[n] < |items| && (p[n] == i || Linked(r, items[i], items[p[n]]))
  {
    if n > 0 {
      PathIsLink(r, items, p, i, n - 1);
      assert Linked(r, items[p[n - 1]], items[p[n - 1 + 1]]);
      assert !Bridges(r, items, i, p[n - 1], p[n]);
    }
  }

  // The documentation makes two cards the same title exactly if they match. The groups say so
  // exactly if no card bridges two that do not match.
  lemma PairwiseIff(r: Rules, items: seq<SearchResult>)
    ensures PairwiseGroups(r, items) <==> forall i, k, j :: !Bridges(r, items, i, k, j)
  {
    if forall i, k, j :: !Bridges(r, items, i, k, j) {
      forall i, j | 0 <= i < |items| && 0 <= j < |items| && i != j
        ensures Connected(r, items, i, j) <==> Linked(r, items[i], items[j])
      {
        if Connected(r, items, i, j) {
          var p :| IsPath(r, items, p, i, j);
          PathIsLink(r, items, p, i, |p| - 1);
        } else if Linked(r, items[i], items[j]) {
          ConnectedLink(r, items, i, j);
        }
      }
    } else {
      var i, k, j :| Bridges(r, items, i, k, j);
      ConnectedLink(r, items, i, k);
      ConnectedLink(r, items, k, j);
      ConnectedTransitive(r, items, i, k, j);
    }
  }
}
