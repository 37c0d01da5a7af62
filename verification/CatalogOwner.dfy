// _catalog_state/_stores.py, CatalogState: the object that owns the index, the registrations
// and the writes to the shared resolution map, which it mutates in place.
module CatalogOwner {
  import opened Wrappers
  import opened WireIdentity
  import opened Dicts
  import opened Home
  import opened Snapshot
  import opened HomeRows
  import opened Catalog
  import CatalogPromises
  import CatalogProvenance

  // The dict object that the TTL cache hands out to everybody.
  class SourcesCell {
    var m: SourcesMap

    constructor (m: SourcesMap)
      ensures this.m == m
    {
      this.m := m;
    }
  }

  datatype SearchGroup = SearchGroup(groupKey: string, memberKeys: seq<string>, sources: seq<SearchResult>)

  function GroupKeys(g: SearchGroup): seq<string> {
    if g.memberKeys != [] then g.memberKeys else [g.groupKey]
  }

  function KeyHits(keys: seq<string>, union: Dict<SearchResult>): seq<Hit> {
    seq(|keys|, i requires 0 <= i < |keys| => Hit(keys[i], union))
  }

  // Every key of every group, with the group's provider union.
  function Hits(groups: seq<SearchGroup>): (hits: seq<Hit>)
    ensures groups == [] <==> hits == []
  {
    if groups == [] then []
    else
      var g := groups[|groups| - 1];
      Hits(groups[..|groups| - 1]) + KeyHits(GroupKeys(g), UnionOf(g.sources))
  }

  ghost predicate GroupHas(g: SearchGroup, key: string) {
    if g.memberKeys == [] then key == g.groupKey else key in g.memberKeys
  }

  ghost predicate HitOf(g: SearchGroup, hit: Hit) {
    GroupHas(g, hit.key) && hit.union == UnionOf(g.sources)
  }

  ghost predicate SomeHitOf(groups: seq<SearchGroup>, hit: Hit) {
    exists g :: g in groups && HitOf(g, hit)
  }

  // The hits of a search are its groups' member keys, or a group's own key where it has none,
  // each with the group's provider union.
  lemma {:induction false} HitsAre(groups: seq<SearchGroup>, hit: Hit)
    ensures hit in Hits(groups) <==> SomeHitOf(groups, hit)
  {
    if groups != [] {
      var n := |groups| - 1;
      assert groups == groups[..n] + [groups[n]];
      HitsAre(groups[..n], hit);
      KeyHitsAre(GroupKeys(groups[n]), UnionOf(groups[n].sources), hit);
      SomeSnoc(groups[..n], groups[n], groups, hit);
    }
  }

  lemma SomeSnoc(groups: seq<SearchGroup>, last: SearchGroup, all: seq<SearchGroup>, hit: Hit)
    requires all == groups + [last]
    ensures SomeHitOf(all, hit) <==> SomeHitOf(groups, hit) || HitOf(last, hit)
  {
    assert last in all;
    if SomeHitOf(groups, hit) {
      var g :| g in groups && HitOf(g, hit);
      assert g in all;
    }
  }

  lemma KeyHitsAre(keys: seq<string>, union: Dict<SearchResult>, hit: Hit)
    ensures hit in KeyHits(keys, union) <==> hit.key in keys && hit.union == union
  {
    if hit.key in keys && hit.union == union {
      var i :| 0 <= i < |keys| && keys[i] == hit.key;
      assert KeyHits(keys, union)[i] == hit;
    }
  }

  // Every search puts its cards under their providers.
  lemma {:induction false} HitsAreUnder(groups: seq<SearchGroup>)
    ensures CatalogPromises.HitsUnder(Hits(groups))
  {
    if groups != [] {
      HitsAreUnder(groups[..|groups| - 1]);
    }
  }

  class CatalogState {
    const cfg: Config
    var index: Dict<IndexEntry>
    var regs: Dict<Registration>
    var mapDeadline: real
    var cell: SourcesCell?
    var home: Option<(real, seq<HomeRow>)>
    var file: Option<(seq<HomeRow>, SourcesMap)>

    ghost function Abs(): State
      reads this, cell
    {
      State(index, regs, if cell == null then None else Some(Slot(mapDeadline, cell.m)), home, file)
    }

    constructor (cfg: Config)
      ensures this.cfg == cfg && cell == null
      ensures Abs() == State(Empty(), Empty(), None, None, None)
    {
      this.cfg := cfg;
      index, regs := Empty(), Empty();
      mapDeadline, cell := 0.0, null;
      home, file := None, None;
    }

    method GroupResolution(key: string, now: real) returns (answer: Option<Resolution>)
      ensures answer == Resolve(Abs(), key, now)
    {
      var sources: SourcesMap := map[];
      if cell != null && !(mapDeadline < now) {
        sources := cell.m;
      }
      if key !in index.vals && key !in sources {
        return None;
      }
      var entry := if key in index.vals then index.vals[key] else BARE;
      var cards: seq<SearchResult> := [];
      if key in sources {
        cards := Cards(sources[key]);
      }
      answer := Some(Resolution(if entry.card.Some? then FromSnapshot else FromRegistration,
        entry.card, entry.kind, cards));
    }

    method SnapshotEntries() returns (out: seq<(HomeItem, Option<RowKind>)>)
      ensures out == CatalogProvenance.SnapshotEntries(index, |index.keys|)
    {
      var seen: set<string> := {};
      out := [];
      for n := 0 to |index.keys|
        invariant out == CatalogProvenance.SnapshotEntries(index, n)
        invariant forall k :: k in seen <==> CatalogProvenance.Listed(out, k)
      {
        assert index.keys[n] in index.keys;
        var e := index.vals[index.keys[n]];
        if e.card.Some? && e.card.value.groupKey !in seen {
          ListedSnoc(out, (e.card.value, e.kind));
          seen := seen + {e.card.value.groupKey};
          out := out + [(e.card.value, e.kind)];
        }
      }
    }

    // The shared map is changed where it lies, then set again if anything changed.
    method RegisterSearch(groups: seq<SearchGroup>, now: real)
      modifies this, cell
      ensures Abs() == Search(old(Abs()), Hits(groups), now, cfg)
      ensures cell == old(cell) || cell == null || fresh(cell)
    {
      if groups == [] {
        return;
      }
      ghost var before := Abs();
      var existing := TakeMap(now);
      FoldAndSet(groups, existing, now, before);
    }

    method FoldAndSet(groups: seq<SearchGroup>, existing: SourcesCell, now: real, ghost before: State)
      requires groups != [] && (cell == null || cell == existing)
      requires Abs() == before.(slot := LiveSlot(before.slot, now)) && existing.m == SourcesAt(before, now)
      modifies this, existing
      ensures Abs() == Search(before, Hits(groups), now, cfg)
      ensures cell == old(cell) || cell == existing
    {
      ghost var m, start, hits := SourcesAt(before, now), Started(before, now), Hits(groups);
      assert hits != [];
      assert LiveSlot(before.slot, now) == if cell == null then None else Some(Slot(mapDeadline, m));
      assert Folding(existing, false) == start;
      var changed := FoldGroups(groups, existing, now);
      assert Folding(existing, changed) == FoldHits(start, hits, now, cfg);
      SetIfChanged(existing, changed, now, before, m);
    }

    // `sources()`: the cached dict itself while it lives, a new empty one after that.
    method TakeMap(now: real) returns (existing: SourcesCell)
      modifies this`cell
      ensures fresh(existing) || existing == old(cell)
      ensures cell == null || cell == existing
      ensures existing.m == SourcesAt(old(Abs()), now)
      ensures Abs() == old(Abs()).(slot := LiveSlot(old(Abs()).slot, now))
    {
      if cell != null && !(mapDeadline < now) {
        existing := cell;
      } else {
        existing := new SourcesCell(map[]);
        cell := null;
      }
    }

    method SetIfChanged(existing: SourcesCell, changed: bool, now: real, ghost before: State, ghost m: SourcesMap)
      requires home == before.home && file == before.file
      requires cell == null || cell == existing
      requires LiveSlot(before.slot, now) == if cell == null then None else Some(Slot(mapDeadline, m))
      requires !changed ==> existing.m == m
      modifies this`cell, this`mapDeadline
      ensures Abs() == Finished(before, Folding(existing, changed), now, cfg)
      ensures cell == old(cell) || cell == existing
    {
      if changed {
        cell, mapDeadline := existing, now + HomeLife(cfg);
      }
    }

    ghost function Folding(existing: SourcesCell, changed: bool): Fold
      reads this, existing
    {
      Fold(existing.m, index, regs, changed)
    }

    method FoldGroups(groups: seq<SearchGroup>, existing: SourcesCell, now: real) returns (changed: bool)
      modifies this`index, this`regs, existing
      ensures Folding(existing, changed) == FoldHits(old(Folding(existing, false)), Hits(groups), now, cfg)
      ensures !changed ==> existing.m == old(existing.m)
    {
      ghost var start := Folding(existing, false);
      CatalogPromises.FoldUnchanged(start, Hits(groups), now, cfg);
      ghost var f := start;
      changed := false;
      for g := 0 to |groups|
        invariant Folding(existing, changed) == f
        invariant f == FoldHits(start, Hits(groups[..g]), now, cfg)
      {
        FoldGroupStep(start, groups, g, now, cfg);
        changed := RegisterGroup(groups[g], existing, now, changed);
        f := Folding(existing, changed);
      }
      assert groups[..|groups|] == groups;
    }

    // One group of the search, under each of its keys.
    method RegisterGroup(group: SearchGroup, existing: SourcesCell, now: real, changed: bool) returns (changed': bool)
      modifies this`index, this`regs, existing
      ensures Folding(existing, changed') == FoldHits(old(Folding(existing, changed)),
        KeyHits(GroupKeys(group), UnionOf(group.sources)), now, cfg)
    {
      var union := ProviderUnion(group.sources);
      changed' := RegisterKeys(GroupKeys(group), union, existing, now, changed);
    }

    method RegisterKeys(keys: seq<string>, union: Dict<SearchResult>, existing: SourcesCell, now: real, changed: bool)
      returns (changed': bool)
      modifies this`index, this`regs, existing
      ensures Folding(existing, changed') == FoldHits(old(Folding(existing, changed)), KeyHits(keys, union), now, cfg)
    {
      ghost var start := Folding(existing, changed);
      ghost var f := start;
      changed' := changed;
      for k := 0 to |keys|
        invariant Folding(existing, changed') == f
        invariant f == FoldHits(start, KeyHits(keys[..k], union), now, cfg)
      {
        KeyHitStep(start, keys, k, union, now, cfg);
        changed' := RegisterKey(keys[k], union, existing, now, changed');
        f := Folding(existing, changed');
      }
      assert keys[..|keys|] == keys;
    }

    method RegisterKey(key: string, union: Dict<SearchResult>, existing: SourcesCell, now: real, changed: bool)
      returns (changed': bool)
      modifies this`index, this`regs, existing
      ensures Folding(existing, changed') == FoldHit(old(Folding(existing, changed)), Hit(key, union), now, cfg)
    {
      var mapChanged := MergeInto(key, union, existing);
      changed' := changed || mapChanged;
      if key !in index.vals {
        index := SetDefault(index, key, BARE);
        changed' := true;
      }
      var owned := union;
      if key in regs.vals && regs.vals[key].expiresAt >= now {
        owned := SetDefaults(regs.vals[key].providers, union);
      }
      regs := Put(regs, key, Registration(now + cfg.searchTtl, owned));
    }

    // The shared map's own part of that.
    static method MergeInto(key: string, union: Dict<SearchResult>, existing: SourcesCell) returns (changed: bool)
      modifies existing
      ensures existing.m == old(existing.m)[key := Merged(old(existing.m), key, union)]
      ensures changed <==> key !in old(existing.m) || old(existing.m[key]) != Merged(old(existing.m), key, union)
    {
      if key !in existing.m {
        existing.m := existing.m[key := union];
        return true;
      }
      var merged := SetDefaults(existing.m[key], union);
      changed := merged != existing.m[key];
      if changed {
        existing.m := existing.m[key := merged];
      } else {
        assert existing.m == existing.m[key := merged];
      }
    }

    method Invalidate()
      modifies this`home
      ensures Abs() == Catalog.Invalidate(old(Abs()))
    {
      home := None;
    }

    // The one apply step. The installed map is a fresh object: a search that later mutates
    // it in place reaches neither the caller's map nor what went to the file.
    method ApplySnapshot(rows: seq<HomeRow>, sources: SourcesCell?, persist: bool, now: real)
      modifies this
      ensures Abs() == Apply(old(Abs()), rows, if sources == null then None else Some(sources.m), persist, now, cfg)
      ensures if sources == null then cell == old(cell) else fresh(cell) && cell != sources
    {
      var entries := IndexRows(rows);
      var live := Live(regs, now);
      if sources != null {
        var merged := new SourcesCell(map[]);
        merged.m := Carry(sources.m, live);
        cell, mapDeadline := merged, now + HomeLife(cfg);
        if persist {
          file := Some((rows, sources.m));
        }
      }
      regs := live;
      home := Some((now + HomeLife(cfg), rows));
      index := Claim(entries, live.keys, BARE);
    }
  }

  lemma ListedSnoc(out: seq<(HomeItem, Option<RowKind>)>, x: (HomeItem, Option<RowKind>))
    ensures forall k :: CatalogProvenance.Listed(out + [x], k) <==>
      CatalogProvenance.Listed(out, k) || k == x.0.groupKey
  {
    forall k ensures CatalogProvenance.Listed(out + [x], k) <==> CatalogProvenance.Listed(out, k) || k == x.0.groupKey {
      if CatalogProvenance.Listed(out, k) {
        var i :| 0 <= i < |out| && out[i].0.groupKey == k;
        assert (out + [x])[i].0.groupKey == k;
      }
      assert (out + [x])[|out|] == x;
    }
  }

  lemma {:induction false} FoldConcat(f: Fold, a: seq<Hit>, b: seq<Hit>, now: real, cfg: Config)
    ensures FoldHits(f, a + b, now, cfg) == FoldHits(FoldHits(f, a, now, cfg), b, now, cfg)
  {
    if b == [] {
      assert a + b == a;
    } else {
      var n := |b| - 1;
      FoldConcat(f, a, b[..n], now, cfg);
      assert (a + b)[..|a + b| - 1] == a + b[..n] && (a + b)[|a + b| - 1] == b[n];
      assert FoldHits(f, a + b, now, cfg) == FoldHit(FoldHits(f, a + b[..n], now, cfg), b[n], now, cfg);
    }
  }

  function Merged(m: SourcesMap, key: string, union: Dict<SearchResult>): Dict<SearchResult> {
    if key in m then Union(m[key], union) else union
  }

  lemma KeyHitStep(f: Fold, keys: seq<string>, k: nat, union: Dict<SearchResult>, now: real, cfg: Config)
    requires k < |keys|
    ensures FoldHits(f, KeyHits(keys[..k + 1], union), now, cfg)
      == FoldHit(FoldHits(f, KeyHits(keys[..k], union), now, cfg), Hit(keys[k], union), now, cfg)
  {
    var hits := KeyHits(keys[..k + 1], union);
    assert hits[..k] == KeyHits(keys[..k], union) && hits[k] == Hit(keys[k], union);
  }

  lemma FoldGroupStep(f: Fold, groups: seq<SearchGroup>, g: nat, now: real, cfg: Config)
    requires g < |groups|
    ensures FoldHits(f, Hits(groups[..g + 1]), now, cfg)
      == FoldHits(FoldHits(f, Hits(groups[..g]), now, cfg),
                  KeyHits(GroupKeys(groups[g]), UnionOf(groups[g].sources)), now, cfg)
  {
    assert groups[..g + 1][..g] == groups[..g];
    FoldConcat(f, Hits(groups[..g]), KeyHits(GroupKeys(groups[g]), UnionOf(groups[g].sources)), now, cfg);
  }

  // Live registrations merged into a copy of the snapshot's map.
  method Carry(sources: SourcesMap, live: Dict<Registration>) returns (merged: SourcesMap)
    ensures merged == Carried(sources, live)
  {
    CarriedIs(sources, live);
    merged := CarryAll(sources, live, Carried(sources, live));
  }

  ghost predicate IsCarried(sources: SourcesMap, live: Dict<Registration>, all: SourcesMap) {
    && all.Keys == sources.Keys + live.vals.Keys
    && forall k :: k in all ==> all[k] == CarriedAt(sources, live, k)
  }

  lemma CarriedIs(sources: SourcesMap, live: Dict<Registration>)
    ensures IsCarried(sources, live, Carried(sources, live))
  {}

  method CarryAll(sources: SourcesMap, live: Dict<Registration>, ghost all: SourcesMap) returns (merged: SourcesMap)
    requires IsCarried(sources, live, all)
    ensures merged == all
  {
    merged := sources;
    for i := 0 to |live.keys|
      invariant KeySet(live, i) <= all.Keys && Mixed(sources, all, KeySet(live, i), merged)
    {
      KeySetNext(live, i);
      merged := CarryNext(sources, merged, live, live.keys[i], all, KeySet(live, i));
    }
    KeySetAll(live);
    MixedAll(sources, all, live.vals.Keys, merged);
  }

  method CarryNext(ghost sources: SourcesMap, merged: SourcesMap, live: Dict<Registration>, key: string,
      ghost all: SourcesMap, ghost done: set<string>)
    returns (merged': SourcesMap)
    requires key in live.vals && key !in done && IsCarried(sources, live, all)
    requires done <= all.Keys && Mixed(sources, all, done, merged)
    ensures done + {key} <= all.Keys && Mixed(sources, all, done + {key}, merged')
  {
    // A key not merged yet still has the snapshot's own entry.
    assert key in merged <==> key in sources;
    var target := CarryOne(merged, live, key);
    assert target == all[key];
    MixedStep(sources, all, done, merged, key);
    merged' := merged[key := target];
  }

  // One registration's providers, after the snapshot's own for that key.
  method CarryOne(merged: SourcesMap, live: Dict<Registration>, key: string) returns (target: Dict<SearchResult>)
    requires key in live.vals
    ensures target == CarriedAt(merged, live, key)
  {
    target := if key in merged then merged[key] else Empty();
    target := SetDefaults(target, live.vals[key].providers);
  }

  method Claim(d: Dict<IndexEntry>, ks: seq<string>, e: IndexEntry) returns (f: Dict<IndexEntry>)
    ensures f == ClaimKeys(d, ks, e)
  {
    f := d;
    for i := 0 to |ks|
      invariant f == ClaimKeys(d, ks[..i], e)
    {
      assert ks[..i + 1][..i] == ks[..i];
      f := SetDefault(f, ks[i], e);
    }
    assert ks[..|ks|] == ks;
  }

  method IndexRows(rows: seq<HomeRow>) returns (f: Dict<IndexEntry>)
    ensures f == EntriesFromRows(rows)
  {
    f := Empty();
    for r := 0 to |rows|
      invariant f == EntriesFromRows(rows[..r])
    {
      assert rows[..r + 1][..r] == rows[..r];
      f := ClaimRow(f, rows[r].items, rows[r].kind);
    }
    assert rows[..|rows|] == rows;
  }

  method ClaimRow(d: Dict<IndexEntry>, items: seq<HomeItem>, kind: RowKind) returns (f: Dict<IndexEntry>)
    ensures f == ClaimItems(d, items, kind)
  {
    f := d;
    for i := 0 to |items|
      invariant f == ClaimItems(d, items[..i], kind)
    {
      assert items[..i + 1][..i] == items[..i];
      f := Claim(f, KeysOf(items[i]), IndexEntry(Some(items[i]), Some(kind)));
    }
    assert items[..|items|] == items;
  }
}
