// _catalog_state/_stores.py: what the owner of the catalog's derived state means, as a
// function of the state before each operation. The class is in CatalogOwner.dfy.
module Catalog {
  import opened Wrappers
  import opened Seqs
  import opened WireIdentity
  import opened Dicts
  import opened Home
  import opened Snapshot
  import opened HomeRows

  datatype IndexEntry = IndexEntry(card: Option<HomeItem>, kind: Option<RowKind>)

  // One key a search registered: a deadline and the search layer's own providers.
  datatype Registration = Registration(expiresAt: real, providers: Dict<SearchResult>)

  // The resolution map's entry in its TTL cache.
  datatype Slot = Slot(expiresAt: real, sources: SourcesMap)

  datatype State = State(
    index: Dict<IndexEntry>,
    regs: Dict<Registration>,
    slot: Option<Slot>,
    home: Option<(real, seq<HomeRow>)>,
    file: Option<(seq<HomeRow>, SourcesMap)>)

  // The search TTL and the resolution map's TTL.
  datatype Config = Config(searchTtl: real, homeTtl: real)

  // TtlCache.set: a negative TTL counts as 0.
  function HomeLife(cfg: Config): (life: real)
    ensures life >= 0.0
  {
    if cfg.homeTtl > 0.0 then cfg.homeTtl else 0.0
  }

  const BARE := IndexEntry(None, None)

  // TtlCache.get: an entry answers up to and including its deadline.
  function LiveSlot(slot: Option<Slot>, now: real): Option<Slot> {
    if slot.Some? && slot.value.expiresAt < now then None else slot
  }

  function SourcesAt(s: State, now: real): SourcesMap {
    if LiveSlot(s.slot, now).Some? then s.slot.value.sources else map[]
  }

  function Put<V>(d: Dict<V>, k: string, v: V): Dict<V> {
    if k in d.vals then Entries(d.keys, d.vals[k := v]) else SetDefault(d, k, v)
  }

  // ---------------------------------------------------------------- search registration

  // A key a search returned, with the provider union of its group.
  datatype Hit = Hit(key: string, union: Dict<SearchResult>)

  // The state while a search is being folded in.
  datatype Fold = Fold(existing: SourcesMap, index: Dict<IndexEntry>, regs: Dict<Registration>, changed: bool)

  function Owned(regs: Dict<Registration>, hit: Hit, now: real): Dict<SearchResult> {
    if hit.key in regs.vals && regs.vals[hit.key].expiresAt >= now
    then Union(regs.vals[hit.key].providers, hit.union) else hit.union
  }

  function RecordHit(regs: Dict<Registration>, hit: Hit, now: real, cfg: Config): Dict<Registration> {
    Put(regs, hit.key, Registration(now + cfg.searchTtl, Owned(regs, hit, now)))
  }

  function FoldHit(f: Fold, hit: Hit, now: real, cfg: Config): Fold {
    var merged := if hit.key in f.existing then Union(f.existing[hit.key], hit.union) else hit.union;
    Fold(
      f.existing[hit.key := merged],
      SetDefault(f.index, hit.key, BARE),
      RecordHit(f.regs, hit, now, cfg),
      || f.changed
      || hit.key !in f.existing || f.existing[hit.key] != merged
      || hit.key !in f.index.vals)
  }

  function FoldHits(f: Fold, hits: seq<Hit>, now: real, cfg: Config): Fold {
    if hits == [] then f else FoldHit(FoldHits(f, hits[..|hits| - 1], now, cfg), hits[|hits| - 1], now, cfg)
  }

  function Started(s: State, now: real): Fold {
    Fold(SourcesAt(s, now), s.index, s.regs, false)
  }

  function Search(s: State, hits: seq<Hit>, now: real, cfg: Config): State {
    if hits == [] then s
    else Finished(s, FoldHits(Started(s, now), hits, now, cfg), now, cfg)
  }

  function Finished(s: State, g: Fold, now: real, cfg: Config): State {
    s.(index := g.index, regs := g.regs,
       slot := if g.changed then Some(Slot(now + HomeLife(cfg), g.existing)) else LiveSlot(s.slot, now))
  }

  // ---------------------------------------------------------------- snapshot replacement

  function Live(regs: Dict<Registration>, now: real): (live: Dict<Registration>)
    ensures forall k :: k in live.vals <==> k in regs.vals && regs.vals[k].expiresAt >= now
    ensures forall k :: k in live.vals ==> live.vals[k] == regs.vals[k]
  {
    LiveKeys(regs, now, regs.keys);
    Entries(Kept(regs, now, regs.keys), map k | k in regs.vals && regs.vals[k].expiresAt >= now :: regs.vals[k])
  }

  function Kept(regs: Dict<Registration>, now: real, ks: seq<string>): seq<string>
    requires forall k :: k in ks ==> k in regs.vals
  {
    if ks == [] then []
    else
      var n := |ks| - 1;
      Kept(regs, now, ks[..n]) + if regs.vals[ks[n]].expiresAt >= now then [ks[n]] else []
  }

  lemma {:induction false} LiveKeys(regs: Dict<Registration>, now: real, ks: seq<string>)
    requires Distinct(ks) && forall k :: k in ks ==> k in regs.vals
    ensures Distinct(Kept(regs, now, ks))
    ensures forall k :: k in Kept(regs, now, ks) <==> k in ks && regs.vals[k].expiresAt >= now
  {
    if ks != [] {
      var n := |ks| - 1;
      DistinctLast(ks);
      LiveKeys(regs, now, ks[..n]);
      if regs.vals[ks[n]].expiresAt >= now {
        DistinctSnoc(Kept(regs, now, ks[..n]), ks[n]);
      } else {
        assert Kept(regs, now, ks) == Kept(regs, now, ks[..n]);
      }
    }
  }

  // The index of a snapshot: row then item order, the first item to claim a key keeps it.
  function ClaimKeys(d: Dict<IndexEntry>, ks: seq<string>, e: IndexEntry): Dict<IndexEntry> {
    if ks == [] then d else SetDefault(ClaimKeys(d, ks[..|ks| - 1], e), ks[|ks| - 1], e)
  }

  function KeysOf(item: HomeItem): seq<string> {
    if item.memberKeys != [] then item.memberKeys else [item.groupKey]
  }

  function ClaimItems(d: Dict<IndexEntry>, items: seq<HomeItem>, kind: RowKind): Dict<IndexEntry> {
    if items == [] then d
    else
      var n := |items| - 1;
      ClaimKeys(ClaimItems(d, items[..n], kind), KeysOf(items[n]), IndexEntry(Some(items[n]), Some(kind)))
  }

  function EntriesFromRows(rows: seq<HomeRow>): Dict<IndexEntry> {
    if rows == [] then Empty()
    else
      var n := |rows| - 1;
      ClaimItems(EntriesFromRows(rows[..n]), rows[n].items, rows[n].kind)
  }

  // The snapshot's entries, and what a live registration adds: snapshot cards win.
  ghost function Carried(sources: SourcesMap, live: Dict<Registration>): SourcesMap {
    map k | k in sources.Keys + live.vals.Keys :: CarriedAt(sources, live, k)
  }

  function CarriedAt(sources: SourcesMap, live: Dict<Registration>, k: string): Dict<SearchResult>
    requires k in sources || k in live.vals
  {
    if k !in live.vals then sources[k]
    else Union(if k in sources then sources[k] else Empty(), live.vals[k].providers)
  }

  ghost function Apply(
    s: State, rows: seq<HomeRow>, sources: Option<SourcesMap>, persist: bool, now: real, cfg: Config): State
  {
    var live := Live(s.regs, now);
    s.(regs := live,
       index := ClaimKeys(EntriesFromRows(rows), live.keys, BARE),
       home := Some((now + HomeLife(cfg), rows)),
       slot := if sources.Some? then Some(Slot(now + HomeLife(cfg), Carried(sources.value, live))) else s.slot,
       file := if persist && sources.Some? then Some((rows, sources.value)) else s.file)
  }

  // The sanctioned clear: the rows go, the map, the index and the registrations stay.
  function Invalidate(s: State): State {
    s.(home := None)
  }

  // ---------------------------------------------------------------- the read side

  datatype Origin = FromSnapshot | FromRegistration

  datatype Resolution = Resolution(origin: Origin, card: Option<HomeItem>, kind: Option<RowKind>,
                                   sources: seq<SearchResult>)

  function Cards(d: Dict<SearchResult>): seq<SearchResult> {
    seq(|d.keys|, i requires 0 <= i < |d.keys| => assert d.keys[i] in d.keys; d.vals[d.keys[i]])
  }

  function Resolve(s: State, key: string, now: real): Option<Resolution> {
    var sources := SourcesAt(s, now);
    if key !in s.index.vals && key !in sources then None
    else
      var card := if key in s.index.vals then s.index.vals[key].card else None;
      var kind := if key in s.index.vals then s.index.vals[key].kind else None;
      Some(Resolution(if card.Some? then FromSnapshot else FromRegistration, card, kind,
        if key in sources then Cards(sources[key]) else []))
  }

  // The map holds the key, and has not expired.
  predicate Held(s: State, key: string, now: real) {
    s.slot.Some? && now <= s.slot.value.expiresAt && key in s.slot.value.sources
  }

  // The cards of a dict, each once, in its order.
  ghost predicate ListsCards(d: Dict<SearchResult>, cards: seq<SearchResult>) {
    |cards| == |d.keys| && forall i :: 0 <= i < |cards| ==> d.keys[i] in d.vals && cards[i] == d.vals[d.keys[i]]
  }

  // A key neither the index nor the live map has gets no answer. Any other answers with the
  // index's card and row kind, from the snapshot exactly if there is such a card, and with the
  // live map's cards of the key.
  lemma AnswerIs(s: State, key: string, now: real)
    ensures Resolve(s, key, now).None? <==> key !in s.index.vals && !Held(s, key, now)
    ensures Resolve(s, key, now).Some? ==>
      var answer := Resolve(s, key, now).value;
      && (key in s.index.vals ==> answer.card == s.index.vals[key].card && answer.kind == s.index.vals[key].kind)
      && (key !in s.index.vals ==> answer.card.None? && answer.kind.None?)
      && (answer.origin.FromSnapshot? <==> key in s.index.vals && s.index.vals[key].card.Some?)
      && (if Held(s, key, now) then ListsCards(s.slot.value.sources[key], answer.sources) else answer.sources == [])
  {
    if Held(s, key, now) {
      CardsListed(s.slot.value.sources[key]);
    }
  }

  lemma CardsListed(d: Dict<SearchResult>)
    ensures ListsCards(d, Cards(d))
  {
    forall i | 0 <= i < |d.keys| ensures d.keys[i] in d.vals {
      assert d.keys[i] in d.keys;
    }
  }
}
