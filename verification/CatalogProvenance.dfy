// Where every card of a registration came from, and what a replacement installs.
module CatalogProvenance {
  import opened Wrappers
  import opened WireIdentity
  import opened Dicts
  import opened Home
  import opened Snapshot
  import opened HomeRows
  import opened Catalog
  import opened CatalogPromises

  // One key returned by one search.
  datatype Event = Event(at: real, hit: Hit)

  ghost function Events(hits: seq<Hit>, at: real): seq<Event> {
    seq(|hits|, i requires 0 <= i < |hits| => Event(at, hits[i]))
  }

  ghost function Here(op: Op): seq<Event> {
    if op.SearchOp? then Events(op.hits, op.at) else []
  }

  ghost function Trace(ops: seq<Op>): seq<Event> {
    if ops == [] then [] else Here(ops[0]) + Trace(ops[1..])
  }

  // Searches for one key, each still live when the next one came, the first of which
  // returned this card for this provider and the last of which set the deadline.
  ghost predicate Chain(tr: seq<Event>, idx: seq<nat>, key: string, p: string, card: SearchResult, ttl: real,
      deadline: real)
  {
    && idx != []
    && (forall j :: 0 <= j < |idx| ==> idx[j] < |tr| && tr[idx[j]].hit.key == key)
    && (forall j :: 0 <= j < |idx| - 1 ==> idx[j] < idx[j + 1] && tr[idx[j + 1]].at <= tr[idx[j]].at + ttl)
    && p in tr[idx[0]].hit.union.vals && tr[idx[0]].hit.union.vals[p] == card
    && tr[idx[|idx| - 1]].at + ttl == deadline
  }

  ghost predicate HasChain(regs: Dict<Registration>, tr: seq<Event>, ttl: real, key: string, p: string)
    requires key in regs.vals && p in regs.vals[key].providers.vals
  {
    exists idx :: Chain(tr, idx, key, p, regs.vals[key].providers.vals[p], ttl, regs.vals[key].expiresAt)
  }

  ghost predicate AllTraced(regs: Dict<Registration>, tr: seq<Event>, ttl: real) {
    forall key, p :: key in regs.vals && p in regs.vals[key].providers.vals ==> HasChain(regs, tr, ttl, key, p)
  }

  lemma ChainExtends(tr: seq<Event>, more: seq<Event>, idx: seq<nat>, key: string, p: string, card: SearchResult,
      ttl: real, deadline: real)
    requires Chain(tr, idx, key, p, card, ttl, deadline)
    ensures Chain(tr + more, idx, key, p, card, ttl, deadline)
  {
  }

  lemma ChainSnoc(tr: seq<Event>, ev: Event, idx: seq<nat>, key: string, p: string, card: SearchResult, ttl: real,
      deadline: real)
    requires Chain(tr, idx, key, p, card, ttl, deadline) && ev.hit.key == key && ev.at <= deadline
    ensures Chain(tr + [ev], idx + [|tr|], key, p, card, ttl, ev.at + ttl)
  {
  }

  lemma ChainStart(tr: seq<Event>, ev: Event, p: string, ttl: real)
    requires p in ev.hit.union.vals
    ensures Chain(tr + [ev], [|tr|], ev.hit.key, p, ev.hit.union.vals[p], ttl, ev.at + ttl)
  {
  }

  lemma EarlierTraced(regs: Dict<Registration>, ev: Event, tr: seq<Event>, ttl: real, p: string) returns (idx: seq<nat>)
    requires AllTraced(regs, tr, ttl) && ev.hit.key in regs.vals && ev.at <= regs.vals[ev.hit.key].expiresAt
    requires p in regs.vals[ev.hit.key].providers.vals
    ensures Chain(tr + [ev], idx, ev.hit.key, p, regs.vals[ev.hit.key].providers.vals[p], ttl, ev.at + ttl)
  {
    var key := ev.hit.key;
    var card, deadline := regs.vals[key].providers.vals[p], regs.vals[key].expiresAt;
    assert HasChain(regs, tr, ttl, key, p);
    var before: seq<nat> :| Chain(tr, before, key, p, card, ttl, deadline);
    ChainSnoc(tr, ev, before, key, p, card, ttl, deadline);
    idx := before + [|tr|];
  }

  // What one hit leaves in a registration's providers.
  lemma OwnedFrom(regs: Dict<Registration>, hit: Hit, now: real, p: string)
    requires p in Owned(regs, hit, now).vals
    ensures var card := Owned(regs, hit, now).vals[p];
      || (&& hit.key in regs.vals && regs.vals[hit.key].expiresAt >= now
          && p in regs.vals[hit.key].providers.vals && card == regs.vals[hit.key].providers.vals[p])
      || (p in hit.union.vals && card == hit.union.vals[p])
  {
  }

  lemma OwnedTraced(regs: Dict<Registration>, ev: Event, tr: seq<Event>, ttl: real, p: string, card: SearchResult)
    returns (idx: seq<nat>)
    requires AllTraced(regs, tr, ttl)
    requires var key := ev.hit.key;
      || (&& key in regs.vals && regs.vals[key].expiresAt >= ev.at
          && p in regs.vals[key].providers.vals && card == regs.vals[key].providers.vals[p])
      || (p in ev.hit.union.vals && card == ev.hit.union.vals[p])
    ensures Chain(tr + [ev], idx, ev.hit.key, p, card, ttl, ev.at + ttl)
  {
    if p in ev.hit.union.vals && card == ev.hit.union.vals[p] {
      ChainStart(tr, ev, p, ttl);
      idx := [|tr|];
    } else {
      idx := EarlierTraced(regs, ev, tr, ttl, p);
    }
  }

  lemma OtherTraced(regs: Dict<Registration>, after: Dict<Registration>, ev: Event, tr: seq<Event>, ttl: real,
      key: string, p: string)
    requires AllTraced(regs, tr, ttl) && key in regs.vals && p in regs.vals[key].providers.vals
    requires key in after.vals && after.vals[key] == regs.vals[key]
    ensures HasChain(after, tr + [ev], ttl, key, p)
  {
    assert HasChain(regs, tr, ttl, key, p);
    var card, deadline := regs.vals[key].providers.vals[p], regs.vals[key].expiresAt;
    var idx: seq<nat> :| Chain(tr, idx, key, p, card, ttl, deadline);
    ChainExtends(tr, [ev], idx, key, p, card, ttl, deadline);
  }

  lemma HitTracedAt(regs: Dict<Registration>, after: Dict<Registration>, ev: Event, tr: seq<Event>, ttl: real,
      p: string)
    requires AllTraced(regs, tr, ttl) && ev.hit.key in after.vals && p in Owned(regs, ev.hit, ev.at).vals
    requires after.vals[ev.hit.key] == Registration(ev.at + ttl, Owned(regs, ev.hit, ev.at))
    ensures HasChain(after, tr + [ev], ttl, ev.hit.key, p)
  {
    OwnedFrom(regs, ev.hit, ev.at, p);
    var idx := OwnedTraced(regs, ev, tr, ttl, p, Owned(regs, ev.hit, ev.at).vals[p]);
  }

  lemma HitTraced(regs: Dict<Registration>, hit: Hit, now: real, cfg: Config, tr: seq<Event>)
    requires AllTraced(regs, tr, cfg.searchTtl)
    ensures AllTraced(RecordHit(regs, hit, now, cfg), tr + [Event(now, hit)], cfg.searchTtl)
  {
    var after, ttl := RecordHit(regs, hit, now, cfg), cfg.searchTtl;
    forall key, p | key in after.vals && p in after.vals[key].providers.vals
      ensures HasChain(after, tr + [Event(now, hit)], ttl, key, p)
    {
      if key == hit.key {
        HitTracedAt(regs, after, Event(now, hit), tr, ttl, p);
      } else {
        OtherTraced(regs, after, Event(now, hit), tr, ttl, key, p);
      }
    }
  }

  lemma EventsSnoc(tr: seq<Event>, hits: seq<Hit>, now: real)
    requires hits != []
    ensures var n := |hits| - 1;
      tr + Events(hits, now) == (tr + Events(hits[..n], now)) + [Event(now, hits[n])]
  {
  }

  lemma {:induction false} FoldTraced(f: Fold, hits: seq<Hit>, now: real, cfg: Config, tr: seq<Event>)
    requires AllTraced(f.regs, tr, cfg.searchTtl)
    ensures AllTraced(FoldHits(f, hits, now, cfg).regs, tr + Events(hits, now), cfg.searchTtl)
  {
    if hits == [] {
      assert tr + Events(hits, now) == tr;
    } else {
      var n := |hits| - 1;
      FoldTraced(f, hits[..n], now, cfg, tr);
      HitTraced(FoldHits(f, hits[..n], now, cfg).regs, hits[n], now, cfg, tr + Events(hits[..n], now));
      EventsSnoc(tr, hits, now);
    }
  }

  lemma LiveTraced(regs: Dict<Registration>, at: real, tr: seq<Event>, ttl: real)
    requires AllTraced(regs, tr, ttl)
    ensures AllTraced(Live(regs, at), tr, ttl)
  {
    var live := Live(regs, at);
    forall key, p | key in live.vals && p in live.vals[key].providers.vals
      ensures HasChain(live, tr, ttl, key, p)
    {
      assert HasChain(regs, tr, ttl, key, p);
    }
  }

  lemma StepTraced(s: State, op: Op, cfg: Config, tr: seq<Event>)
    requires AllTraced(s.regs, tr, cfg.searchTtl)
    ensures AllTraced(Step(s, op, cfg).regs, tr + Here(op), cfg.searchTtl)
  {
    match op {
      case SearchOp(hits, at) =>
        FoldTraced(Started(s, at), hits, at, cfg, tr);
        if hits == [] { assert tr + Here(op) == tr; }
      case ReplaceOp(_, _, _, at) =>
        LiveTraced(s.regs, at, tr, cfg.searchTtl);
        assert tr + Here(op) == tr;
      case InvalidateOp(_) =>
        assert tr + Here(op) == tr;
    }
  }

  // Provenance over whole runs: every card of a registration was returned by a search for
  // that key, through registrations each live at the next. No snapshot card gets in,
  // however many snapshots are replaced in between.
  lemma {:induction false} RunTraced(s: State, ops: seq<Op>, cfg: Config, from: real, until: real, tr: seq<Event>,
      whole: seq<Event>)
    requires Timely(ops, from, until) && AllTraced(s.regs, tr, cfg.searchTtl) && whole == tr + Trace(ops)
    ensures AllTraced(Run(s, ops, cfg, from, until).regs, whole, cfg.searchTtl)
    decreases |ops|
  {
    if ops == [] {
      assert whole == tr;
    } else {
      StepTraced(s, ops[0], cfg, tr);
      assert whole == tr + Here(ops[0]) + Trace(ops[1..]);
      RunTraced(Step(s, ops[0], cfg), ops[1..], cfg, ops[0].at, until, tr + Here(ops[0]), whole);
    }
  }

  // From a cold start.
  lemma RegistrationsComeFromSearches(ops: seq<Op>, cfg: Config, from: real, until: real, t: State, key: string,
      p: string)
    requires Timely(ops, from, until) && t == Run(EMPTY_STATE, ops, cfg, from, until)
    requires key in t.regs.vals && p in t.regs.vals[key].providers.vals
    ensures exists idx ::
      Chain(Trace(ops), idx, key, p, t.regs.vals[key].providers.vals[p], cfg.searchTtl, t.regs.vals[key].expiresAt)
  {
    RunTraced(EMPTY_STATE, ops, cfg, from, until, [], Trace(ops));
    EntryTraced(t.regs, Trace(ops), cfg.searchTtl, key, p);
  }

  lemma EntryTraced(regs: Dict<Registration>, tr: seq<Event>, ttl: real, key: string, p: string)
    requires AllTraced(regs, tr, ttl) && key in regs.vals && p in regs.vals[key].providers.vals
    ensures exists idx :: Chain(tr, idx, key, p, regs.vals[key].providers.vals[p], ttl, regs.vals[key].expiresAt)
  {
    assert HasChain(regs, tr, ttl, key, p);
  }

  // Right after a replacement: the new snapshot, plus per key the live registration's
  // providers it lacks. A snapshot card wins and comes first, whoever else offers one.
  lemma ReplacementExact(s: State, rows: seq<HomeRow>, sources: SourcesMap, persist: bool, now: real, cfg: Config,
      key: string)
    ensures var t := Apply(s, rows, Some(sources), persist, now, cfg);
      var m := SourcesAt(t, now);
      var snap := if key in sources then sources[key] else Empty();
      var live := key in s.regs.vals && s.regs.vals[key].expiresAt >= now;
      var reg := if live then s.regs.vals[key].providers else Empty();
      && (key in m <==> key in sources || (key in s.regs.vals && s.regs.vals[key].expiresAt >= now))
      && (key in m ==>
            && m[key].keys == snap.keys + Missing(snap, reg.keys)
            && (forall p :: p in m[key].vals <==> p in snap.vals || p in reg.vals)
            && (forall p :: p in m[key].vals ==>
                m[key].vals[p] == if p in snap.vals then snap.vals[p] else reg.vals[p]))
      && (persist ==> t.file == Some((rows, sources)))
  {
    assert Missing(if key in sources then sources[key] else Empty(), []) == [];
  }

  // ---------------------------------------------------------------- the snapshot layer

  // snapshot_entries: the distinct cards behind the index, in index order.
  function SnapshotEntries(index: Dict<IndexEntry>, n: nat): (out: seq<(HomeItem, Option<RowKind>)>)
    requires n <= |index.keys|
  {
    if n == 0 then []
    else
      var out := SnapshotEntries(index, n - 1);
      assert index.keys[n - 1] in index.keys;
      var e := index.vals[index.keys[n - 1]];
      if e.card.None? || Listed(out, e.card.value.groupKey) then out else out + [(e.card.value, e.kind)]
  }

  predicate Listed(out: seq<(HomeItem, Option<RowKind>)>, key: string) {
    exists i :: 0 <= i < |out| && out[i].0.groupKey == key
  }

  // These keys of the index, in order, have the cards listed: each the first card of its group.
  ghost predicate EntriesAt(index: Dict<IndexEntry>, n: nat, out: seq<(HomeItem, Option<RowKind>)>, at: seq<nat>)
    requires n <= |index.keys|
  {
    && |at| == |out| && (forall a, b :: 0 <= a < b < |at| ==> at[a] < at[b])
    && (forall a :: 0 <= a < |at| ==> at[a] < n && HasCard(index, at[a], out[a]) && FirstCard(index, at[a]))
    && (forall i :: 0 <= i < n && IndexedCard(index, i).Some? ==> Listed(out, IndexedCard(index, i).value.groupKey))
  }

  ghost function IndexedCard(index: Dict<IndexEntry>, i: nat): Option<HomeItem>
    requires i < |index.keys|
  {
    assert index.keys[i] in index.keys;
    index.vals[index.keys[i]].card
  }

  ghost predicate HasCard(index: Dict<IndexEntry>, i: nat, entry: (HomeItem, Option<RowKind>))
    requires i < |index.keys|
  {
    && index.keys[i] in index.vals
    && index.vals[index.keys[i]].card == Some(entry.0) && index.vals[index.keys[i]].kind == entry.1
  }

  ghost predicate FirstCard(index: Dict<IndexEntry>, i: nat)
    requires i < |index.keys|
  {
    && IndexedCard(index, i).Some?
    && forall j :: 0 <= j < i && IndexedCard(index, j).Some? ==>
         IndexedCard(index, j).value.groupKey != IndexedCard(index, i).value.groupKey
  }

  lemma {:induction false} SnapshotEntriesAre(index: Dict<IndexEntry>, n: nat) returns (at: seq<nat>)
    requires n <= |index.keys|
    ensures EntriesAt(index, n, SnapshotEntries(index, n), at)
  {
    at := [];
    if n > 0 {
      at := SnapshotEntriesAre(index, n - 1);
      var out, card := SnapshotEntries(index, n - 1), IndexedCard(index, n - 1);
      if card.Some? {
        var entry := (card.value, index.vals[index.keys[n - 1]].kind);
        if Listed(out, card.value.groupKey) {
        } else {
          ListedMore(out, entry);
          at := at + [n - 1];
        }
      }
    }
  }

  lemma ListedMore(out: seq<(HomeItem, Option<RowKind>)>, entry: (HomeItem, Option<RowKind>))
    ensures forall key :: Listed(out + [entry], key) <==> Listed(out, key) || key == entry.0.groupKey
  {
    var more := out + [entry];
    forall key | Listed(out, key) ensures Listed(more, key) {
      var i :| 0 <= i < |out| && out[i].0.groupKey == key;
      assert more[i].0.groupKey == key;
    }
    assert more[|out|] == entry;
  }

  // ---------------------------------------------------------------- what the index holds

  // The first card, row by row and card by card, that claims a key: under its member keys, or
  // under its own where it has none.
  function ClaimantIn(items: seq<HomeItem>, key: string): Option<HomeItem> {
    if items == [] then None
    else if (if items[0].memberKeys == [] then key == items[0].groupKey else key in items[0].memberKeys)
    then Some(items[0])
    else ClaimantIn(items[1..], key)
  }

  function Claimant(rows: seq<HomeRow>, key: string): Option<(HomeItem, RowKind)> {
    if rows == [] then None
    else if ClaimantIn(rows[0].items, key).Some? then Some((ClaimantIn(rows[0].items, key).value, rows[0].kind))
    else Claimant(rows[1..], key)
  }

  lemma {:induction false} ClaimantInSnoc(items: seq<HomeItem>, last: HomeItem, key: string)
    ensures ClaimantIn(items + [last], key) ==
      if ClaimantIn(items, key).Some? then ClaimantIn(items, key)
      else if key in KeysOf(last) then Some(last) else None
  {
    if items == [] {
      assert [] + [last] == [last] && [last][1..] == [];
    } else {
      assert (items + [last])[1..] == items[1..] + [last];
      ClaimantInSnoc(items[1..], last, key);
    }
  }

  lemma {:induction false} ClaimantSnoc(rows: seq<HomeRow>, last: HomeRow, key: string)
    ensures Claimant(rows + [last], key) ==
      if Claimant(rows, key).Some? then Claimant(rows, key)
      else if ClaimantIn(last.items, key).Some? then Some((ClaimantIn(last.items, key).value, last.kind)) else None
  {
    if rows == [] {
      assert [] + [last] == [last] && [last][1..] == [];
    } else {
      assert (rows + [last])[1..] == rows[1..] + [last];
      ClaimantSnoc(rows[1..], last, key);
    }
  }

  ghost function EntryOf(d: Dict<IndexEntry>, key: string): Option<IndexEntry> {
    if key in d.vals then Some(d.vals[key]) else None
  }

  lemma {:induction false} ClaimItemsIs(d: Dict<IndexEntry>, items: seq<HomeItem>, kind: RowKind, key: string)
    ensures EntryOf(ClaimItems(d, items, kind), key) ==
      if key in d.vals then EntryOf(d, key)
      else if ClaimantIn(items, key).Some? then Some(IndexEntry(ClaimantIn(items, key), Some(kind))) else None
  {
    if items != [] {
      var n := |items| - 1;
      assert items == items[..n] + [items[n]];
      ClaimItemsIs(d, items[..n], kind, key);
      ClaimantInSnoc(items[..n], items[n], key);
      ClaimKeysIn(ClaimItems(d, items[..n], kind), KeysOf(items[n]), IndexEntry(Some(items[n]), Some(kind)));
    }
  }

  // The index of a snapshot: under every key the first card that claims it, and its row's kind.
  lemma {:induction false} IndexIs(rows: seq<HomeRow>, key: string)
    ensures EntryOf(EntriesFromRows(rows), key) ==
      if Claimant(rows, key).None? then None
      else Some(IndexEntry(Some(Claimant(rows, key).value.0), Some(Claimant(rows, key).value.1)))
  {
    if rows != [] {
      var n := |rows| - 1;
      assert rows == rows[..n] + [rows[n]];
      IndexIs(rows[..n], key);
      ClaimantSnoc(rows[..n], rows[n], key);
      ClaimItemsIs(EntriesFromRows(rows[..n]), rows[n].items, rows[n].kind, key);
    }
  }

  // A search adds nothing to the snapshot layer and takes nothing from it.
  lemma {:induction false} SearchKeepsEntries(f: Fold, hits: seq<Hit>, now: real, cfg: Config)
    ensures var g := FoldHits(f, hits, now, cfg);
      SnapshotEntries(g.index, |g.index.keys|) == SnapshotEntries(f.index, |f.index.keys|)
  {
    if hits != [] {
      var n := |hits| - 1;
      SearchKeepsEntries(f, hits[..n], now, cfg);
      BareAddsNothing(FoldHits(f, hits[..n], now, cfg).index, hits[n].key);
    }
  }

  lemma BareAddsNothing(index: Dict<IndexEntry>, key: string)
    ensures var after := SetDefault(index, key, BARE);
      SnapshotEntries(after, |after.keys|) == SnapshotEntries(index, |index.keys|)
  {
    if key !in index.vals {
      PrefixEntries(index, SetDefault(index, key, BARE), |index.keys|);
    }
  }

  lemma {:induction false} PrefixEntries(a: Dict<IndexEntry>, b: Dict<IndexEntry>, n: nat)
    requires n <= |a.keys| && a.keys <= b.keys
    requires forall k :: k in a.vals ==> k in b.vals && b.vals[k] == a.vals[k]
    ensures SnapshotEntries(a, n) == SnapshotEntries(b, n)
  {
    if n > 0 {
      PrefixEntries(a, b, n - 1);
      assert a.keys[n - 1] in a.keys;
    }
  }

  // After a replacement the layer is that snapshot's own, whatever is registered.
  lemma ReplacementEntries(s: State, rows: seq<HomeRow>, sources: Option<SourcesMap>, persist: bool, now: real,
      cfg: Config)
    ensures var t := Apply(s, rows, sources, persist, now, cfg);
      var e := EntriesFromRows(rows);
      SnapshotEntries(t.index, |t.index.keys|) == SnapshotEntries(e, |e.keys|)
  {
    ClaimBare(EntriesFromRows(rows), Live(s.regs, now).keys);
  }

  lemma {:induction false} ClaimBare(d: Dict<IndexEntry>, ks: seq<string>)
    ensures var e := ClaimKeys(d, ks, BARE);
      SnapshotEntries(e, |e.keys|) == SnapshotEntries(d, |d.keys|)
  {
    if ks != [] {
      ClaimBare(d, ks[..|ks| - 1]);
      BareAddsNothing(ClaimKeys(d, ks[..|ks| - 1], BARE), ks[|ks| - 1]);
    }
  }

  // The snapshot layer and the file as the replacements alone make them.
  ghost function Layer(ops: seq<Op>, before: seq<(HomeItem, Option<RowKind>)>): seq<(HomeItem, Option<RowKind>)> {
    if ops == [] then before
    else if ops[0].ReplaceOp? then
      var e := EntriesFromRows(ops[0].rows);
      Layer(ops[1..], SnapshotEntries(e, |e.keys|))
    else Layer(ops[1..], before)
  }

  ghost function Persisted(ops: seq<Op>, before: Option<(seq<HomeRow>, SourcesMap)>)
    : Option<(seq<HomeRow>, SourcesMap)>
  {
    if ops == [] then before
    else if ops[0].ReplaceOp? && ops[0].persist && ops[0].sources.Some? then
      Persisted(ops[1..], Some((ops[0].rows, ops[0].sources.value)))
    else Persisted(ops[1..], before)
  }

  // The home rows that are cached, with their deadline, as the replacements and drops make them.
  ghost function Served(ops: seq<Op>, before: Option<(real, seq<HomeRow>)>, cfg: Config): Option<(real, seq<HomeRow>)> {
    if ops == [] then before
    else
      match ops[0]
      case SearchOp(_, _) => Served(ops[1..], before, cfg)
      case ReplaceOp(rows, _, _, at) =>
        Served(ops[1..], Some((at + if cfg.homeTtl > 0.0 then cfg.homeTtl else 0.0, rows)), cfg)
      case InvalidateOp(_) => Served(ops[1..], None, cfg)
  }

  lemma StepLayer(s: State, op: Op, cfg: Config)
    ensures var t := Step(s, op, cfg);
      SnapshotEntries(t.index, |t.index.keys|) == Layer([op], SnapshotEntries(s.index, |s.index.keys|))
  {
    assert [op][1..] == [];
    match op {
      case SearchOp(hits, at) => SearchKeepsEntries(Started(s, at), hits, at, cfg);
      case ReplaceOp(rows, sources, persist, at) => ReplacementEntries(s, rows, sources, persist, at, cfg);
      case InvalidateOp(_) =>
    }
  }

  lemma StepServes(s: State, op: Op, cfg: Config)
    ensures var t := Step(s, op, cfg); t.file == Persisted([op], s.file) && t.home == Served([op], s.home, cfg)
  {
    assert [op][1..] == [];
  }

  lemma FirstOp(ops: seq<Op>, layer: seq<(HomeItem, Option<RowKind>)>, file: Option<(seq<HomeRow>, SourcesMap)>,
      home: Option<(real, seq<HomeRow>)>, cfg: Config)
    requires ops != []
    ensures Layer(ops, layer) == Layer(ops[1..], Layer([ops[0]], layer))
    ensures Persisted(ops, file) == Persisted(ops[1..], Persisted([ops[0]], file))
    ensures Served(ops, home, cfg) == Served(ops[1..], Served([ops[0]], home, cfg), cfg)
  {
    assert [ops[0]][1..] == [];
  }

  // Over every run the layer is the last snapshot's own, the file the last persisted one, and
  // the home rows the last snapshot's until they are dropped: no search, and no registration
  // carried across a replacement, ever shows in any.
  lemma {:induction false} RunLayer(s: State, ops: seq<Op>, cfg: Config, from: real, until: real)
    requires Timely(ops, from, until)
    ensures var t := Run(s, ops, cfg, from, until);
      SnapshotEntries(t.index, |t.index.keys|) == Layer(ops, SnapshotEntries(s.index, |s.index.keys|))
      && t.file == Persisted(ops, s.file) && t.home == Served(ops, s.home, cfg)
    decreases |ops|
  {
    if ops != [] {
      StepLayer(s, ops[0], cfg);
      StepServes(s, ops[0], cfg);
      FirstOp(ops, SnapshotEntries(s.index, |s.index.keys|), s.file, s.home, cfg);
      RunLayer(Step(s, ops[0], cfg), ops[1..], cfg, ops[0].at, until);
    }
  }
}
