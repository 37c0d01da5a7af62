// What ADR-0010 promises of the catalog state over every run.
module CatalogPromises {
  import opened Wrappers
  import opened WireIdentity
  import opened Dicts
  import opened Home
  import opened Snapshot
  import opened HomeRows
  import opened Catalog

  datatype Op =
    | SearchOp(hits: seq<Hit>, at: real)
    | ReplaceOp(rows: seq<HomeRow>, sources: Option<SourcesMap>, persist: bool, at: real)
    | InvalidateOp(at: real)

  ghost function Step(s: State, op: Op, cfg: Config): State {
    match op
    case SearchOp(hits, at) => Search(s, hits, at, cfg)
    case ReplaceOp(rows, sources, persist, at) => Apply(s, rows, sources, persist, at, cfg)
    case InvalidateOp(_) => Invalidate(s)
  }

  // The clock does not go back, and no operation is later than `until`.
  ghost predicate Timely(ops: seq<Op>, from: real, until: real) {
    if ops == [] then from <= until
    else from <= ops[0].at && Timely(ops[1..], ops[0].at, until)
  }

  ghost function Run(s: State, ops: seq<Op>, cfg: Config, from: real, until: real): State
    requires Timely(ops, from, until)
    decreases |ops|
  {
    if ops == [] then s else Run(Step(s, ops[0], cfg), ops[1..], cfg, ops[0].at, until)
  }

  // The map, when it is set, outlives a search made at the same time.
  ghost predicate MapOutlives(cfg: Config) {
    cfg.searchTtl <= HomeLife(cfg)
  }

  // ---------------------------------------------------------------- the key stays known

  // The key is registered until the deadline at least, and indexed.
  ghost predicate Promised(index: Dict<IndexEntry>, regs: Dict<Registration>, key: string, deadline: real) {
    key in regs.vals && regs.vals[key].expiresAt >= deadline && key in index.vals
  }

  lemma HitKeepsPromise(f: Fold, hit: Hit, now: real, cfg: Config, key: string, deadline: real)
    requires deadline <= now + cfg.searchTtl
    requires Promised(f.index, f.regs, key, deadline) || hit.key == key
    ensures var g := FoldHit(f, hit, now, cfg); Promised(g.index, g.regs, key, deadline)
  {}

  lemma {:induction false} FoldKeepsPromise(f: Fold, hits: seq<Hit>, now: real, cfg: Config, key: string,
      deadline: real)
    requires deadline <= now + cfg.searchTtl
    requires Promised(f.index, f.regs, key, deadline) || exists i :: 0 <= i < |hits| && hits[i].key == key
    ensures var g := FoldHits(f, hits, now, cfg); Promised(g.index, g.regs, key, deadline)
  {
    if hits != [] {
      var n := |hits| - 1;
      if hits[n].key != key || Promised(f.index, f.regs, key, deadline) {
        FoldKeepsPromise(f, hits[..n], now, cfg, key, deadline);
      }
      HitKeepsPromise(FoldHits(f, hits[..n], now, cfg), hits[n], now, cfg, key, deadline);
    }
  }

  lemma {:induction false} ClaimKeysIn(d: Dict<IndexEntry>, ks: seq<string>, e: IndexEntry)
    ensures forall k :: k in ClaimKeys(d, ks, e).vals <==> k in d.vals || k in ks
    ensures forall k :: k in d.vals ==> ClaimKeys(d, ks, e).vals[k] == d.vals[k]
    ensures forall k :: k in ks && k !in d.vals ==> ClaimKeys(d, ks, e).vals[k] == e
  {
    if ks != [] {
      ClaimKeysIn(d, ks[..|ks| - 1], e);
    }
  }

  lemma StepKeepsPromise(s: State, op: Op, cfg: Config, key: string, deadline: real)
    requires op.at <= deadline <= op.at + cfg.searchTtl
    requires Promised(s.index, s.regs, key, deadline)
    ensures var t := Step(s, op, cfg); Promised(t.index, t.regs, key, deadline)
  {
    match op {
      case SearchOp(hits, at) =>
        FoldKeepsPromise(Started(s, at), hits, at, cfg, key, deadline);
      case ReplaceOp(rows, sources, persist, at) =>
        ClaimKeysIn(EntriesFromRows(rows), Live(s.regs, at).keys, BARE);
      case InvalidateOp(_) =>
    }
  }

  lemma {:induction false} RunKeepsPromise(s: State, ops: seq<Op>, cfg: Config, from: real, until: real, key: string,
      deadline: real)
    requires Timely(ops, from, until) && until <= deadline <= from + cfg.searchTtl
    requires Promised(s.index, s.regs, key, deadline)
    ensures var t := Run(s, ops, cfg, from, until); Promised(t.index, t.regs, key, deadline)
    decreases |ops|
  {
    if ops != [] {
      TimelyBounds(ops, from, until);
      StepKeepsPromise(s, ops[0], cfg, key, deadline);
      RunKeepsPromise(Step(s, ops[0], cfg), ops[1..], cfg, ops[0].at, until, key, deadline);
    }
  }

  lemma {:induction false} TimelyBounds(ops: seq<Op>, from: real, until: real)
    requires Timely(ops, from, until)
    ensures from <= until && (ops != [] ==> from <= ops[0].at <= until)
  {
    if ops != [] {
      TimelyBounds(ops[1..], ops[0].at, until);
    }
  }

  // A key a search returned at `at` answers at every moment up to at + TTL, whatever
  // searches, snapshot replacements and invalidations happen in between.
  lemma SearchedKeyAnswers(s: State, hits: seq<Hit>, at: real, ops: seq<Op>, now: real, cfg: Config, i: nat)
    requires i < |hits|
    requires Timely(ops, at, now) && now <= at + cfg.searchTtl
    ensures Resolve(Run(Search(s, hits, at, cfg), ops, cfg, at, now), hits[i].key, now).Some?
  {
    var key := hits[i].key;
    FoldKeepsPromise(Started(s, at), hits, at, cfg, key, at + cfg.searchTtl);
    RunKeepsPromise(Search(s, hits, at, cfg), ops, cfg, at, now, key, at + cfg.searchTtl);
  }

  // ---------------------------------------------------------------- what a search adds

  ghost predicate Has(m: SourcesMap, key: string, p: string) {
    key in m && p in m[key].vals
  }

  // What the map answers with for this provider under this key, if anything.
  ghost function CardOf(m: SourcesMap, key: string, p: string): Option<SearchResult> {
    if Has(m, key, p) then Some(m[key].vals[p]) else None
  }

  // The first card the hits show for this provider under this key.
  ghost function Shown(hits: seq<Hit>, key: string, p: string): Option<SearchResult> {
    if hits == [] then None
    else
      var n := |hits| - 1;
      var front := Shown(hits[..n], key, p);
      if front.Some? then front
      else if hits[n].key == key && p in hits[n].union.vals then Some(hits[n].union.vals[p]) else None
  }

  // Under every key: the cards the map had, and for every other provider the first card the hits
  // show, the known ones first in their order.
  ghost predicate Adds(m: SourcesMap, hits: seq<Hit>, after: SourcesMap, key: string, p: string) {
    && CardOf(after, key, p) == (if Has(m, key, p) then CardOf(m, key, p) else Shown(hits, key, p))
    && (key in m ==> key in after && m[key].keys <= after[key].keys)
    && (key in after <==> key in m || exists i :: 0 <= i < |hits| && hits[i].key == key)
  }

  lemma {:induction false} FoldAdds(f: Fold, hits: seq<Hit>, now: real, cfg: Config, key: string, p: string)
    ensures Adds(f.existing, hits, FoldHits(f, hits, now, cfg).existing, key, p)
  {
    if hits != [] {
      var n := |hits| - 1;
      assert hits == hits[..n] + [hits[n]];
      var g := FoldHits(f, hits[..n], now, cfg);
      FoldAdds(f, hits[..n], now, cfg, key, p);
      HitAdds(g, hits[n], now, cfg, key, p);
    }
  }

  lemma HitAdds(f: Fold, hit: Hit, now: real, cfg: Config, key: string, p: string)
    ensures var after := FoldHit(f, hit, now, cfg).existing;
      && CardOf(after, key, p) == (if Has(f.existing, key, p) then CardOf(f.existing, key, p)
           else if hit.key == key && p in hit.union.vals then Some(hit.union.vals[p]) else None)
      && (key in f.existing ==> key in after && f.existing[key].keys <= after[key].keys)
      && (key in after <==> key in f.existing || hit.key == key)
  {}

  ghost function CardIn(d: Dict<SearchResult>, p: string): Option<SearchResult> {
    if p in d.vals then Some(d.vals[p]) else None
  }

  // What a registration that is still live lists for this provider.
  ghost function StillListed(regs: Dict<Registration>, now: real, key: string, p: string): Option<SearchResult> {
    if key in regs.vals && regs.vals[key].expiresAt >= now then CardIn(regs.vals[key].providers, p) else None
  }

  // A key the hits do not have keeps its registration. One they have is registered for the TTL,
  // with the cards of a registration that is still live, and for every other provider the first
  // card the hits show.
  ghost predicate Registers(regs: Dict<Registration>, hits: seq<Hit>, now: real, cfg: Config,
      after: Dict<Registration>, key: string, p: string) {
    if forall i :: 0 <= i < |hits| ==> hits[i].key != key then
      && (key in after.vals <==> key in regs.vals)
      && (key in after.vals && key in regs.vals ==> after.vals[key] == regs.vals[key])
    else
      && key in after.vals && after.vals[key].expiresAt == now + cfg.searchTtl
      && CardIn(after.vals[key].providers, p) ==
           (if StillListed(regs, now, key, p).Some? then StillListed(regs, now, key, p) else Shown(hits, key, p))
  }

  lemma {:induction false} SearchRegisters(f: Fold, hits: seq<Hit>, now: real, cfg: Config, key: string, p: string)
    requires cfg.searchTtl >= 0.0
    ensures Registers(f.regs, hits, now, cfg, FoldHits(f, hits, now, cfg).regs, key, p)
  {
    if hits != [] {
      var n := |hits| - 1;
      assert hits == hits[..n] + [hits[n]];
      var g := FoldHits(f, hits[..n], now, cfg);
      SearchRegisters(f, hits[..n], now, cfg, key, p);
      HitRegisters(g.regs, hits[n], now, cfg, key, p);
      RegistersSnoc(f.regs, hits[..n], g.regs, hits[n], hits, now, cfg, key, p);
    }
  }

  lemma HitRegisters(regs: Dict<Registration>, hit: Hit, now: real, cfg: Config, key: string, p: string)
    ensures var after := RecordHit(regs, hit, now, cfg);
      if hit.key != key then
        && (key in after.vals <==> key in regs.vals)
        && (key in after.vals && key in regs.vals ==> after.vals[key] == regs.vals[key])
      else
        && key in after.vals && after.vals[key].expiresAt == now + cfg.searchTtl
        && CardIn(after.vals[key].providers, p) ==
             if StillListed(regs, now, key, p).Some? then StillListed(regs, now, key, p) else CardIn(hit.union, p)
  {}

  lemma RegistersSnoc(regs: Dict<Registration>, hits: seq<Hit>, mid: Dict<Registration>, last: Hit, all: seq<Hit>,
      now: real, cfg: Config, key: string, p: string)
    requires cfg.searchTtl >= 0.0 && all == hits + [last] && Registers(regs, hits, now, cfg, mid, key, p)
    ensures Registers(regs, all, now, cfg, RecordHit(mid, last, now, cfg), key, p)
  {
    HitRegisters(mid, last, now, cfg, key, p);
    assert all[..|all| - 1] == hits && all[|hits|] == last;
    assert forall i :: 0 <= i < |hits| ==> all[i] == hits[i];
    if forall i :: 0 <= i < |hits| ==> hits[i].key != key {
      NoneShown(hits, key, p);
    }
  }

  lemma {:induction false} NoneShown(hits: seq<Hit>, key: string, p: string)
    requires forall i :: 0 <= i < |hits| ==> hits[i].key != key
    ensures Shown(hits, key, p) == None
  {
    if hits != [] {
      NoneShown(hits[..|hits| - 1], key, p);
    }
  }

  // The map right after a search, and the registrations: what they held, and what it adds.
  lemma SearchAdds(s: State, hits: seq<Hit>, at: real, cfg: Config, key: string, p: string)
    ensures Adds(SourcesAt(s, at), hits, SourcesAt(Search(s, hits, at, cfg), at), key, p)
    ensures cfg.searchTtl >= 0.0 ==> Registers(s.regs, hits, at, cfg, Search(s, hits, at, cfg).regs, key, p)
  {
    if cfg.searchTtl >= 0.0 {
      SearchRegisters(Started(s, at), hits, at, cfg, key, p);
    }
    FoldAdds(Started(s, at), hits, at, cfg, key, p);
    FoldUnchanged(Started(s, at), hits, at, cfg);
  }

  // ---------------------------------------------------------------- and keeps its sources

  ghost predicate Holds(sources: SourcesMap, regs: Dict<Registration>, key: string, p: string) {
    && key in sources && p in sources[key].vals
    && key in regs.vals && p in regs.vals[key].providers.vals
  }

  ghost predicate HoldsNow(f: Fold, key: string, p: string, now: real) {
    Holds(f.existing, f.regs, key, p) && f.regs.vals[key].expiresAt >= now
  }

  lemma HitKeepsSource(f: Fold, hit: Hit, now: real, cfg: Config, key: string, p: string)
    requires cfg.searchTtl >= 0.0
    requires HoldsNow(f, key, p, now) || (hit.key == key && p in hit.union.vals)
    ensures HoldsNow(FoldHit(f, hit, now, cfg), key, p, now)
  {
  }

  lemma {:induction false} FoldKeepsSource(f: Fold, hits: seq<Hit>, now: real, cfg: Config, key: string, p: string)
    requires cfg.searchTtl >= 0.0
    requires HoldsNow(f, key, p, now) || exists i :: 0 <= i < |hits| && hits[i].key == key && p in hits[i].union.vals
    ensures HoldsNow(FoldHits(f, hits, now, cfg), key, p, now)
  {
    if hits != [] {
      var n := |hits| - 1;
      if !(hits[n].key == key && p in hits[n].union.vals) {
        FoldKeepsSource(f, hits[..n], now, cfg, key, p);
      }
      HitKeepsSource(FoldHits(f, hits[..n], now, cfg), hits[n], now, cfg, key, p);
    }
  }

  // The map outlives the deadline and answers the key with this provider.
  ghost predicate Supplied(s: State, key: string, p: string, deadline: real) {
    && s.slot.Some? && s.slot.value.expiresAt >= deadline
    && Holds(s.slot.value.sources, s.regs, key, p)
    && s.regs.vals[key].expiresAt >= deadline
  }

  lemma StepKeepsSource(s: State, op: Op, cfg: Config, key: string, p: string, deadline: real)
    requires MapOutlives(cfg) && op.at <= deadline <= op.at + cfg.searchTtl
    requires Supplied(s, key, p, deadline) && key in s.index.vals
    ensures Supplied(Step(s, op, cfg), key, p, deadline)
  {
    match op {
      case SearchOp(hits, at) =>
        FoldKeepsSource(Started(s, at), hits, at, cfg, key, p);
        FoldKeepsPromise(Started(s, at), hits, at, cfg, key, deadline);
        FoldUnchanged(Started(s, at), hits, at, cfg);
      case ReplaceOp(rows, sources, persist, at) =>
      case InvalidateOp(_) =>
    }
  }

  // A fold that reports no change has left the map alone.
  lemma {:induction false} FoldUnchanged(f: Fold, hits: seq<Hit>, now: real, cfg: Config)
    ensures var g := FoldHits(f, hits, now, cfg);
      !g.changed ==> !f.changed && g.existing == f.existing && g.index == f.index
  {
    if hits != [] {
      FoldUnchanged(f, hits[..|hits| - 1], now, cfg);
    }
  }

  lemma {:induction false} RunKeepsSource(s: State, ops: seq<Op>, cfg: Config, from: real, until: real,
      key: string, p: string, deadline: real)
    requires Timely(ops, from, until) && MapOutlives(cfg) && until <= deadline <= from + cfg.searchTtl
    requires Supplied(s, key, p, deadline) && Promised(s.index, s.regs, key, deadline)
    ensures Supplied(Run(s, ops, cfg, from, until), key, p, deadline)
    decreases |ops|
  {
    if ops != [] {
      TimelyBounds(ops, from, until);
      StepKeepsSource(s, ops[0], cfg, key, p, deadline);
      StepKeepsPromise(s, ops[0], cfg, key, deadline);
      RunKeepsSource(Step(s, ops[0], cfg), ops[1..], cfg, ops[0].at, until, key, p, deadline);
    }
  }

  // ---------------------------------------------------------------- cards stand under their providers

  ghost predicate UnderProviders(d: Dict<SearchResult>) {
    forall p :: p in d.vals ==> d.vals[p].provider == p
  }

  ghost predicate MapUnder(m: SourcesMap) {
    forall key :: key in m ==> UnderProviders(m[key])
  }

  ghost predicate RegsUnder(regs: Dict<Registration>) {
    forall key :: key in regs.vals ==> UnderProviders(regs.vals[key].providers)
  }

  ghost predicate HitsUnder(hits: seq<Hit>) {
    forall i :: 0 <= i < |hits| ==> UnderProviders(hits[i].union)
  }

  ghost predicate OpUnder(op: Op) {
    match op
    case SearchOp(hits, _) => HitsUnder(hits)
    case ReplaceOp(_, sources, _, _) => sources.Some? ==> MapUnder(sources.value)
    case InvalidateOp(_) => true
  }

  ghost predicate OpsUnder(ops: seq<Op>) {
    forall i :: 0 <= i < |ops| ==> OpUnder(ops[i])
  }

  // Every card of the map and of the registrations stands under its own provider.
  ghost predicate StateUnder(s: State) {
    (s.slot.Some? ==> MapUnder(s.slot.value.sources)) && RegsUnder(s.regs)
  }

  lemma HitKeepsUnder(f: Fold, hit: Hit, now: real, cfg: Config)
    requires MapUnder(f.existing) && RegsUnder(f.regs) && UnderProviders(hit.union)
    ensures var g := FoldHit(f, hit, now, cfg); MapUnder(g.existing) && RegsUnder(g.regs)
  {
    assert UnderProviders(Owned(f.regs, hit, now));
  }

  lemma {:induction false} FoldKeepsUnder(f: Fold, hits: seq<Hit>, now: real, cfg: Config)
    requires MapUnder(f.existing) && RegsUnder(f.regs) && HitsUnder(hits)
    ensures var g := FoldHits(f, hits, now, cfg); MapUnder(g.existing) && RegsUnder(g.regs)
  {
    if hits != [] {
      var n := |hits| - 1;
      FoldKeepsUnder(f, hits[..n], now, cfg);
      HitKeepsUnder(FoldHits(f, hits[..n], now, cfg), hits[n], now, cfg);
    }
  }

  lemma ApplyKeepsUnder(sources: SourcesMap, live: Dict<Registration>)
    requires MapUnder(sources) && RegsUnder(live)
    ensures MapUnder(Carried(sources, live))
  {
    forall key | key in Carried(sources, live) ensures UnderProviders(CarriedAt(sources, live, key)) {}
  }

  lemma StepKeepsUnder(s: State, op: Op, cfg: Config)
    requires StateUnder(s) && OpUnder(op)
    ensures StateUnder(Step(s, op, cfg))
  {
    match op {
      case SearchOp(hits, at) =>
        FoldKeepsUnder(Started(s, at), hits, at, cfg);
      case ReplaceOp(rows, sources, persist, at) =>
        if sources.Some? {
          ApplyKeepsUnder(sources.value, Live(s.regs, at));
        }
      case InvalidateOp(_) =>
    }
  }

  // Over every run of searches and snapshots that keep to it, so does the state.
  lemma {:induction false} RunKeepsUnder(s: State, ops: seq<Op>, cfg: Config, from: real, until: real)
    requires StateUnder(s) && OpsUnder(ops) && Timely(ops, from, until)
    ensures StateUnder(Run(s, ops, cfg, from, until))
    decreases |ops|
  {
    if ops != [] {
      StepKeepsUnder(s, ops[0], cfg);
      RunKeepsUnder(Step(s, ops[0], cfg), ops[1..], cfg, ops[0].at, until);
    }
  }

  // The maps that listings give keep to it.
  lemma SourcesMapUnder(r: Rules, all: seq<SearchResult>, out: SourcesMap)
    requires SourcesMapFor(r, all, out)
    ensures MapUnder(out)
  {
    forall key | key in out ensures UnderProviders(out[key]) {
      var k := AnsweringGroup(r, all, out, key);
    }
  }

  // ---------------------------------------------------------------- the sources of the answer

  // A card of the provider is among the answer's sources at `now`.
  ghost predicate AnswersWith(s: State, key: string, p: string, now: real) {
    var answer := Resolve(s, key, now);
    answer.Some? && exists card :: card in answer.value.sources && card.provider == p
  }

  lemma ListedAnswers(s: State, key: string, p: string, now: real)
    requires StateUnder(s) && Held(s, key, now) && p in s.slot.value.sources[key].vals
    ensures AnswersWith(s, key, p, now)
  {
    AnswerIs(s, key, now);
    var d := s.slot.value.sources[key];
    var answer := Resolve(s, key, now).value;
    assert p in d.keys;
    var i :| 0 <= i < |d.keys| && d.keys[i] == p;
    assert answer.sources[i] == d.vals[p];
    assert answer.sources[i] in answer.sources;
  }

  lemma ExpiredAnswersNone(s: State, key: string, p: string, now: real)
    requires !Held(s, key, now)
    ensures !AnswersWith(s, key, p, now)
  {
    AnswerIs(s, key, now);
  }

  // Every continuation keeps the searched provider actionable until the search TTL ends.
  ghost predicate Actionable(s: State, at: real, cfg: Config, key: string, p: string)
  {
    forall ops, now :: OpsUnder(ops) && Timely(ops, at, now) && now <= at + cfg.searchTtl ==>
      AnswersWith(Run(s, ops, cfg, at, now), key, p, now)
  }

  // The search finds a key the map or the index lacks, or a provider the map lacks for it.
  ghost predicate Introduces(sources: SourcesMap, index: Dict<IndexEntry>, hit: Hit) {
    || hit.key !in sources || hit.key !in index.vals
    || exists p :: p in hit.union.vals && p !in sources[hit.key].vals
  }

  ghost predicate AnyNew(sources: SourcesMap, index: Dict<IndexEntry>, hits: seq<Hit>) {
    exists i :: 0 <= i < |hits| && Introduces(sources, index, hits[i])
  }

  ghost predicate FindsNew(s: State, hits: seq<Hit>, at: real) {
    AnyNew(SourcesAt(s, at), s.index, hits)
  }

  lemma AnyNewSnoc(sources: SourcesMap, index: Dict<IndexEntry>, hits: seq<Hit>, hit: Hit)
    ensures AnyNew(sources, index, hits + [hit]) <==> AnyNew(sources, index, hits) || Introduces(sources, index, hit)
  {
    var all := hits + [hit];
    if AnyNew(sources, index, hits) {
      var i :| 0 <= i < |hits| && Introduces(sources, index, hits[i]);
      assert all[i] == hits[i];
    }
    assert all[|hits|] == hit;
  }

  lemma UnionSameIff<V>(d: Dict<V>, e: Dict<V>)
    ensures Union(d, e) == d <==> forall p :: p in e.vals ==> p in d.vals
  {
    var f := Union(d, e);
    if forall p :: p in e.vals ==> p in d.vals {
      NoneMissing(d, e.keys);
      assert f.vals == d.vals;
    }
  }

  lemma {:induction false} NoneMissing<V>(d: Dict<V>, ks: seq<string>)
    requires forall k :: k in ks ==> k in d.vals
    ensures Missing(d, ks) == []
  {
    if ks != [] {
      NoneMissing(d, ks[..|ks| - 1]);
    }
  }

  lemma HitChangesIff(f: Fold, hit: Hit, now: real, cfg: Config)
    ensures FoldHit(f, hit, now, cfg).changed <==> f.changed || Introduces(f.existing, f.index, hit)
  {
    if hit.key in f.existing {
      UnionSameIff(f.existing[hit.key], hit.union);
    }
  }

  lemma {:induction false} FoldChangesIff(f: Fold, hits: seq<Hit>, now: real, cfg: Config)
    ensures FoldHits(f, hits, now, cfg).changed <==> f.changed || AnyNew(f.existing, f.index, hits)
  {
    if hits != [] {
      var n := |hits| - 1;
      FoldChangesIff(f, hits[..n], now, cfg);
      FoldUnchanged(f, hits[..n], now, cfg);
      HitChangesIff(FoldHits(f, hits[..n], now, cfg), hits[n], now, cfg);
      AnyNewSnoc(f.existing, f.index, hits[..n], hits[n]);
      assert hits == hits[..n] + [hits[n]];
    }
  }

  // A search that finds something new renews the map; one that finds nothing new leaves the
  // map's deadline, and the index, as they are.
  lemma MapDeadlineAfter(s: State, hits: seq<Hit>, at: real, cfg: Config)
    requires hits != []
    ensures var t := Search(s, hits, at, cfg);
      && t.slot.Some?
      && (if FindsNew(s, hits, at) then t.slot.value.expiresAt == at + HomeLife(cfg)
          else t.slot == s.slot && t.index == s.index && s.slot.value.expiresAt >= at)
  {
    FoldChangesIff(Started(s, at), hits, at, cfg);
    FoldUnchanged(Started(s, at), hits, at, cfg);
    if !FindsNew(s, hits, at) {
      assert !Introduces(SourcesAt(s, at), s.index, hits[0]);
    }
  }

  // For every configuration and state: the searched provider stays among the key's sources
  // until the search TTL ends, whatever happens meanwhile, exactly if that TTL is void (it is
  // negative), or the map's is at least as long and either the search finds something new or
  // the map already outlives the TTL.
  lemma ActionableIff(s: State, hits: seq<Hit>, at: real, cfg: Config, i: nat, p: string)
    requires i < |hits| && p in hits[i].union.vals && StateUnder(s) && HitsUnder(hits)
    ensures Actionable(Search(s, hits, at, cfg), at, cfg, hits[i].key, p) <==>
      || cfg.searchTtl < 0.0
      || (MapOutlives(cfg) && (FindsNew(s, hits, at) || (s.slot.Some? && s.slot.value.expiresAt >= at + cfg.searchTtl)))
  {
    var t := Search(s, hits, at, cfg);
    MapDeadlineAfter(s, hits, at, cfg);
    if cfg.searchTtl < 0.0 {
      NeverLate(t, at, cfg, hits[i].key, p);
    } else if !MapOutlives(cfg) {
      ReplacedTooSoon(t, at, cfg, hits[i].key, p);
    } else {
      ActionableByDeadline(s, hits, at, cfg, i, p);
    }
  }

  lemma NeverLate(t: State, at: real, cfg: Config, key: string, p: string)
    requires cfg.searchTtl < 0.0
    ensures Actionable(t, at, cfg, key, p)
  {
    forall ops, now | Timely(ops, at, now) ensures at <= now {
      TimelyBounds(ops, at, now);
    }
  }

  // A snapshot replaced right after the search sets a map that ends too soon.
  lemma ReplacedTooSoon(t: State, at: real, cfg: Config, key: string, p: string)
    requires 0.0 <= cfg.searchTtl && !MapOutlives(cfg)
    ensures !Actionable(t, at, cfg, key, p)
  {
    var ops, now := [ReplaceOp([], Some(map[]), false, at)], at + cfg.searchTtl;
    assert Timely(ops[1..], at, now);
    assert Timely(ops, at, now);
    var u := Step(t, ops[0], cfg);
    assert u.slot.Some? && u.slot.value.expiresAt < now;
    assert Run(t, ops, cfg, at, now) == Run(u, ops[1..], cfg, at, now) == u;
    assert OpsUnder(ops);
    ExpiredAnswersNone(u, key, p, now);
  }

  // With a map that outlives searches, its deadline after the search decides.
  lemma ActionableByDeadline(s: State, hits: seq<Hit>, at: real, cfg: Config, i: nat, p: string)
    requires MapOutlives(cfg) && cfg.searchTtl >= 0.0
    requires StateUnder(s) && HitsUnder(hits)
    requires i < |hits| && p in hits[i].union.vals && Search(s, hits, at, cfg).slot.Some?
    ensures var t := Search(s, hits, at, cfg);
      Actionable(t, at, cfg, hits[i].key, p) <==> t.slot.value.expiresAt >= at + cfg.searchTtl
  {
    var key := hits[i].key;
    var t := Search(s, hits, at, cfg);
    var f := Started(s, at);
    FoldKeepsPromise(f, hits, at, cfg, key, at + cfg.searchTtl);
    FoldKeepsSource(f, hits, at, cfg, key, p);
    FoldUnchanged(f, hits, at, cfg);
    if t.slot.value.expiresAt >= at + cfg.searchTtl {
      StepKeepsUnder(s, SearchOp(hits, at), cfg);
      forall ops, now | OpsUnder(ops) && Timely(ops, at, now) && now <= at + cfg.searchTtl
        ensures AnswersWith(Run(t, ops, cfg, at, now), key, p, now)
      {
        TimelyBounds(ops, at, now);
        RunKeepsSource(t, ops, cfg, at, now, key, p, at + cfg.searchTtl);
        RunKeepsUnder(t, ops, cfg, at, now);
        ListedAnswers(Run(t, ops, cfg, at, now), key, p, now);
      }
    } else {
      assert Timely([], at, at + cfg.searchTtl);
      assert Run(t, [], cfg, at, at + cfg.searchTtl) == t;
      ExpiredAnswersNone(t, key, p, at + cfg.searchTtl);
    }
  }

  // The gap, concretely: one search, repeated as the map ages (search TTL 10, map TTL 30).
  const GAP_CONFIG := Config(10.0, 30.0)
  const EMPTY_STATE := State(Empty(), Empty(), None, None, None)

  function GapHit(card: SearchResult): Hit {
    Hit("g2:k", Entries(["p"], map["p" := card.(provider := "p")]))
  }

  lemma OneHit(s: State, hit: Hit, at: real, cfg: Config)
    ensures FoldHits(Started(s, at), [hit], at, cfg) == FoldHit(Started(s, at), hit, at, cfg)
  {
    assert [hit][..0] == [];
  }

  lemma FirstSearch(card: SearchResult) returns (s: State)
    ensures s == Search(EMPTY_STATE, [GapHit(card)], 0.0, GAP_CONFIG)
    ensures s.slot == Some(Slot(30.0, map["g2:k" := GapHit(card).union]))
    ensures s.index == Entries(["g2:k"], map["g2:k" := BARE])
  {
    OneHit(EMPTY_STATE, GapHit(card), 0.0, GAP_CONFIG);
    s := Search(EMPTY_STATE, [GapHit(card)], 0.0, GAP_CONFIG);
  }

  // The second search, at 27, promises until 37; the map it does not set again ends at 30.
  lemma SecondSearch(s: State, hit: Hit, p: string)
    requires |hit.union.keys| == 1 && p in hit.union.vals && StateUnder(s) && UnderProviders(hit.union)
    requires s.slot == Some(Slot(30.0, map[hit.key := hit.union])) && hit.key in s.index.vals
    ensures !Actionable(Search(s, [hit], 27.0, GAP_CONFIG), 27.0, GAP_CONFIG, hit.key, p)
  {
    assert !FindsNew(s, [hit], 27.0);
    ActionableIff(s, [hit], 27.0, GAP_CONFIG, 0, p);
  }

  lemma GapUnder(card: SearchResult)
    ensures UnderProviders(GapHit(card).union)
    ensures StateUnder(Search(EMPTY_STATE, [GapHit(card)], 0.0, GAP_CONFIG))
  {
    StepKeepsUnder(EMPTY_STATE, SearchOp([GapHit(card)], 0.0), GAP_CONFIG);
  }

  lemma RepeatedSearchGap(card: SearchResult) returns (s: State)
    ensures s == Search(EMPTY_STATE, [GapHit(card)], 0.0, GAP_CONFIG)
    ensures !Actionable(Search(s, [GapHit(card)], 27.0, GAP_CONFIG), 27.0, GAP_CONFIG, GapHit(card).key, "p")
  {
    s := FirstSearch(card);
    var hit := GapHit(card);
    GapUnder(card);
    SecondSearch(s, hit, "p");
  }
}
