// home.py build_home_rows: the rows of the home page.
module HomeRows {
  import opened Seqs
  import opened Wrappers
  import opened WireIdentity
  import opened Merge
  import opened MergeKeys
  import opened RoundRobin
  import opened Dicts
  import opened Home
  import opened Snapshot
  import Lex

  datatype HomeRow = HomeRow(kind: RowKind, items: seq<HomeItem>)

  function Filter(its: seq<SearchResult>, keep: SearchResult -> bool): (out: seq<SearchResult>)
    ensures forall it :: it in out <==> it in its && keep(it)
  {
    if its == [] then []
    else
      assert forall it :: it in its <==> it == its[0] || it in its[1..];
      (if keep(its[0]) then [its[0]] else []) + Filter(its[1..], keep)
  }

  function FilterAll(lists: Listings, keep: SearchResult -> bool): Listings {
    seq(|lists|, p requires 0 <= p < |lists| => Filter(lists[p], keep))
  }

  function Lookup(bt: seq<(RowKind, Listings)>, kind: RowKind): Listings {
    if bt == [] then [] else if bt[0].0 == kind then bt[0].1 else Lookup(bt[1..], kind)
  }

  function OfForm(form: Form): SearchResult -> bool {
    (it: SearchResult) => it.form == form
  }

  // The form filter of the row-kind table.
  function OfRow(kind: RowKind): SearchResult -> bool {
    match kind
    case TypeMovie => OfForm(Movie)
    case TypeSeries => OfForm(Series)
    case _ => (it: SearchResult) => true
  }

  function OfWatched(r: Rules, watched: set<string>): SearchResult -> bool {
    (it: SearchResult) => it.form == Series && ItemGroupKey(r, it) in watched
  }

  predicate AnyListing(lists: Listings) {
    exists p :: 0 <= p < |lists| && lists[p] != []
  }

  // ---------------------------------------------------------------- reference meaning

  // Extra cards with fresh keys, until the row is full.
  function TopUp(base: seq<HomeItem>, extra: seq<HomeItem>, limit: int): seq<HomeItem>
    decreases |extra|
  {
    if extra == [] || |base| >= limit then base
    else if extra[0].groupKey in Keys(base) then TopUp(base, extra[1..], limit)
    else TopUp(base + [extra[0]], extra[1..], limit)
  }

  ghost function RecentItems(r: Rules, c: Collection, form: Form, section: RowKind, limit: int): seq<HomeItem> {
    TopUp(
      RowItems(r, FilterAll(c.newest, OfForm(form)), limit),
      RowItems(r, FilterAll(Lookup(c.byType, section), OfRow(section)), limit),
      limit)
  }

  ghost function WatchedItems(r: Rules, c: Collection, watched: set<string>, limit: int): seq<HomeItem> {
    RowItems(r, FilterAll(c.newest, OfWatched(r, watched)), limit)
  }

  // The first card, in walk order, that carries this stateless key.
  function FirstWith(r: Rules, its: seq<SearchResult>, key: string): Option<SearchResult> {
    if its == [] then None
    else if ItemGroupKey(r, its[0]) == key then Some(its[0])
    else FirstWith(r, its[1..], key)
  }

  function SoloItem(r: Rules, it: SearchResult): HomeItem {
    HomeItem(ItemGroupKey(r, it), it.title, it.year, it.form, [it.provider], [ItemGroupKey(r, it)])
  }

  function HistoryItems(r: Rules, known: seq<SearchResult>, history: seq<string>): seq<HomeItem> {
    if history == [] then []
    else
      var it := FirstWith(r, known, history[|history| - 1]);
      HistoryItems(r, known, history[..|history| - 1]) + if it.Some? then [SoloItem(r, it.value)] else []
  }

  // Python's `xs[:n]`.
  function Slice<T>(xs: seq<T>, n: int): seq<T> {
    if n >= 0 then xs[..if n < |xs| then n else |xs|]
    else xs[..if |xs| + n > 0 then |xs| + n else 0]
  }

  // The first n, or all of fewer; a negative n drops that many from the end.
  lemma SliceIs<T>(xs: seq<T>, n: int)
    ensures Slice(xs, n) <= xs
    ensures n >= 0 ==> |Slice(xs, n)| == Least(n, |xs|)
    ensures n < 0 ==> |Slice(xs, n)| == Max0(|xs| + n)
  {}

  ghost function TypeItems(r: Rules, c: Collection, kind: RowKind, limit: int): seq<HomeItem> {
    RowItems(r, FilterAll(Lookup(c.byType, kind), OfRow(kind)), limit)
  }

  function Row(kind: RowKind, items: seq<HomeItem>): seq<HomeRow> {
    if items == [] then [] else [HomeRow(kind, Aggregated(items))]
  }

  ghost function HomeSegment(r: Rules, c: Collection, limit: int, watched: Option<set<string>>,
      history: Option<seq<string>>, kind: RowKind): seq<HomeRow> {
    match kind
    case RecentMovie => Row(kind, RecentItems(r, c, Movie, TypeMovie, limit))
    case RecentSeries => Row(kind, RecentItems(r, c, Series, TypeSeries, limit))
    case NewEpisodes => if watched.None? then [] else Row(kind, WatchedItems(r, c, watched.value, limit))
    case RecentlyWatched =>
      if history.None? then []
      else Row(kind, Slice(HistoryItems(r, Concat(c.newest) + Concat(ByType(c.byType)), history.value), limit))
    case Popular => if AnyListing(c.popular) then [HomeRow(kind, Aggregated(RowItems(r, c.popular, limit)))] else []
    case _ => Row(kind, TypeItems(r, c, kind, limit))
  }

  // The row-kind table's order, the retired and idea kinds left out.
  const KINDS: seq<RowKind> := [RecentMovie, RecentSeries, NewEpisodes, RecentlyWatched, Popular,
                                TypeMovie, TypeSeries, Anime, Cartoon, Dorama]

  ghost function HomeRowsUpto(r: Rules, c: Collection, limit: int, watched: Option<set<string>>,
      history: Option<seq<string>>, n: nat): seq<HomeRow>
    requires n <= |KINDS|
  {
    if n == 0 then []
    else HomeRowsUpto(r, c, limit, watched, history, n - 1)
         + HomeSegment(r, c, limit, watched, history, KINDS[n - 1])
  }

  function Visible(rows: seq<HomeRow>, excluded: set<RowKind>): seq<HomeRow> {
    if rows == [] then []
    else (if rows[0].kind in excluded then [] else [rows[0]]) + Visible(rows[1..], excluded)
  }

  // ---------------------------------------------------------------- the code

  method TopUpRow(base: seq<HomeItem>, topup: seq<HomeItem>, limit: int) returns (items: seq<HomeItem>)
    requires |base| < limit
    ensures items == TopUp(base, topup, limit)
  {
    items := base;
    var existing := Lex.Elements(Keys(base));
    for i := 0 to |topup|
      invariant |items| < limit && existing == Lex.Elements(Keys(items))
      invariant TopUp(base, topup, limit) == TopUp(items, topup[i..], limit)
    {
      var it := topup[i];
      assert topup[i..][1..] == topup[i + 1..];
      KeysSnoc(items, it);
      if it.groupKey !in existing {
        items := items + [it];
        existing := existing + {it.groupKey};
        if |items| >= limit {
          return;
        }
      }
    }
  }

  method RecentRow(r: Rules, c: Collection, form: Form, section: RowKind, limit: int) returns (items: seq<HomeItem>)
    ensures items == RecentItems(r, c, form, section, limit)
  {
    items := RoundRobinDedup(r, FilterAll(c.newest, OfForm(form)), limit);
    if |items| < limit {
      var perPid := FilterAll(Lookup(c.byType, section), OfRow(section));
      var topup := RoundRobinDedup(r, perPid, limit);
      items := TopUpRow(items, topup, limit);
    }
  }

  lemma {:induction false} FirstWithSnoc(r: Rules, its: seq<SearchResult>, it: SearchResult, key: string)
    ensures FirstWith(r, its + [it], key) ==
      if FirstWith(r, its, key).Some? then FirstWith(r, its, key)
      else if ItemGroupKey(r, it) == key then Some(it) else None
  {
    if its != [] {
      assert (its + [it])[1..] == its[1..] + [it];
      FirstWithSnoc(r, its[1..], it, key);
    }
  }

  ghost predicate KnownFirst(r: Rules, its: seq<SearchResult>, known: map<string, SearchResult>) {
    forall key :: FirstWith(r, its, key) == if key in known then Some(known[key]) else None
  }

  lemma KnownStep(r: Rules, its: seq<SearchResult>, it: SearchResult, known: map<string, SearchResult>)
    requires KnownFirst(r, its, known)
    ensures KnownFirst(r, its + [it],
      if ItemGroupKey(r, it) in known then known else known[ItemGroupKey(r, it) := it])
  {
    var after := if ItemGroupKey(r, it) in known then known else known[ItemGroupKey(r, it) := it];
    forall key ensures FirstWith(r, its + [it], key) == if key in after then Some(after[key]) else None {
      FirstWithSnoc(r, its, it, key);
      assert FirstWith(r, its, key) == if key in known then Some(known[key]) else None;
    }
  }

  method KnownCards(r: Rules, its: seq<SearchResult>) returns (known: map<string, SearchResult>)
    ensures KnownFirst(r, its, known)
  {
    known := map[];
    for i := 0 to |its|
      invariant KnownFirst(r, its[..i], known)
    {
      assert its[..i + 1] == its[..i] + [its[i]];
      KnownStep(r, its[..i], its[i], known);
      var key := ItemGroupKey(r, its[i]);
      if key !in known {
        known := known[key := its[i]];
      }
    }
    assert its[..|its|] == its;
  }

  method HistoryRow(r: Rules, its: seq<SearchResult>, history: seq<string>, limit: int) returns (items: seq<HomeItem>)
    ensures items == Slice(HistoryItems(r, its, history), limit)
  {
    var known := KnownCards(r, its);
    var picked: seq<HomeItem> := [];
    for i := 0 to |history|
      invariant picked == HistoryItems(r, its, history[..i])
    {
      assert history[..i + 1][..i] == history[..i];
      assert FirstWith(r, its, history[i]) == if history[i] in known then Some(known[history[i]]) else None;
      if history[i] in known {
        picked := picked + [SoloItem(r, known[history[i]])];
      }
    }
    assert history[..|history|] == history;
    items := Slice(picked, limit);
  }

  method BuildHomeRows(r: Rules, c: Collection, limit: int, watched: Option<set<string>>,
      history: Option<seq<string>>, excluded: set<RowKind>)
    returns (rows: seq<HomeRow>)
    ensures rows == Visible(HomeRowsUpto(r, c, limit, watched, history, |KINDS|), excluded)
  {
    rows := [];
    for n := 0 to |KINDS|
      invariant rows == HomeRowsUpto(r, c, limit, watched, history, n)
    {
      var segment := BuildSegment(r, c, limit, watched, history, KINDS[n]);
      rows := rows + segment;
    }
    rows := Visible(rows, excluded);
  }

  method AggregatedRow(kind: RowKind, items: seq<HomeItem>) returns (rows: seq<HomeRow>)
    ensures rows == Row(kind, items)
  {
    rows := [];
    if items != [] {
      var folded := AggregateByGroupKey(items);
      rows := [HomeRow(kind, folded)];
    }
  }

  method BuildSegment(r: Rules, c: Collection, limit: int, watched: Option<set<string>>,
      history: Option<seq<string>>, kind: RowKind)
    returns (rows: seq<HomeRow>)
    ensures rows == HomeSegment(r, c, limit, watched, history, kind)
  {
    var items;
    match kind {
      case RecentMovie =>
        items := RecentRow(r, c, Movie, TypeMovie, limit);
      case RecentSeries =>
        items := RecentRow(r, c, Series, TypeSeries, limit);
      case NewEpisodes =>
        if watched.None? {
          return [];
        }
        items := RoundRobinDedup(r, FilterAll(c.newest, OfWatched(r, watched.value)), limit);
      case RecentlyWatched =>
        if history.None? {
          return [];
        }
        items := HistoryRow(r, Concat(c.newest) + Concat(ByType(c.byType)), history.value, limit);
      case Popular =>
        if !AnyListing(c.popular) {
          return [];
        }
        items := RoundRobinDedup(r, c.popular, limit);
        items := AggregateByGroupKey(items);
        return [HomeRow(kind, items)];
      case _ =>
        items := RoundRobinDedup(r, FilterAll(Lookup(c.byType, kind), OfRow(kind)), limit);
    }
    rows := AggregatedRow(kind, items);
  }

  // ---------------------------------------------------------------- what every row promises

  // The card resolves in every resolution map of these listings.
  ghost predicate AlwaysResolves(r: Rules, all: seq<SearchResult>, item: HomeItem) {
    Lawful(r) && IdsNameProviders(all) ==>
      forall out :: SourcesMapFor(r, all, out) ==> Resolves(out, item)
  }

  ghost predicate AllResolve(r: Rules, all: seq<SearchResult>, items: seq<HomeItem>) {
    forall item :: item in items ==> AlwaysResolves(r, all, item)
  }

  ghost predicate Within(lists: Listings, all: seq<SearchResult>) {
    forall p, it :: 0 <= p < |lists| && it in lists[p] ==> it in all
  }

  lemma RowItemsResolve(r: Rules, lists: Listings, limit: int, all: seq<SearchResult>)
    requires Within(lists, all)
    ensures AllResolve(r, all, RowItems(r, lists, limit))
  {
    var sub := WalkOf(lists, limit);
    OrderComplete(lists);
    forall it | it in sub ensures it in all {
      var k :| 0 <= k < |sub| && sub[k] == it;
      var c := Order(lists)[k];
      assert CardAt(lists, c) in lists[c.provider];
    }
    SourcesNonEmpty(r, sub);
    var items := RowItems(r, lists, limit);
    forall item, out | item in items && Lawful(r) && IdsNameProviders(all) && SourcesMapFor(r, all, out)
      ensures Resolves(out, item)
    {
      var k :| 0 <= k < |items| && items[k] == item;
      GroupItemResolves(r, sub, all, out, k);
    }
  }

  lemma SoloAnswer(r: Rules, all: seq<SearchResult>, i: nat, out: SourcesMap)
    requires Lawful(r) && IdsNameProviders(all) && SourcesMapFor(r, all, out) && i < |all|
    ensures ItemGroupKey(r, all[i]) in out && all[i].provider in out[ItemGroupKey(r, all[i])].vals
  {
    MapResolvesGroup(r, all, out, i);
    ConnectedReflexive(r, all, i);
    assert all[i] in ClassOf(r, all, i);
  }

  lemma OneKeyResolves(out: SourcesMap, item: HomeItem, p: string)
    requires item.memberKeys == [item.groupKey] && item.providers == [p]
    requires item.groupKey in out && p in out[item.groupKey].vals
    ensures Resolves(out, item)
  {
  }

  lemma SoloResolves(r: Rules, it: SearchResult, all: seq<SearchResult>)
    requires it in all
    ensures AlwaysResolves(r, all, SoloItem(r, it))
  {
    var i :| 0 <= i < |all| && all[i] == it;
    var item := SoloItem(r, it);
    forall out | Lawful(r) && IdsNameProviders(all) && SourcesMapFor(r, all, out)
      ensures Resolves(out, item)
    {
      SoloAnswer(r, all, i, out);
      OneKeyResolves(out, item, it.provider);
    }
  }

  lemma FoldedResolve(r: Rules, all: seq<SearchResult>, items: seq<HomeItem>)
    requires AllResolve(r, all, items)
    ensures AllResolve(r, all, Aggregated(items))
  {
    forall item, out | item in Aggregated(items) && Lawful(r) && IdsNameProviders(all) && SourcesMapFor(r, all, out)
      ensures Resolves(out, item)
    {
      assert forall x :: x in items ==> AlwaysResolves(r, all, x);
      AggregatedResolves(out, items);
    }
  }

  lemma {:induction false} TopUpResolves(r: Rules, all: seq<SearchResult>, base: seq<HomeItem>, extra: seq<HomeItem>,
      limit: int)
    requires AllResolve(r, all, base) && AllResolve(r, all, extra)
    ensures AllResolve(r, all, TopUp(base, extra, limit))
    decreases |extra|
  {
    if extra != [] && |base| < limit {
      assert extra[0] in extra;
      TopUpResolves(r, all, if extra[0].groupKey in Keys(base) then base else base + [extra[0]], extra[1..], limit);
    }
  }

  lemma {:induction false} FirstWithIn(r: Rules, its: seq<SearchResult>, key: string)
    ensures FirstWith(r, its, key).Some? ==> FirstWith(r, its, key).value in its
  {
    if its != [] {
      FirstWithIn(r, its[1..], key);
    }
  }

  lemma {:induction false} HistoryResolves(r: Rules, all: seq<SearchResult>, known: seq<SearchResult>,
      history: seq<string>)
    requires forall it :: it in known ==> it in all
    ensures AllResolve(r, all, HistoryItems(r, known, history))
  {
    if history != [] {
      var last := history[|history| - 1];
      FirstWithIn(r, known, last);
      var it := FirstWith(r, known, last);
      if it.Some? {
        SoloResolves(r, it.value, all);
      }
      HistoryResolves(r, all, known, history[..|history| - 1]);
    }
  }

  lemma {:induction false} ConcatHolds(lists: Listings)
    ensures forall it :: it in Concat(lists) <==> exists p :: 0 <= p < |lists| && it in lists[p]
  {
    if lists != [] {
      ConcatHolds(lists[..|lists| - 1]);
      forall p, it | 0 <= p < |lists| && it in lists[p] ensures it in Concat(lists) {
        if p < |lists| - 1 {
          assert it in lists[..|lists| - 1][p];
        }
      }
    }
  }

  lemma {:induction false} LookupWithin(bt: seq<(RowKind, Listings)>, kind: RowKind)
    ensures forall l :: l in Lookup(bt, kind) ==> exists e :: e in bt && l in e.1
  {
    if bt != [] && bt[0].0 != kind {
      LookupWithin(bt[1..], kind);
    }
  }

  lemma {:induction false} ByTypeHolds(bt: seq<(RowKind, Listings)>)
    ensures forall e, l :: e in bt && l in e.1 ==> l in ByType(bt)
  {
    if bt != [] {
      ByTypeHolds(bt[..|bt| - 1]);
    }
  }

  // Every listing a row draws from is part of the whole collection.
  lemma CollectionWithin(c: Collection, kind: RowKind)
    ensures Within(c.newest, AllItems(c)) && Within(c.popular, AllItems(c))
    ensures Within(Lookup(c.byType, kind), AllItems(c))
  {
    ConcatHolds(c.newest);
    ConcatHolds(c.popular);
    ConcatHolds(ByType(c.byType));
    LookupWithin(c.byType, kind);
    ByTypeHolds(c.byType);
    var lists := Lookup(c.byType, kind);
    forall p, it | 0 <= p < |lists| && it in lists[p] ensures it in AllItems(c) {
      assert lists[p] in lists;
      var e :| e in c.byType && lists[p] in e.1;
      assert lists[p] in ByType(c.byType);
      var q :| 0 <= q < |ByType(c.byType)| && ByType(c.byType)[q] == lists[p];
      assert it in ByType(c.byType)[q];
    }
  }

  lemma FilteredResolve(r: Rules, lists: Listings, keep: SearchResult -> bool, limit: int, all: seq<SearchResult>)
    requires Within(lists, all)
    ensures AllResolve(r, all, RowItems(r, FilterAll(lists, keep), limit))
  {
    RowItemsResolve(r, FilterAll(lists, keep), limit, all);
  }

  lemma RecentResolve(r: Rules, c: Collection, form: Form, section: RowKind, limit: int)
    ensures AllResolve(r, AllItems(c), RecentItems(r, c, form, section, limit))
  {
    CollectionWithin(c, section);
    FilteredResolve(r, c.newest, OfForm(form), limit, AllItems(c));
    FilteredResolve(r, Lookup(c.byType, section), OfRow(section), limit, AllItems(c));
    TopUpResolves(r, AllItems(c), RowItems(r, FilterAll(c.newest, OfForm(form)), limit),
      RowItems(r, FilterAll(Lookup(c.byType, section), OfRow(section)), limit), limit);
  }

  lemma PastResolve(r: Rules, c: Collection, history: seq<string>, limit: int)
    ensures AllResolve(r, AllItems(c),
      Slice(HistoryItems(r, Concat(c.newest) + Concat(ByType(c.byType)), history), limit))
  {
    var known := Concat(c.newest) + Concat(ByType(c.byType));
    HistoryResolves(r, AllItems(c), known, history);
    var items := HistoryItems(r, known, history);
    assert forall item :: item in Slice(items, limit) ==> item in items;
  }

  ghost predicate GoodRows(r: Rules, all: seq<SearchResult>, kind: RowKind, rows: seq<HomeRow>) {
    forall row :: row in rows ==> row.kind == kind && AllResolve(r, all, row.items) && Distinct(Keys(row.items))
  }

  lemma RowGood(r: Rules, all: seq<SearchResult>, kind: RowKind, items: seq<HomeItem>)
    requires AllResolve(r, all, items)
    ensures GoodRows(r, all, kind, Row(kind, items)) && GoodRows(r, all, kind, [HomeRow(kind, Aggregated(items))])
  {
    FoldedResolve(r, all, items);
  }

  // One row (or none) of the right kind, each of its cards resolving, no key twice.
  lemma SegmentResolves(r: Rules, c: Collection, limit: int, watched: Option<set<string>>,
      history: Option<seq<string>>, kind: RowKind)
    ensures GoodRows(r, AllItems(c), kind, HomeSegment(r, c, limit, watched, history, kind))
  {
    CollectionWithin(c, kind);
    var all := AllItems(c);
    match kind {
      case RecentMovie =>
        RecentResolve(r, c, Movie, TypeMovie, limit);
        RowGood(r, all, kind, RecentItems(r, c, Movie, TypeMovie, limit));
      case RecentSeries =>
        RecentResolve(r, c, Series, TypeSeries, limit);
        RowGood(r, all, kind, RecentItems(r, c, Series, TypeSeries, limit));
      case NewEpisodes =>
        if watched.Some? {
          FilteredResolve(r, c.newest, OfWatched(r, watched.value), limit, all);
          RowGood(r, all, kind, WatchedItems(r, c, watched.value, limit));
        }
      case RecentlyWatched =>
        if history.Some? {
          PastResolve(r, c, history.value, limit);
          RowGood(r, all, kind,
                  Slice(HistoryItems(r, Concat(c.newest) + Concat(ByType(c.byType)), history.value), limit));
        }
      case Popular =>
        RowItemsResolve(r, c.popular, limit, all);
        RowGood(r, all, kind, RowItems(r, c.popular, limit));
      case _ =>
        FilteredResolve(r, Lookup(c.byType, kind), OfRow(kind), limit, all);
        RowGood(r, all, kind, TypeItems(r, c, kind, limit));
    }
  }

  lemma {:induction false} VisibleIn(rows: seq<HomeRow>, excluded: set<RowKind>)
    ensures forall row :: row in Visible(rows, excluded) <==> row in rows && row.kind !in excluded
  {
    if rows != [] {
      VisibleIn(rows[1..], excluded);
      assert forall row :: row in rows <==> row == rows[0] || row in rows[1..];
    }
  }

  // Every key a home row hands out resolves the full group it stands for.
  lemma HomeKeysResolve(r: Rules, c: Collection, limit: int, watched: Option<set<string>>,
      history: Option<seq<string>>, excluded: set<RowKind>, out: SourcesMap, row: HomeRow, item: HomeItem)
    requires Lawful(r) && IdsNameProviders(AllItems(c)) && SourcesMapFor(r, AllItems(c), out)
    requires row in Visible(HomeRowsUpto(r, c, limit, watched, history, |KINDS|), excluded)
    requires item in row.items
    ensures Resolves(out, item) && Distinct(Keys(row.items)) && row.kind !in excluded
  {
    HomeRowsAre(r, c, limit, watched, history, excluded, row);
    SegmentResolves(r, c, limit, watched, history, row.kind);
    assert AlwaysResolves(r, AllItems(c), item);
  }

  // ---------------------------------------------------------------- what every row shows

  // A card of these listings, of this form and with one of these keys if any are given.
  ghost predicate Offers(r: Rules, lists: Listings, form: Option<Form>, keys: Option<set<string>>, it: SearchResult) {
    && (exists p :: 0 <= p < |lists| && it in lists[p])
    && (form.Some? ==> it.form == form.value) && (keys.Some? ==> ItemGroupKey(r, it) in keys.value)
  }

  // The home card is of such a card: its fields, its provider, its key.
  ghost predicate IsOf(r: Rules, it: SearchResult, item: HomeItem) {
    && item.title == it.title && item.year == it.year && item.form == it.form
    && it.provider in item.providers && ItemGroupKey(r, it) in item.memberKeys
  }

  ghost predicate Shows(r: Rules, lists: Listings, form: Option<Form>, keys: Option<set<string>>, item: HomeItem) {
    exists it :: Offers(r, lists, form, keys, it) && IsOf(r, it, item)
  }

  // A filter that lets through exactly the cards of this form and these keys.
  ghost predicate Keeps(r: Rules, keep: SearchResult -> bool, form: Option<Form>, keys: Option<set<string>>) {
    forall it :: keep(it) <==>
      (form.Some? ==> it.form == form.value) && (keys.Some? ==> ItemGroupKey(r, it) in keys.value)
  }

  lemma WalkedIn(lists: Listings, limit: int, it: SearchResult)
    requires it in WalkOf(lists, limit)
    ensures exists p :: 0 <= p < |lists| && it in lists[p]
  {
    OrderComplete(lists);
    var walk := WalkOf(lists, limit);
    var k :| 0 <= k < |walk| && walk[k] == it;
    var c := Order(lists)[k];
    assert CardAt(lists, c) in lists[c.provider];
  }

  // Every card of a row drawn from filtered listings is of a card of those listings.
  lemma FilteredShows(r: Rules, lists: Listings, keep: SearchResult -> bool, form: Option<Form>,
      keys: Option<set<string>>, limit: int, k: nat)
    requires Keeps(r, keep, form, keys) && k < |RowItems(r, FilterAll(lists, keep), limit)|
    ensures Shows(r, lists, form, keys, RowItems(r, FilterAll(lists, keep), limit)[k])
  {
    var kept := FilterAll(lists, keep);
    var walk := WalkOf(kept, limit);
    PartitionCovers(r, walk);
    var its := MergeSpec(r, walk)[k].sources;
    RowItemIs(r, kept, limit, k, Providers(its), ItemKeys(r, its));
    assert its[0] in its;
    assert its[0] in walk;
    WalkedIn(kept, limit, its[0]);
    var p :| 0 <= p < |kept| && its[0] in kept[p];
    assert its[0] in lists[p];
    assert Offers(r, lists, form, keys, its[0]) && IsOf(r, its[0], RowItems(r, kept, limit)[k]);
  }

  ghost predicate AllShow(r: Rules, lists: Listings, form: Option<Form>, keys: Option<set<string>>,
      items: seq<HomeItem>) {
    forall item :: item in items ==> Shows(r, lists, form, keys, item)
  }

  lemma RowShows(r: Rules, lists: Listings, keep: SearchResult -> bool, form: Option<Form>,
      keys: Option<set<string>>, limit: int)
    requires Keeps(r, keep, form, keys)
    ensures AllShow(r, lists, form, keys, RowItems(r, FilterAll(lists, keep), limit))
  {
    var items := RowItems(r, FilterAll(lists, keep), limit);
    forall item | item in items ensures Shows(r, lists, form, keys, item) {
      var k :| 0 <= k < |items| && items[k] == item;
      FilteredShows(r, lists, keep, form, keys, limit, k);
    }
  }

  // Folding keeps it: the folded card has the first one's fields and at least its providers.
  lemma FoldedShows(r: Rules, lists: Listings, form: Option<Form>, keys: Option<set<string>>, items: seq<HomeItem>)
    requires AllShow(r, lists, form, keys, items)
    ensures AllShow(r, lists, form, keys, Aggregated(items))
  {
    AggregatedIs(items);
    var out := Aggregated(items);
    forall item | item in out ensures Shows(r, lists, form, keys, item) {
      var k :| 0 <= k < |out| && out[k] == item;
      assert FoldOf(items, out[k]);
      var i :| IsFirst(items, i, item.groupKey) && item == items[i].(providers := item.providers);
      assert items[i] in items;
      var it :| Offers(r, lists, form, keys, it) && IsOf(r, it, items[i]);
      assert Provides(items, item.groupKey, it.provider);
      assert IsOf(r, it, item);
    }
  }

  // Topping up keeps the base, adds extra cards of keys it lacks, in their order, and stops at
  // the limit or when there are none left.
  lemma {:induction false} TopUpIs(base: seq<HomeItem>, extra: seq<HomeItem>, limit: int)
    ensures var out := TopUp(base, extra, limit);
      && base <= out && (|base| < limit ==> |out| <= limit)
      && (forall i :: |base| <= i < |out| ==> out[i] in extra && out[i].groupKey !in Keys(out[..i]))
      && (|out| < limit ==> forall it :: it in extra ==> it.groupKey in Keys(out))
    decreases |extra|
  {
    if extra != [] && |base| < limit {
      var out := TopUp(base, extra, limit);
      if extra[0].groupKey in Keys(base) {
        TopUpIs(base, extra[1..], limit);
        KeysGrow(base, out);
      } else {
        TopUpIs(base + [extra[0]], extra[1..], limit);
        KeysGrow(base + [extra[0]], out);
        KeysSnoc(base, extra[0]);
        assert out[|base|] == extra[0] && out[..|base|] == base;
      }
      assert forall it :: it in extra <==> it == extra[0] || it in extra[1..];
    }
  }

  lemma KeysGrow(xs: seq<HomeItem>, ys: seq<HomeItem>)
    requires xs <= ys
    ensures forall key :: key in Keys(xs) ==> key in Keys(ys)
  {
    forall key | key in Keys(xs) ensures key in Keys(ys) {
      var i :| 0 <= i < |xs| && Keys(xs)[i] == key;
      assert Keys(ys)[i] == key;
    }
  }

  // Which cards a kind's row shows.
  ghost predicate Belongs(r: Rules, c: Collection, watched: Option<set<string>>, history: Option<seq<string>>,
      kind: RowKind, item: HomeItem) {
    match kind
    case RecentMovie =>
      || Shows(r, c.newest, Some(Movie), None, item) || Shows(r, Lookup(c.byType, TypeMovie), Some(Movie), None, item)
    case RecentSeries =>
      || Shows(r, c.newest, Some(Series), None, item)
      || Shows(r, Lookup(c.byType, TypeSeries), Some(Series), None, item)
    case NewEpisodes => watched.Some? && Shows(r, c.newest, Some(Series), watched, item)
    case RecentlyWatched =>
      && history.Some? && item.groupKey in history.value
      && exists it :: it in Concat(c.newest) + Concat(ByType(c.byType)) && IsOf(r, it, item)
    case Popular => Shows(r, c.popular, None, None, item)
    case TypeMovie => Shows(r, Lookup(c.byType, TypeMovie), Some(Movie), None, item)
    case TypeSeries => Shows(r, Lookup(c.byType, TypeSeries), Some(Series), None, item)
    case _ => Shows(r, Lookup(c.byType, kind), None, None, item)
  }

  ghost predicate AllBelong(r: Rules, c: Collection, watched: Option<set<string>>, history: Option<seq<string>>,
      kind: RowKind, items: seq<HomeItem>) {
    forall item :: item in items ==> Belongs(r, c, watched, history, kind, item)
  }

  lemma RecentBelong(r: Rules, c: Collection, watched: Option<set<string>>, history: Option<seq<string>>, limit: int,
      kind: RowKind, form: Form, section: RowKind)
    requires (kind, form, section) in [(RecentMovie, Movie, TypeMovie), (RecentSeries, Series, TypeSeries)]
    ensures AllBelong(r, c, watched, history, kind, Aggregated(RecentItems(r, c, form, section, limit)))
  {
    var base := RowItems(r, FilterAll(c.newest, OfForm(form)), limit);
    var extra := RowItems(r, FilterAll(Lookup(c.byType, section), OfRow(section)), limit);
    RowShows(r, c.newest, OfForm(form), Some(form), None, limit);
    RowShows(r, Lookup(c.byType, section), OfRow(section), Some(form), None, limit);
    TopUpIs(base, extra, limit);
    var items := TopUp(base, extra, limit);
    forall item | item in items
      ensures Shows(r, c.newest, Some(form), None, item) || Shows(r, Lookup(c.byType, section), Some(form), None, item)
    {
      var i :| 0 <= i < |items| && items[i] == item;
      assert i < |base| ==> items[i] == base[i];
    }
    EitherFolded(r, c.newest, Lookup(c.byType, section), form, items);
  }

  lemma EitherFolded(r: Rules, lists: Listings, others: Listings, form: Form, items: seq<HomeItem>)
    requires forall item :: item in items ==>
      Shows(r, lists, Some(form), None, item) || Shows(r, others, Some(form), None, item)
    ensures forall item :: item in Aggregated(items) ==>
      Shows(r, lists, Some(form), None, item) || Shows(r, others, Some(form), None, item)
  {
    AggregatedIs(items);
    var out := Aggregated(items);
    forall item | item in out
      ensures Shows(r, lists, Some(form), None, item) || Shows(r, others, Some(form), None, item)
    {
      var k :| 0 <= k < |out| && out[k] == item;
      assert FoldOf(items, out[k]);
      var i :| IsFirst(items, i, item.groupKey) && item == items[i].(providers := item.providers);
      assert items[i] in items;
      var from := if Shows(r, lists, Some(form), None, items[i]) then lists else others;
      var it :| Offers(r, from, Some(form), None, it) && IsOf(r, it, items[i]);
      assert Provides(items, item.groupKey, it.provider);
      assert IsOf(r, it, item);
    }
  }

  // The first card that carries a key, and nothing exactly if none does.
  lemma {:induction false} FirstWithIs(r: Rules, its: seq<SearchResult>, key: string) returns (i: nat)
    ensures i <= |its| && forall j :: 0 <= j < i ==> ItemGroupKey(r, its[j]) != key
    ensures i < |its| ==> ItemGroupKey(r, its[i]) == key
    ensures FirstWith(r, its, key) == if i < |its| then Some(its[i]) else None
  {
    i := 0;
    if its != [] && ItemGroupKey(r, its[0]) != key {
      i := FirstWithIs(r, its[1..], key);
      assert forall j :: 0 <= j < i ==> its[1..][j] == its[j + 1];
      i := i + 1;
    }
  }

  // The history goes key by key: the first card that carries it, alone, or nothing.
  lemma {:induction false} HistoryConcat(r: Rules, known: seq<SearchResult>, xs: seq<string>, ys: seq<string>)
    ensures HistoryItems(r, known, xs + ys) == HistoryItems(r, known, xs) + HistoryItems(r, known, ys)
  {
    if ys == [] {
      assert xs + ys == xs;
    } else {
      assert (xs + ys)[..|xs + ys| - 1] == xs + ys[..|ys| - 1];
      HistoryConcat(r, known, xs, ys[..|ys| - 1]);
    }
  }

  lemma HistoryOfOne(r: Rules, known: seq<SearchResult>, key: string) returns (i: nat)
    ensures i <= |known| && forall j :: 0 <= j < i ==> ItemGroupKey(r, known[j]) != key
    ensures i == |known| ==> HistoryItems(r, known, [key]) == []
    ensures i < |known| ==>
      && ItemGroupKey(r, known[i]) == key
      && HistoryItems(r, known, [key]) ==
           [HomeItem(key, known[i].title, known[i].year, known[i].form, [known[i].provider], [key])]
  {
    i := FirstWithIs(r, known, key);
    assert [key][..0] == [];
  }

  lemma {:induction false} HistoryIsOf(r: Rules, known: seq<SearchResult>, history: seq<string>)
    ensures forall item :: item in HistoryItems(r, known, history) ==>
      item.groupKey in history && exists it :: it in known && IsOf(r, it, item)
  {
    if history != [] {
      var n := |history| - 1;
      HistoryIsOf(r, known, history[..n]);
      var i := FirstWithIs(r, known, history[n]);
      if i < |known| {
        assert known[i] in known && IsOf(r, known[i], SoloItem(r, known[i]));
      }
    }
  }

  lemma PastBelong(r: Rules, c: Collection, watched: Option<set<string>>, history: seq<string>, limit: int)
    ensures AllBelong(r, c, watched, Some(history), RecentlyWatched,
      Aggregated(Slice(HistoryItems(r, Concat(c.newest) + Concat(ByType(c.byType)), history), limit)))
  {
    var known := Concat(c.newest) + Concat(ByType(c.byType));
    HistoryIsOf(r, known, history);
    var items := Slice(HistoryItems(r, known, history), limit);
    AggregatedIs(items);
    var out := Aggregated(items);
    forall item | item in out ensures Belongs(r, c, watched, Some(history), RecentlyWatched, item) {
      var k :| 0 <= k < |out| && out[k] == item;
      assert FoldOf(items, out[k]);
      var i :| IsFirst(items, i, item.groupKey) && item == items[i].(providers := item.providers);
      assert items[i] in HistoryItems(r, known, history);
      var it :| it in known && IsOf(r, it, items[i]);
      assert items[i] in items && Provides(items, item.groupKey, it.provider);
      assert IsOf(r, it, item);
    }
  }

  lemma TypeBelong(r: Rules, c: Collection, watched: Option<set<string>>, history: Option<seq<string>>, limit: int,
      kind: RowKind)
    requires kind !in {RecentMovie, RecentSeries, NewEpisodes, RecentlyWatched, Popular}
    ensures AllBelong(r, c, watched, history, kind, Aggregated(TypeItems(r, c, kind, limit)))
  {
    var form := if kind.TypeMovie? then Some(Movie) else if kind.TypeSeries? then Some(Series) else None;
    RowShows(r, Lookup(c.byType, kind), OfRow(kind), form, None, limit);
    FoldedShows(r, Lookup(c.byType, kind), form, None, TypeItems(r, c, kind, limit));
  }

  lemma PopularBelong(r: Rules, c: Collection, watched: Option<set<string>>, history: Option<seq<string>>, limit: int)
    ensures AllBelong(r, c, watched, history, Popular, Aggregated(RowItems(r, c.popular, limit)))
  {
    var all := (it: SearchResult) => true;
    AllKept(c.popular, all);
    RowShows(r, c.popular, all, None, None, limit);
    FoldedShows(r, c.popular, None, None, RowItems(r, c.popular, limit));
  }

  lemma {:induction false} FilterAllKept(its: seq<SearchResult>, keep: SearchResult -> bool)
    requires forall it :: keep(it)
    ensures Filter(its, keep) == its
  {
    if its != [] {
      FilterAllKept(its[1..], keep);
    }
  }

  lemma AllKept(lists: Listings, keep: SearchResult -> bool)
    requires forall it :: keep(it)
    ensures FilterAll(lists, keep) == lists
  {
    forall p | 0 <= p < |lists| ensures Filter(lists[p], keep) == lists[p] {
      FilterAllKept(lists[p], keep);
    }
  }

  // A kind's row is its own, and every card of it is of a card that belongs there.
  lemma SegmentShows(r: Rules, c: Collection, limit: int, watched: Option<set<string>>,
      history: Option<seq<string>>, kind: RowKind)
    ensures |HomeSegment(r, c, limit, watched, history, kind)| <= 1
    ensures forall row :: row in HomeSegment(r, c, limit, watched, history, kind) ==>
      row.kind == kind && AllBelong(r, c, watched, history, kind, row.items)
  {
    match kind {
      case RecentMovie => RecentBelong(r, c, watched, history, limit, kind, Movie, TypeMovie);
      case RecentSeries => RecentBelong(r, c, watched, history, limit, kind, Series, TypeSeries);
      case NewEpisodes =>
        if watched.Some? {
          RowShows(r, c.newest, OfWatched(r, watched.value), Some(Series), watched, limit);
          FoldedShows(r, c.newest, Some(Series), watched, WatchedItems(r, c, watched.value, limit));
        }
      case RecentlyWatched =>
        if history.Some? {
          PastBelong(r, c, watched, history.value, limit);
        }
      case Popular => PopularBelong(r, c, watched, history, limit);
      case _ => TypeBelong(r, c, watched, history, limit, kind);
    }
  }

  // A kind's listings are those of its entry, the first if there are several.
  lemma {:induction false} LookupIs(bt: seq<(RowKind, Listings)>, kind: RowKind) returns (i: nat)
    ensures i <= |bt| && forall j :: 0 <= j < i ==> bt[j].0 != kind
    ensures if i < |bt| then bt[i].0 == kind && Lookup(bt, kind) == bt[i].1 else Lookup(bt, kind) == []
  {
    i := 0;
    if bt != [] && bt[0].0 != kind {
      i := LookupIs(bt[1..], kind);
      assert forall j :: 0 <= j < i ==> bt[1..][j] == bt[j + 1];
      i := i + 1;
    }
  }

  // ---------------------------------------------------------------- which rows there are

  ghost predicate AnyOffer(r: Rules, lists: Listings, form: Option<Form>, keys: Option<set<string>>) {
    exists it :: Offers(r, lists, form, keys, it)
  }

  lemma {:induction false} TotalIff(lists: Listings)
    ensures Total(lists) > 0 <==> exists p :: 0 <= p < |lists| && lists[p] != []
  {
    if lists != [] {
      var front := lists[..|lists| - 1];
      TotalIff(front);
      if p :| 0 <= p < |lists| && lists[p] != [] {
        assert p < |front| ==> front[p] == lists[p];
      }
    }
  }

  // A row drawn from filtered listings has cards exactly if it may have any and the filter
  // lets one through.
  lemma RowItemsIff(r: Rules, lists: Listings, keep: SearchResult -> bool, form: Option<Form>,
      keys: Option<set<string>>, limit: int)
    requires Keeps(r, keep, form, keys)
    ensures RowItems(r, FilterAll(lists, keep), limit) != [] <==> limit > 0 && AnyOffer(r, lists, form, keys)
  {
    var kept := FilterAll(lists, keep);
    if limit > 0 {
      RowSizes(r, kept, limit);
      TotalIff(kept);
      GroupsIff(r, WalkOf(kept, limit));
      if it :| Offers(r, lists, form, keys, it) {
        var p :| 0 <= p < |lists| && it in lists[p];
        assert it in kept[p];
      }
      if p :| 0 <= p < |kept| && kept[p] != [] {
        assert kept[p][0] in kept[p];
        assert Offers(r, lists, form, keys, kept[p][0]);
      }
    }
  }

  lemma GroupsIff(r: Rules, items: seq<SearchResult>)
    ensures MergeSpec(r, items) != [] <==> items != []
  {
    PartitionCovers(r, items);
    if items != [] {
      assert Covered(Partition(r, items), 0);
    }
    if Partition(r, items) != [] {
      assert Partition(r, items)[0][0] < |items|;
    }
  }

  lemma RecentIff(r: Rules, c: Collection, form: Form, section: RowKind, limit: int)
    requires (form, section) in [(Movie, TypeMovie), (Series, TypeSeries)]
    ensures RecentItems(r, c, form, section, limit) != [] <==>
      limit > 0 && (AnyOffer(r, c.newest, Some(form), None) || AnyOffer(r, Lookup(c.byType, section), Some(form), None))
  {
    RowItemsIff(r, c.newest, OfForm(form), Some(form), None, limit);
    RowItemsIff(r, Lookup(c.byType, section), OfRow(section), Some(form), None, limit);
    var base := RowItems(r, FilterAll(c.newest, OfForm(form)), limit);
    var extra := RowItems(r, FilterAll(Lookup(c.byType, section), OfRow(section)), limit);
    TopUpIs(base, extra, limit);
  }

  // What makes a kind's row appear, for a limit that is not negative.
  ghost predicate Appears(r: Rules, c: Collection, limit: int, watched: Option<set<string>>,
      history: Option<seq<string>>, kind: RowKind) {
    match kind
    case RecentMovie =>
      && limit > 0
      && (AnyOffer(r, c.newest, Some(Movie), None) || AnyOffer(r, Lookup(c.byType, TypeMovie), Some(Movie), None))
    case RecentSeries =>
      && limit > 0
      && (AnyOffer(r, c.newest, Some(Series), None) || AnyOffer(r, Lookup(c.byType, TypeSeries), Some(Series), None))
    case NewEpisodes => limit > 0 && watched.Some? && AnyOffer(r, c.newest, Some(Series), watched)
    case RecentlyWatched =>
      && limit > 0 && history.Some?
      && AnyKnown(r, Concat(c.newest) + Concat(ByType(c.byType)), history.value)
    case Popular => AnyOffer(r, c.popular, None, None)
    case TypeMovie => limit > 0 && AnyOffer(r, Lookup(c.byType, TypeMovie), Some(Movie), None)
    case TypeSeries => limit > 0 && AnyOffer(r, Lookup(c.byType, TypeSeries), Some(Series), None)
    case _ => limit > 0 && AnyOffer(r, Lookup(c.byType, kind), None, None)
  }

  ghost predicate AnyKnown(r: Rules, known: seq<SearchResult>, keys: seq<string>) {
    exists it :: it in known && ItemGroupKey(r, it) in keys
  }

  lemma {:induction false} HistoryIff(r: Rules, known: seq<SearchResult>, history: seq<string>)
    ensures HistoryItems(r, known, history) != [] <==> AnyKnown(r, known, history)
  {
    if history != [] {
      var n := |history| - 1;
      HistoryIff(r, known, history[..n]);
      KnownSnoc(r, known, history[..n], history[n], history);
    }
  }

  lemma KnownSnoc(r: Rules, known: seq<SearchResult>, keys: seq<string>, last: string, all: seq<string>)
    requires all == keys + [last]
    ensures AnyKnown(r, known, all) <==> AnyKnown(r, known, keys) || FirstWith(r, known, last).Some?
  {
    var i := FirstWithIs(r, known, last);
    if i < |known| {
      assert known[i] in known && ItemGroupKey(r, known[i]) in all;
    }
    if AnyKnown(r, known, keys) {
      var it :| it in known && ItemGroupKey(r, it) in keys;
      assert ItemGroupKey(r, it) in all;
    }
    if AnyKnown(r, known, all) && !AnyKnown(r, known, keys) {
      var it :| it in known && ItemGroupKey(r, it) in all;
      var j :| 0 <= j < |known| && known[j] == it;
      assert ItemGroupKey(r, known[j]) == last;
    }
  }

  lemma SegmentIff(r: Rules, c: Collection, limit: int, watched: Option<set<string>>,
      history: Option<seq<string>>, kind: RowKind)
    requires limit >= 0
    ensures HomeSegment(r, c, limit, watched, history, kind) != [] <==> Appears(r, c, limit, watched, history, kind)
  {
    match kind {
      case RecentMovie => RecentIff(r, c, Movie, TypeMovie, limit);
      case RecentSeries => RecentIff(r, c, Series, TypeSeries, limit);
      case NewEpisodes =>
        if watched.Some? {
          RowItemsIff(r, c.newest, OfWatched(r, watched.value), Some(Series), watched, limit);
        }
      case RecentlyWatched =>
        if history.Some? {
          HistoryIff(r, Concat(c.newest) + Concat(ByType(c.byType)), history.value);
        }
      case Popular =>
        if AnyListing(c.popular) {
          var p :| 0 <= p < |c.popular| && c.popular[p] != [];
          assert c.popular[p][0] in c.popular[p];
          assert Offers(r, c.popular, None, None, c.popular[p][0]);
        }
      case _ =>
        var form := if kind.TypeMovie? then Some(Movie) else if kind.TypeSeries? then Some(Series) else None;
        RowItemsIff(r, Lookup(c.byType, kind), OfRow(kind), form, None, limit);
    }
  }

  // The decided order of the home page.
  function Rank(kind: RowKind): nat {
    match kind
    case RecentMovie => 0
    case RecentSeries => 1
    case NewEpisodes => 2
    case RecentlyWatched => 3
    case Popular => 4
    case TypeMovie => 5
    case TypeSeries => 6
    case Anime => 7
    case Cartoon => 8
    case Dorama => 9
    case Other(_) => 10
  }

  ghost predicate InRankOrder(rows: seq<HomeRow>) {
    forall i, j :: 0 <= i < j < |rows| ==> Rank(rows[i].kind) < Rank(rows[j].kind)
  }

  ghost function SegmentOf(r: Rules, c: Collection, limit: int, watched: Option<set<string>>,
      history: Option<seq<string>>): RowKind -> seq<HomeRow> {
    kind => HomeSegment(r, c, limit, watched, history, kind)
  }

  ghost function Joined(segment: RowKind -> seq<HomeRow>, n: nat): seq<HomeRow>
    requires n <= |KINDS|
  {
    if n == 0 then [] else Joined(segment, n - 1) + segment(KINDS[n - 1])
  }

  // Each kind has one row at most, of its own kind.
  ghost predicate OwnRows(segment: RowKind -> seq<HomeRow>) {
    forall kind :: |segment(kind)| <= 1 && forall row :: row in segment(kind) ==> row.kind == kind
  }

  lemma {:induction false} UptoJoins(r: Rules, c: Collection, limit: int, watched: Option<set<string>>,
      history: Option<seq<string>>, n: nat)
    requires n <= |KINDS|
    ensures HomeRowsUpto(r, c, limit, watched, history, n) == Joined(SegmentOf(r, c, limit, watched, history), n)
  {
    if n > 0 {
      UptoJoins(r, c, limit, watched, history, n - 1);
      var kind := KINDS[n - 1];
      assert SegmentOf(r, c, limit, watched, history)(kind) == HomeSegment(r, c, limit, watched, history, kind);
    }
  }

  lemma {:induction false} JoinedHas(segment: RowKind -> seq<HomeRow>, n: nat, row: HomeRow)
    requires n <= |KINDS| && OwnRows(segment)
    ensures row in Joined(segment, n) <==> Rank(row.kind) < n && row in segment(row.kind)
  {
    if n > 0 {
      JoinedHas(segment, n - 1, row);
      RankIs(n - 1, row.kind);
      assert row in segment(KINDS[n - 1]) ==> row.kind == KINDS[n - 1];
    }
  }

  lemma RankIs(n: nat, kind: RowKind)
    requires n < |KINDS|
    ensures Rank(kind) == n <==> kind == KINDS[n]
  {}

  lemma {:induction false} JoinedInOrder(segment: RowKind -> seq<HomeRow>, n: nat)
    requires n <= |KINDS| && OwnRows(segment)
    ensures InRankOrder(Joined(segment, n))
  {
    if n > 0 {
      JoinedInOrder(segment, n - 1);
      var rows, last := Joined(segment, n - 1), segment(KINDS[n - 1]);
      forall i, j | 0 <= i < |rows| && 0 <= j < |last| ensures Rank(rows[i].kind) < Rank(last[j].kind) {
        assert rows[i] in rows && last[j] in last;
        JoinedHas(segment, n - 1, rows[i]);
        RankIs(n - 1, last[j].kind);
      }
    }
  }

  lemma {:induction false} VisibleInOrder(rows: seq<HomeRow>, excluded: set<RowKind>)
    requires InRankOrder(rows)
    ensures InRankOrder(Visible(rows, excluded))
  {
    if rows != [] {
      assert forall i :: 0 <= i < |rows[1..]| ==> rows[1..][i] == rows[i + 1];
      VisibleInOrder(rows[1..], excluded);
      VisibleIn(rows[1..], excluded);
      var rest := Visible(rows[1..], excluded);
      forall i | 0 <= i < |rest| ensures Rank(rows[0].kind) < Rank(rest[i].kind) {
        assert rest[i] in rest;
        var j :| 0 <= j < |rows[1..]| && rows[1..][j] == rest[i];
        assert rows[j + 1] == rest[i];
      }
    }
  }

  // The home page: the row of every kind that is not hidden, if it has one, in the decided order.
  lemma HomeRowsAre(r: Rules, c: Collection, limit: int, watched: Option<set<string>>,
      history: Option<seq<string>>, excluded: set<RowKind>, row: HomeRow)
    ensures var rows := Visible(HomeRowsUpto(r, c, limit, watched, history, |KINDS|), excluded);
      && InRankOrder(rows)
      && (row in rows <==>
            && !row.kind.Other? && row.kind !in excluded
            && row in HomeSegment(r, c, limit, watched, history, row.kind))
  {
    SegmentsOwn(r, c, limit, watched, history);
    UptoJoins(r, c, limit, watched, history, |KINDS|);
    ShownRows(SegmentOf(r, c, limit, watched, history), excluded, row);
  }

  lemma ShownRows(segment: RowKind -> seq<HomeRow>, excluded: set<RowKind>, row: HomeRow)
    requires OwnRows(segment)
    ensures var rows := Visible(Joined(segment, |KINDS|), excluded);
      && InRankOrder(rows)
      && (row in rows <==> !row.kind.Other? && row.kind !in excluded && row in segment(row.kind))
  {
    var all := Joined(segment, |KINDS|);
    JoinedHas(segment, |KINDS|, row);
    JoinedInOrder(segment, |KINDS|);
    VisibleIn(all, excluded);
    VisibleInOrder(all, excluded);
  }

  lemma SegmentsOwn(r: Rules, c: Collection, limit: int, watched: Option<set<string>>, history: Option<seq<string>>)
    ensures OwnRows(SegmentOf(r, c, limit, watched, history))
  {
    var segment := SegmentOf(r, c, limit, watched, history);
    forall kind ensures |segment(kind)| <= 1 && forall row :: row in segment(kind) ==> row.kind == kind {
      SegmentShows(r, c, limit, watched, history, kind);
    }
  }
}
