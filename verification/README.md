# Verified model of the catalog backend

A Dafny model of the hardest parts of `backend/cs_uk_api`: how listings of many providers become
one catalog, who owns the resolution map, how a title is resolved, and how the backend's stores
and its drift monitor behave over whole runs. Everything is proved for all inputs and all runs;
`dafny verify dfyconfig.toml` checks the project.

## What is modelled

* **Merge and keys** (`WireIdentity`, `UnionFind`, `Merge`, `MergeKeys`). `merge_results` as it
  works: a parent list with path halving and no rank, the alias pass, the IMDb pass, the buckets.
  The result is proved equal to the partition by the reflexive-transitive closure of the direct
  match. That closure is coarser than the pairwise rule the module states, and equal to it exactly
  when no card bridges two others (`PairwiseIff`). Keys of different groups never clash exactly
  when no two cards are *twins* (a blank alias, no IMDb id, the same id, form and year). Title
  aliases, the year inside a title and the digest are parameters (`Rules`); `Lawful` is what is
  assumed of them: no colon in an alias, and an injective digest.
* **Home rows and the resolution map** (`RoundRobin`, `Home`, `HomeRows`, `DeepRows`, `Snapshot`).
  Every key a home row hands out is answered by the map with its whole group, although the row
  merged only some of the cards. `IdsNameProviders` is the one assumption: equal ids come from the
  same provider.
* **The catalog owner** (`Catalog`, `CatalogPromises`, `CatalogProvenance`, `CatalogOwner`). The
  owner's operations as functions on its state, proved over runs, and the class that computes
  them while it mutates the map it shares with its callers. A searched key answers for the full
  search TTL, in every configuration, and `AnswerIs` says with what. Whether the answer keeps its
  *sources* depends on the state and the two TTLs, which are independent settings
  (`ActionableIff`).
* **Resolution** (`Resolution`, `Resolver`, `SingleFlight`). The member walk, its retry, and the
  readers that answer from the caches alone; and the guard that shares one resolution.
* **Persistence** (`Utf8`, `VersionedStore`, `ResumeStore`, `ResumeViews`, `DebouncedSave`). The
  load ladder from the bytes of the file on, crash and restart equivalence of the resume store,
  and every interleaving of the threaded debounced writer with its requester.
* **Drift** (`Baseline`, `Attestation`, `Monitor`, `MonitorPromises`, `Rotation`). Calibration
  over the forms and styles a card can have, playback windows over requests and stop reports,
  convergence, the issue protocol under a failing tracker, the probe rotation.
* **Crawl guard** (`Dates`, `CrawlGuard`), **conditional GET** (`HttpCache`, `CachingTransport`)
  and the **fingerprint matcher** (`Teleport`).

Two forms recur. A loop or a class is proved against a function that says what it computes; lemmas
say what that function's value is without naming it, and the promises are lemmas about it. A protocol with several actors is a state machine
whose steps are the stretches between two waits; the promises hold over every run.

## Where the code falls short of its documentation

Each of these is a theorem: the exact condition, or a run that shows the failure.

* `DebouncedSave.flush` can be overtaken by a write the worker has already begun, and then the
  file ends with an older payload (`SettledIff`, `ClosedDisk`, `FlushOvertaken`).
* Two overlapping GETs of one url can leave a page in the cache that answers wrongly afterwards
  (`RefinesDirectFetchIff`, `OverlapPoisons`).
* Two listing cards are said to be the same title exactly if they match pairwise. The groups say
  so exactly if no card matches two that do not match each other (`PairwiseIff`); a card without
  a year can (`YearlessBridges`).
* A search result is said to stay actionable for the search TTL. Its sources do exactly if the
  map's TTL is at least as long and either the search finds something new or the map already
  outlives the search (`ActionableIff`, `RepeatedSearchGap`).
* The resume shelf evicts one entry per report, so a file loaded with more entries than its
  cap can stay over it, and under a clock set back the evicted entry can be the report itself
  (`WithinCapIff`, `OverCapStays`, `ReportStaysIff`, `SetBackDropsReport`).
* `VersionedFileStore.load` is documented never to raise; of reading and parsing it catches only
  OSError and JSONDecodeError, and raises exactly on bytes that are not well-formed UTF-8, such as `FF`, and
  on text on which the JSON parser raises another error, such as an integer of 4301 digits
  (`LoadRaisesIff`, `LoadRaises`, `LongNumeralRaises`).
* A growing catalog is said never to trip the drift verdict. No growth to a given size and number
  of style tags trips it exactly if it outgrows no significant form and no significant style
  twentyfold (`GrowthSafeIff`); two movies of which one is anime trip once twenty cartoons have
  joined them (`GrowthTrips`). Up to fourfold growth never trips (`GrowthIsHealthy`).
* A playback window is said to accuse a provider when all its streams stopped at zero, and to
  acquit it when one plays. The counters count requests and reports, not streams, so a press that
  asks twice can acquit, and a report that comes late or twice can accuse; `VerdictRightIff` says
  exactly which windows are judged right (`RepeatedRequestAcquits`, `RepeatedReportAccuses`,
  `LateStopMisjudged`).
* The rotation is said to complete coverage in exactly the period; it completes as soon as the
  days' probes number as many as the providers (`CoverageIff`, `EarlyCoverage`).
* A lead member beyond the walk's cap is not moved to the front, though the group carries it
  (`LeadComesFirst`, `LeadBeyondCap`).

## Model

| member | source | states |
|---|---|---|
| WireIdentity.KeyCollision | backend/cs_uk_api/wire_identity.py:171-202 | equal stateless keys of two cards mean they match directly or are twins; twins do collide without matching |
| WireIdentity.ItemKeyIs | backend/cs_uk_api/wire_identity.py:171-202 | a card's key is its asserted IMDb id, or the digest of form, year and the least of its aliases, or of its own id where its title has none; the year 0 counts as unknown |
| WireIdentity.KeyOfAliasSet | backend/cs_uk_api/wire_identity.py:154-186 | the key depends on the set of aliases, not on their order, and not on how the year was found |
| WireIdentity.ImdbIdIff | backend/cs_uk_api/wire_identity.py:61 | a valid id is `tt` and seven to ten digits |
| WireIdentity.EffectiveYearIs | backend/cs_uk_api/wire_identity.py:166-168 | a card's own year, and only without one the year its title names |
| UnionFind.HalveForest | backend/cs_uk_api/merge.py:94-98 | one path-halving step keeps every root and raises the rank of the node the walk moves to, so the walk ends |
| UnionFind.JoinForest | backend/cs_uk_api/merge.py:100-104 | hanging one root under another keeps a forest and removes exactly that root |
| UnionFind.UnionFind.constructor | backend/cs_uk_api/merge.py:92 | a fresh parent list: every card is its own root |
| UnionFind.UnionFind.Find | backend/cs_uk_api/merge.py:94-98 | returns the root of a card; the walk rewrites parents but changes no root |
| UnionFind.UnionFind.Union | backend/cs_uk_api/merge.py:100-110 | joins exactly the two classes, and reports whether they were apart |
| Merge.ConnectedSymmetric | backend/cs_uk_api/merge.py:112-131 | the closure of the direct match is symmetric |
| Merge.ConnectedTransitive | backend/cs_uk_api/merge.py:112-131 | and transitive, though the direct match is not |
| Merge.PartitionCovers | backend/cs_uk_api/merge.py:132-166 | the reference groups are the classes of the closure: each card in exactly one group, groups in order of their first members, listing order inside |
| Merge.MatchEarlier | backend/cs_uk_api/merge.py:116-118 | the innermost loop joins a card with all and only the direct matches filed under one alias |
| Merge.AliasPass | backend/cs_uk_api/merge.py:112-119 | after the pass all cards that share an alias and form with matching years have one root, and nothing unconnected was joined |
| Merge.ImdbPass | backend/cs_uk_api/merge.py:121-131 | after the pass all cards with one valid IMDb id have one root, and nothing unconnected was joined |
| Merge.RootsAreClasses | backend/cs_uk_api/merge.py:92-131 | after both passes two cards have one root iff they are connected by the closure |
| Merge.UnionAll | backend/cs_uk_api/merge.py:85-131 | the roots are the classes, and the log has one line per card absorbed |
| Merge.Buckets | backend/cs_uk_api/merge.py:133-135 | the buckets hold each class in listing order, keyed in order of first members |
| Merge.MergeResults | backend/cs_uk_api/merge.py:85-167 | the merge returns the reference groups with their keys; log lines plus groups number the cards |
| MergeKeys.GroupKeyIsCanonical | backend/cs_uk_api/merge.py:137-161 | the one key of a group: the least IMDb id its cards assert; failing that the least key of its cards with a known year; failing that the least of all |
| MergeKeys.GroupsInOrder | backend/cs_uk_api/merge.py:133-167 | each group lists its cards in listing order, the groups follow their first cards, and each holds exactly what is connected |
| MergeKeys.CanonicalKeyIsMemberKey | backend/cs_uk_api/merge.py:137-161 | a group's key is one its own members recompute from their listing data |
| MergeKeys.KeyOfSet | backend/cs_uk_api/merge.py:137-161 | the key depends on the set of members only |
| MergeKeys.KeysDisjointIff | backend/cs_uk_api/merge.py:136-167 | groups of one merge have disjoint member keys, and distinct canonical keys, iff the listing holds no twins |
| MergeKeys.GroupKeysIff | backend/cs_uk_api/merge.py:136-167 | two groups have one canonical key iff they are the groups of two twins |
| MergeKeys.TwinsCollide | backend/cs_uk_api/wire_identity.py:171-186 | two twins give two groups that share a key |
| MergeKeys.BlankAlone | backend/cs_uk_api/merge.py:112-131 | a card without alias and IMDb id is alone in its group |
| MergeKeys.OneGroup | backend/cs_uk_api/merge.py:133-135 | no card is in two groups |
| MergeKeys.ConnectedEmbeds | backend/cs_uk_api/merge.py:112-131 | cards connected within a part of the listings are connected in the whole |
| MergeKeys.OrderIrrelevant | backend/cs_uk_api/merge.py:85-167 | permuting the listing permutes the groups and changes no key |
| MergeKeys.GroupHolds | backend/cs_uk_api/merge.py:136-167 | each group carries exactly the cards and the key of its class |
| MergeKeys.YearlessBridges | backend/cs_uk_api/merge.py:81-82 | one card without a year groups all cards of its alias and form, whatever their years |
| MergeKeys.PairwiseIff | backend/cs_uk_api/merge.py:3-8 | the groups are exactly the pairwise matches iff no card matches two that do not match each other |
| RoundRobin.OrderComplete | backend/cs_uk_api/home.py:129-146 | the round-robin order visits every card of every provider exactly once |
| RoundRobin.WalkIsFair | backend/cs_uk_api/home.py:129-146 | wherever it stops, each provider gave a prefix in order, and none that still has cards is more than one behind another |
| RoundRobin.WalkCount | backend/cs_uk_api/home.py:129-146 | it takes as many cards as the budget allows and the listings hold |
| RoundRobin.WalkRound | backend/cs_uk_api/home.py:133-145 | one pass over the providers, cut short at the budget, advances the cursors as the order does |
| RoundRobin.Walk | backend/cs_uk_api/home.py:129-146 | the cursor loop collects the prefix of the order that fits the budget |
| Home.Project | backend/cs_uk_api/home.py:148-184 | a merged group becomes a home card with its key, member keys and providers, cut at the limit |
| Home.RoundRobinDedup | backend/cs_uk_api/home.py:101-184 | a row is the merge of the walked cards, one card a group, at most the limit |
| Home.RowItemIs | backend/cs_uk_api/home.py:153-183 | the k-th card stands for the k-th merged group: its key, the first source's fields, exactly the sources' providers and own keys, each once in first-seen order |
| Home.RowSizes | backend/cs_uk_api/home.py:129-156 | the walk takes four cards for each place, as long as there are any; the row has a card for each group up to the limit |
| Home.Aggregated | backend/cs_uk_api/home.py:187-212 | folding by key leaves each key once and loses none |
| Home.AggregatedIs | backend/cs_uk_api/home.py:187-212 | the folded cards come in first-seen order of the keys, each the first of its key with exactly the providers of all cards of that key |
| Home.FoldKeepsOrder | backend/cs_uk_api/home.py:208-211 | those providers come in the order the cards show them |
| Home.FoldIdentityIff | backend/cs_uk_api/home.py:187-212 | the fold changes nothing iff the cards have distinct keys |
| Home.AggregateByGroupKey | backend/cs_uk_api/home.py:187-212 | the loop computes the fold: the first card of each key, with everybody's providers |
| Snapshot.UnionOf | backend/cs_uk_api/wire_identity.py:475-485 | each provider of the sources once, in first-seen order, with its own first card |
| Snapshot.UnionIs | backend/cs_uk_api/wire_identity.py:475-485 | each provider once in first-seen order, with the first card it shows |
| Snapshot.ProviderUnion | backend/cs_uk_api/wire_identity.py:475-485 | the loop computes that union |
| Snapshot.AddListings | backend/cs_uk_api/_catalog_state/snapshot.py:53-63 | after the listings every card's stateless key is in the map, and no other key |
| Snapshot.BuildSourcesMap | backend/cs_uk_api/_catalog_state/snapshot.py:66-107 | the keys are those of the cards; each answers with the union of the last group that carries it |
| Snapshot.MapResolvesGroup | backend/cs_uk_api/_catalog_state/snapshot.py:66-107 | any card's key is answered with the providers of that card's whole group, twins included |
| Snapshot.GroupItemResolves | backend/cs_uk_api/_catalog_state/snapshot.py:66-107 | a card merged from part of the listings resolves against the map of all of them: every member key, and every provider it lists |
| Snapshot.AggregatedResolves | backend/cs_uk_api/home.py:187-212 | folding cards that resolve gives cards that resolve |
| HomeRows.TopUpRow | backend/cs_uk_api/home.py:306-313 | a short row is topped up with new keys only, up to the limit |
| HomeRows.TopUpIs | backend/cs_uk_api/home.py:306-313 | the base stays, what is added are extra cards of keys not yet shown, and adding stops at the limit or with nothing left |
| HomeRows.RecentRow | backend/cs_uk_api/home.py:290-313 | the form's newest cards, topped up from the form's section |
| HomeRows.KnownCards | backend/cs_uk_api/home.py:354-359 | the first card seen of each stateless key |
| HomeRows.HistoryRow | backend/cs_uk_api/home.py:353-377 | the known cards of the history's keys, in history order, cut at the limit |
| HomeRows.BuildSegment | backend/cs_uk_api/home.py:290-426 | one row kind's row, or none where the code omits it |
| HomeRows.BuildHomeRows | backend/cs_uk_api/home.py:232-430 | all rows in the registry's order, without the hidden kinds |
| HomeRows.SegmentResolves | backend/cs_uk_api/home.py:290-426 | a row kind's row has that kind, no key twice, and cards that resolve |
| HomeRows.SegmentShows | backend/cs_uk_api/home.py:290-426 | a row kind has one row at most, and each of its cards has the fields, a provider and a key of a listed card that belongs in that row: of its form, its section, its watched keys or its history |
| HomeRows.SegmentIff | backend/cs_uk_api/home.py:290-426 | for a limit that is not negative, the row exists iff there is a card that belongs in it |
| HomeRows.HistoryOfOne | backend/cs_uk_api/home.py:353-377 | a key of the history gives the first card that carries it, alone, or nothing |
| HomeRows.HistoryConcat | backend/cs_uk_api/home.py:360-371 | the history goes key by key, in its order |
| HomeRows.SliceIs | backend/cs_uk_api/home.py:371-377 | the history row is cut as Python slices |
| HomeRows.HomeRowsAre | backend/cs_uk_api/home.py:232-430 | the page has the row of every kind that is not hidden, if it has one, and no other, in the decided order |
| HomeRows.HomeKeysResolve | backend/cs_uk_api/_catalog_state/snapshot.py:66-107 | every card of every home row: its key and all its member keys are in the map, with one provider set, which includes every provider the card lists |
| DeepRows.RowIsAlreadyFoldedIff | backend/cs_uk_api/home.py:148-212 | folding the row changes nothing iff no two groups of twins both lie within its cut |
| DeepRows.ExtendRowPool | backend/cs_uk_api/_catalog_state/snapshot.py:473-486 | nothing when no deeper card came, else the snapshot slice followed by what is new in the deeper row |
| DeepRows.AppendFresh | backend/cs_uk_api/_catalog_state/snapshot.py:478-484 | the loop appends exactly the cards of keys not in the pool |
| DeepRows.ExtendedProperties | backend/cs_uk_api/_catalog_state/snapshot.py:476-486 | the slice stays as it is, what follows has new and distinct keys, no key is lost |
| DeepRows.ExtendedIs | backend/cs_uk_api/_catalog_state/snapshot.py:476-486 | what follows the slice are the deeper row's cards in its order, each the first of its key and of a key the slice lacks |
| DeepRows.EveryFetchedGroupKept | backend/cs_uk_api/_catalog_state/snapshot.py:476-486 | the group of every fetched card is in the pool |
| Catalog.Live | backend/cs_uk_api/_catalog_state/_stores.py:524-534 | the registrations that have not expired, unchanged |
| Catalog.AnswerIs | backend/cs_uk_api/_catalog_state/_stores.py:290-313 | no answer iff neither the index nor the live map has the key; otherwise the index entry's card and kind, from the snapshot iff it has a card, and the live map's cards of the key, each once in its order |
| CatalogPromises.SearchedKeyAnswers | backend/cs_uk_api/_catalog_state/_stores.py:399-462 | in every configuration a key a search returned answers at every moment up to the search TTL, whatever searches, replacements and invalidations come between |
| CatalogPromises.ActionableIff | backend/cs_uk_api/_catalog_state/_stores.py:290-462 | in every configuration and from every state whose cards stand under their providers, the answer to the key keeps a card of the searched provider for the search TTL iff that TTL is negative, or the map's is at least as long and either the search finds a key or provider that map or index lack or the map already outlives the search |
| CatalogPromises.RunKeepsUnder | backend/cs_uk_api/_catalog_state/_stores.py:347-462 | over every run the cards of map and registrations stand under their own providers, if they do in the snapshots and searches |
| CatalogPromises.SourcesMapUnder | backend/cs_uk_api/_catalog_state/snapshot.py:66-107 | they do in every map built from listings |
| CatalogPromises.SearchAdds | backend/cs_uk_api/_catalog_state/_stores.py:420-458 | per key and provider, a search keeps the card the map had and the card a live registration had, and otherwise adds the first card it shows; what it registers expires after the search TTL |
| CatalogPromises.FoldChangesIff | backend/cs_uk_api/_catalog_state/_stores.py:420-454 | a search reports a change iff it found a key missing from the map or the index, or a provider missing from its key |
| CatalogPromises.MapDeadlineAfter | backend/cs_uk_api/_catalog_state/_stores.py:455-462 | a search that finds something new renews the map for the home TTL; any other leaves the map's deadline and the index |
| CatalogPromises.RepeatedSearchGap | backend/cs_uk_api/_catalog_state/_stores.py:459-462 | a repeated search whose sources vanish before its TTL is over |
| CatalogProvenance.RunTraced | backend/cs_uk_api/_catalog_state/_stores.py:387-458 | over every run each registered card came from a search for that key through registrations each live at the next |
| CatalogProvenance.RegistrationsComeFromSearches | backend/cs_uk_api/_catalog_state/_stores.py:387-458 | the same from a cold start: no snapshot card is ever registered |
| CatalogProvenance.ReplacementExact | backend/cs_uk_api/_catalog_state/_stores.py:347-395 | after a replacement the map is the new snapshot plus, per key, the live registration's providers it lacks; snapshot cards win; what is persisted is the snapshot alone |
| CatalogProvenance.SearchKeepsEntries | backend/cs_uk_api/_catalog_state/_stores.py:325-345 | a search leaves the snapshot layer as it is |
| CatalogProvenance.ReplacementEntries | backend/cs_uk_api/_catalog_state/_stores.py:546-568 | after a replacement the layer is that snapshot's own |
| CatalogProvenance.SnapshotEntriesAre | backend/cs_uk_api/_catalog_state/_stores.py:325-345 | the layer lists, in index order, the first card of each group key |
| CatalogProvenance.IndexIs | backend/cs_uk_api/_catalog_state/_stores.py:536-544 | under every key the index has the first card, row by row, that claims it, with its row's kind |
| CatalogProvenance.RunLayer | backend/cs_uk_api/_catalog_state/_stores.py:347-487 | over every run the snapshot layer is the last snapshot's own, the file the last persisted one, and the cached home the last snapshot's until dropped; no search and no registration shows in any |
| CatalogOwner.CatalogState.GroupResolution | backend/cs_uk_api/_catalog_state/_stores.py:290-313 | reads the answer off the index and the live map |
| CatalogOwner.CatalogState.SnapshotEntries | backend/cs_uk_api/_catalog_state/_stores.py:325-345 | lists each snapshot card once, in index order |
| CatalogOwner.CatalogState.RegisterSearch | backend/cs_uk_api/_catalog_state/_stores.py:399-462 | mutating the shared map in place computes the search step on the state |
| CatalogOwner.HitsAre | backend/cs_uk_api/_catalog_state/_stores.py:431-434 | a search registers each group's member keys, or its own key where it has none, with the group's provider union |
| CatalogOwner.HitsAreUnder | backend/cs_uk_api/_catalog_state/_stores.py:431-434 | every search puts its cards under their providers |
| CatalogOwner.CatalogState.RegisterKey | backend/cs_uk_api/_catalog_state/_stores.py:415-458 | one key of one group: index, registration and shared map, as the step says |
| CatalogOwner.CatalogState.TakeMap | backend/cs_uk_api/_catalog_state/_stores.py:315-323 | the cached map itself while it lives, a new empty one after that |
| CatalogOwner.CatalogState.ApplySnapshot | backend/cs_uk_api/_catalog_state/_stores.py:347-397 | computes the replacement step; the installed map is a new object, so no later search reaches the caller's map or the file |
| CatalogOwner.CatalogState.Invalidate | backend/cs_uk_api/_catalog_state/_stores.py:466-487 | drops the cached home and nothing else |
| CatalogOwner.Carry | backend/cs_uk_api/_catalog_state/_stores.py:387-395 | merges the live registrations into a copy of the snapshot's map |
| CatalogOwner.IndexRows | backend/cs_uk_api/_catalog_state/_stores.py:536-544 | the first card that claims a key owns its index entry |
| Resolution.MemberAttempts | backend/cs_uk_api/_catalog_state/resolution.py:303-348 | the first usable card of each askable provider, at most three, the lead moved to the front |
| Resolution.CandidatesOnce | backend/cs_uk_api/_catalog_state/resolution.py:329-342 | no provider is asked twice and none without an id |
| Resolution.CandidatesAre | backend/cs_uk_api/_catalog_state/resolution.py:329-342 | the candidates are the first usable card of every provider that has one, in listing order, by the text after its id's first colon |
| Resolution.ContentAttemptsAre | backend/cs_uk_api/_catalog_state/resolution.py:329-342 | a content resolution asks the first three candidates, or all of fewer |
| Resolution.WalkableIff | backend/cs_uk_api/_catalog_state/resolution.py:290-292 | the codes a walk goes past: the lane verdicts, the translation verdicts and not found |
| Resolution.LeadComesFirst | backend/cs_uk_api/_catalog_state/resolution.py:343-348 | leading only reorders, and the lead is first iff it is among the attempts |
| Resolution.LeadBeyondCap | backend/cs_uk_api/_catalog_state/resolution.py:325-348 | four cards of four providers led by the fourth: the group has it and the walk does not ask it |
| Resolution.ContentLeadIsHonoured | backend/cs_uk_api/_catalog_state/resolution.py:317-326 | the play seam always leads with the member whose page answered, if it is registered |
| Resolution.KnownIs | backend/cs_uk_api/_catalog_state/resolution.py:367-384 | a deliberate verdict on a member beats its cached page |
| Resolution.ReadersGoByFirst | backend/cs_uk_api/_catalog_state/resolution.py:387-403 | both cache-only readers go by the first member something is known about |
| Resolution.WalkIs | backend/cs_uk_api/_catalog_state/resolution.py:536-595 | over members nothing is known about, the first registered one whose two calls do not both fail walkably decides the ending, the caches and the calls; if there is none all refused, two calls each |
| Resolution.WalkServesIff | backend/cs_uk_api/_catalog_state/resolution.py:536-643 | a walk is served iff the first member that decides it serves on its first call, or on its second after an error that is not gated, and the country is not blocked; the page is that one under the group's key |
| Resolution.ReadersAgree | backend/cs_uk_api/_catalog_state/resolution.py:513-595 | after a resolution the cache-only readers name the serving member and page, or say hard-unavailable after a deliberate stop, or neither after refusals; at most three members and six upstream calls |
| Resolution.ResolveAgrees | backend/cs_uk_api/_catalog_state/resolution.py:387-403 | the same for any attempts with distinct providers; a cached page answers without touching anything |
| Resolution.ServedStays | backend/cs_uk_api/_catalog_state/resolution.py:526-534 | a served group is served again, the same page, with no upstream call |
| Resolver.Resolver.FetchMember | backend/cs_uk_api/_catalog_state/resolution.py:598-643 | the first call's answer if it serves or is gated, and then one call is spent; otherwise the second call's, and two are |
| Resolver.Resolver.AskMember | backend/cs_uk_api/_catalog_state/resolution.py:556-591 | what one member's answer does to the caches and the walk |
| Resolver.Resolver.WalkMembers | backend/cs_uk_api/_catalog_state/resolution.py:536-595 | the loop computes the walk |
| Resolver.Resolver.ResolveOnce | backend/cs_uk_api/_catalog_state/resolution.py:513-595 | a page already resolved first, else the walk |
| SingleFlight.OneFlightPerKey | backend/cs_uk_api/_catalog_state/resolution.py:491-510 | in every interleaving at most one unfinished resolution per key; the map holds exactly the resolutions whose leader has not returned, and is empty once nobody waits |
| SingleFlight.VerdictIsShared | backend/cs_uk_api/_catalog_state/resolution.py:499-505 | every caller returns the verdict of the resolution in the map when it arrived, or of the one it created |
| HttpCache.UpsertRows | backend/cs_uk_api/http_cache.py:161-171 | a stored page replaces the row of its url, or joins the table; every other row stays and no url has two |
| HttpCache.UpsertPlaces | backend/cs_uk_api/http_cache.py:161-171 | a known url keeps its place in the table, a new one comes last |
| HttpCache.EvictProperties | backend/cs_uk_api/http_cache.py:221-235 | eviction fits the budget, keeps only rows it had, none older than an evicted one, and stops as soon as it fits |
| HttpCache.ConditionalCache.Get | backend/cs_uk_api/http_cache.py:130-149 | the page it returns is the table's row of that url, and it returns none only if no row has it |
| HttpCache.ConditionalCache.Put | backend/cs_uk_api/http_cache.py:151-183 | stores the page and evicts to the budget: the bodies fit after every put |
| HttpCache.ConditionalCache.EnforceSizeCap | backend/cs_uk_api/http_cache.py:221-235 | the loop ends and computes the eviction |
| HttpCache.ConditionalCache.Touch | backend/cs_uk_api/http_cache.py:185-200 | renews the validators and the time of the url's row and keeps its body |
| CachingTransport.CachingTransport.Depart | backend/cs_uk_api/http_cache.py:302-315 | adds the stored validators unless the caller sent its own |
| CachingTransport.CachingTransport.Arrive | backend/cs_uk_api/http_cache.py:316-331 | replays a 304 from the table, or from the page found before if its row is gone; stores a 200; passes the rest through |
| CachingTransport.CachingTransport.Store | backend/cs_uk_api/http_cache.py:333-352 | stores only a page with a validator, a textual type and a body within the limit |
| CachingTransport.IsStoredIff | backend/cs_uk_api/http_cache.py:333-352 | stored is the textual 200 answer to a GET of at most 4 MiB, with a tag or a sound date, and nothing else |
| CachingTransport.StoredIsFound | backend/cs_uk_api/http_cache.py:333-352 | such a page that fits the budget is in the table afterwards |
| CachingTransport.FoundIsRevalidated | backend/cs_uk_api/http_cache.py:302-331 | a plain GET of a page in the table carries its validators, and a 304 to it is answered with the stored body |
| CachingTransport.CallerConditionPasses | backend/cs_uk_api/http_cache.py:303-307 | a caller's own condition goes out, and its answer comes back, unchanged |
| CachingTransport.RefinesDirectFetchIff | backend/cs_uk_api/http_cache.py:302-352 | over every interleaving every unconditional GET is answered as by a direct fetch iff no 304 arrives to find another body stored under its url |
| CachingTransport.RefinesDirectFetch | backend/cs_uk_api/http_cache.py:302-352 | with one GET per url under way at a time every caller is answered as by a direct fetch |
| CachingTransport.BudgetKept | backend/cs_uk_api/http_cache.py:302-352 | in every run, whatever the database held, the stored bodies never exceed both the budget and what was there, and fit the budget from the first stored page on |
| CachingTransport.OverlapPoisons | backend/cs_uk_api/http_cache.py:316-331 | a run of two overlapping GETs after which a GET alone on the wire is answered wrongly |
| CachingTransport.ReusedValidatorMisleads | backend/cs_uk_api/http_cache.py:302-352 | an origin whose stored validator comes to name another body is answered wrongly, one request at a time |
| DebouncedSave.InOrderIff | backend/cs_uk_api/versioned_store.py:197-257 | in every interleaving no request is written twice, and the file goes through the requests in order iff no flush wrote during a worker's write |
| DebouncedSave.SettledIff | backend/cs_uk_api/versioned_store.py:241-257 | when flush or close has returned, the file holds the last request until the next one iff the worker is not writing and that request's flush was not overtaken |
| DebouncedSave.ClosedDisk | backend/cs_uk_api/versioned_store.py:250-257 | when close returns the file holds the last request iff its flush was not overtaken |
| DebouncedSave.SettledStays | backend/cs_uk_api/versioned_store.py:197-257 | with nothing pending and no write under way the file changes only after a new request |
| DebouncedSave.FlushOvertaken | backend/cs_uk_api/versioned_store.py:218 | a run that closes with an older payload in the file |
| VersionedStore.LoadSaved | backend/cs_uk_api/versioned_store.py:135-174 | what is saved is loaded back whenever the adapter decodes what it encodes |
| Utf8.DecodeEncode | backend/cs_uk_api/versioned_store.py:135-174 | decoding the encoding of a text gives it back |
| Utf8.DecodesIff | backend/cs_uk_api/versioned_store.py:138 | strict decoding succeeds exactly on the bytes that encode some text |
| VersionedStore.LoadSavedBytes | backend/cs_uk_api/versioned_store.py:135-174 | the same down to the bytes of the file |
| VersionedStore.LoadRaisesIff | backend/cs_uk_api/versioned_store.py:135-164 | an exception leaves load iff the file holds bytes that encode no text, or encode a text on which the parser raises something else than JSONDecodeError |
| VersionedStore.LoadRaises | backend/cs_uk_api/versioned_store.py:137-143 | it leaves on a stray byte, an overlong form, a surrogate and a cut character |
| VersionedStore.LongNumeralRaises | backend/cs_uk_api/versioned_store.py:144-148 | a file of more than 4300 ones raises under Python's limit on integer digits |
| VersionedStore.LoadGivesIff | backend/cs_uk_api/versioned_store.py:135-164 | load gives a payload iff the file encodes a text whose document has a supported version and whose data decodes to that payload |
| ResumeStore.Decode | backend/cs_uk_api/resume_store.py:80-109 | what is decoded has positive integer positions, numeric fields and at most 50 queries |
| ResumeStore.DecodeIs | backend/cs_uk_api/resume_store.py:80-109 | exactly what is read of a file's data: which items, with which fields, how many queries, which history |
| ResumeStore.StringsConcat | backend/cs_uk_api/resume_store.py:93-99 | the queries are read one by one, in order |
| ResumeStore.StringsOfOne | backend/cs_uk_api/resume_store.py:93-99 | each if it is a string |
| ResumeStore.DecodeEncode | backend/cs_uk_api/resume_store.py:65-120 | decoding an encoded state gives it back |
| ResumeStore.RestartOfFile | backend/cs_uk_api/resume_store.py:136-176 | a store opened on a written file holds the state that was written |
| ResumeStore.FinishesIff | backend/cs_uk_api/resume_store.py:236-246 | a report finishes an item iff it reaches 95 percent of the reported runtime, or failing that of the stored one |
| ResumeStore.RecordedIs | backend/cs_uk_api/resume_store.py:218-275 | the entry of a report is the reported position, time and runtime or else the stored one; a finishing report moves the item to the history; no other entry changes, but the stalest leaves a shelf grown over 50 |
| ResumeStore.StampIs | backend/cs_uk_api/resume_store.py:263-275 | an entry never stamped counts as the oldest |
| ResumeStore.RequestWaits | backend/cs_uk_api/versioned_store.py:284-316 | in a loop a request writes nothing, cancels the armed timer and arms a new one; without one it writes at once |
| ResumeStore.StepWaits | backend/cs_uk_api/resume_store.py:195-257 | a heartbeat, a query and a clear reach the file by their timer only, a Stopped report at once |
| ResumeStore.WithinCapIff | backend/cs_uk_api/resume_store.py:263-275 | a report leaves the shelf within the cap iff it was within, or one over and the item was on it |
| ResumeStore.OverCapStays | backend/cs_uk_api/resume_store.py:263-275 | a file of two entries more than the cap is read in full and still over it after any report |
| ResumeStore.ReportStaysIff | backend/cs_uk_api/resume_store.py:263-275 | the reported item stays iff the shelf has room or some other entry is older; the entries that stay are unchanged |
| ResumeStore.SetBackDropsReport | backend/cs_uk_api/resume_store.py:263-275 | on a full shelf a new report stamped before all others is dropped at once |
| ResumeStore.StepKeepsInv | backend/cs_uk_api/resume_store.py:195-214 | every operation keeps the state decodable and the file in step or a write armed; flush, a Stopped report and a timer callback leave the file in step; the file never loads as anything but its old or the present state |
| ResumeStore.RestartEquivalence | backend/cs_uk_api/resume_store.py:185-257 | over every run a restart gives the state in memory, or a write is pending whose armed callback brings the file up to date |
| ResumeStore.Resume.constructor | backend/cs_uk_api/resume_store.py:136-176 | starts from the file, or empty when it is not a sound one |
| ResumeStore.Resume.RecordPosition | backend/cs_uk_api/resume_store.py:218-257 | computes the report step on state, file and timer; a Stopped report with a position leaves the file in step |
| ResumeStore.Resume.Note | backend/cs_uk_api/resume_store.py:236-256 | watched to the end leaves the shelf for the history, anything else updates the entry and caps the shelf |
| ResumeStore.Resume.Cap | backend/cs_uk_api/resume_store.py:263-275 | over the cap removes exactly the least recently updated entry, ties to the smaller key |
| ResumeStore.Resume.RecordSearch | backend/cs_uk_api/resume_store.py:337-348 | moves the query to the front, keeps 50, schedules the write |
| ResumeStore.Resume.Request | backend/cs_uk_api/versioned_store.py:296-316 | arms one timer in place of the last, or writes at once without a loop |
| ResumeStore.Resume.TimerFires | backend/cs_uk_api/versioned_store.py:284-294 | a callback, stale or not, writes what is pending and nothing else |
| ResumeStore.Resume.FlushNow | backend/cs_uk_api/resume_store.py:207-214 | leaves the file in step |
| ResumeStore.Resume.ClearAll | backend/cs_uk_api/resume_store.py:354-363 | empties the store and replaces the pending write |
| ResumeViews.RecentQueries | backend/cs_uk_api/resume_store.py:337-352 | the list kept at 50 at every step is the 50 most recently asked of all queries ever asked, in order of last use |
| ResumeViews.History | backend/cs_uk_api/resume_store.py:325-335 | active and finished items together, newest first, at most the limit |
| ResumeViews.Recent | backend/cs_uk_api/resume_store.py:291-299 | active items, newest first, at most the limit |
| ResumeViews.HistoryRepeatsIff | backend/cs_uk_api/resume_store.py:325-335 | the history names an item twice iff it is on the shelf and was finished before, and names exactly the items of both |
| ResumeViews.RecentDistinct | backend/cs_uk_api/resume_store.py:291-299 | the resume row never repeats an item |
| ResumeViews.FinishedOnce | backend/cs_uk_api/resume_store.py:246-252 | a finishing report leaves the item in the history exactly once |
| Baseline.ComputeDistribution | backend/cs_uk_api/drift/baseline.py:246-258 | the counting loop gives each value its share of all values |
| Baseline.ShareIs | backend/cs_uk_api/drift/baseline.py:246-258 | a share is the part the value's occurrences make of all values |
| Baseline.PartTimes | backend/cs_uk_api/drift/baseline.py:246-258 | a part times the total is what it is a part of; of nothing it is 0 |
| Baseline.VerdictIs | backend/cs_uk_api/drift/baseline.py:271-339 | broken iff unusable; otherwise out of shape iff fewer cards than the calibrated low or a form or style of at least a fifth has fallen under a twentieth; never out of shape without a signature |
| Baseline.HealthyAgainstItself | backend/cs_uk_api/drift/baseline.py:271-366 | a listing is healthy against the signature updated with it iff it is usable |
| Baseline.GrowthIsHealthy | backend/cs_uk_api/drift/baseline.py:271-339 | growth up to fourfold in cards and style tags never trips the verdict |
| Baseline.GrowthSafeIff | backend/cs_uk_api/drift/baseline.py:271-339 | every growth to a size and a number of style tags stays healthy iff the size is at most twenty times the cards of each significant form, and the tags at most twenty times those of each significant style, counting the ones new cards cannot avoid repeating |
| Baseline.GrowthTrips | backend/cs_uk_api/drift/baseline.py:326-338 | two movies of which one is anime, grown by twenty cartoons or more, trip the verdict |
| Attestation.JudgeIff | backend/cs_uk_api/drift/attestation.py:111-162 | for every window of requests and reports: it accuses iff it served and the streams still playing and repeated requests are no more than the late and repeated reports, and acquits iff they are more |
| Attestation.NoEvidenceIff | backend/cs_uk_api/drift/attestation.py:111-162 | no evidence iff a first sweep, counters that went back or nothing served; the counts are the differences |
| Attestation.VerdictRightIff | backend/cs_uk_api/drift/attestation.py:111-162 | accusing iff every stream stopped and acquitting iff one plays holds iff, with none playing, repeated requests do not exceed the surplus reports, or with some playing, the surplus reports do not make up for them and the repeated requests |
| Attestation.WindowJudgedRightIff | backend/cs_uk_api/drift/attestation.py:111-162 | in every run of consecutive windows each is judged right iff its own counts tell, whatever came before |
| Attestation.PairedStopsJudgedRight | backend/cs_uk_api/drift/attestation.py:111-162 | a window in which each stream is reported never, or once for every request it served, is judged right |
| Attestation.RepeatedRequestAcquits | backend/cs_uk_api/play_request.py:193-196 | a stream requested twice and reported stopped once: all stopped, yet acquitted |
| Attestation.RepeatedReportAccuses | backend/cs_uk_api/jellyfin/playback_reports.py:67-68 | one of two streams reported stopped twice: the other plays and no report is late, yet accused |
| Attestation.LateStopMisjudged | backend/cs_uk_api/play_attestation.py:115-117 | a stop that comes a window late acquits a failing stream and accuses a playing one |
| Attestation.WindowsAddUp | backend/cs_uk_api/drift/attestation.py:111-162 | consecutive windows add up to all that was served |
| Monitor.Monitor.SweepListing | backend/cs_uk_api/drift/monitor.py:208-256 | one provider's probe: counters, streak, recalibration, signature and issue, and no other provider's |
| Monitor.Monitor.SweepPlayback | backend/cs_uk_api/drift/monitor.py:346-366 | one lane's playback verdict: its counter, reference and issue, and no other lane's |
| Monitor.Monitor.MaybeFile | backend/cs_uk_api/drift/monitor.py:377-469 | files on the second failure in a row unless an issue is open or the lookup failed |
| Monitor.Monitor.MaybeClose | backend/cs_uk_api/drift/monitor.py:559-588 | comments on and closes the open issue, unless a call fails first |
| Monitor.Monitor.RunOnce | backend/cs_uk_api/drift/monitor.py:159-290 | a run leaves every provider as its own observations, probes before playback, make it |
| MonitorPromises.CountersStayOk | backend/cs_uk_api/drift/monitor.py:219-256 | along every run the shape streak is at most two and at most the failures in a row |
| MonitorPromises.BandWidens | backend/cs_uk_api/drift/baseline.py:342-366 | along every run the band's low only falls, its high only grows, and a signature is never lost |
| MonitorPromises.FailsIff | backend/cs_uk_api/drift/monitor.py:208-256 | a probe is reported iff its listing is unusable or its deep probe failed, or the shape is lost for the first or second time in a row |
| MonitorPromises.CountersAre | backend/cs_uk_api/drift/monitor.py:208-366 | over every run each counter is the number of failures, shape losses or accusations since the last sweep that ended otherwise, each playback window judged from the lane's last counters |
| MonitorPromises.SignatureIs | backend/cs_uk_api/drift/baseline.py:342-366 | over every run the band reaches from the smallest to the largest listing the provider was calibrated with, and the distributions are the last one's |
| MonitorPromises.SmallerFails | backend/cs_uk_api/drift/baseline.py:301-311 | a listing smaller than all of those is reported, unless it is usable, its deep probe passes and it is the third shape loss in a row |
| MonitorPromises.IssueMovesIff | backend/cs_uk_api/drift/monitor.py:377-588 | when a sweep opens an issue and when it closes one, for every way the tracker can fail |
| MonitorPromises.Converges | backend/cs_uk_api/drift/monitor.py:219-256 | a provider that keeps serving one usable listing fails at most two probes ever, and exactly how many |
| MonitorPromises.NeverExcused | backend/cs_uk_api/drift/monitor.py:219-256 | an unusable listing or a failing deep probe fails every time |
| MonitorPromises.IssuesMatch | backend/cs_uk_api/drift/monitor.py:346-588 | with a tracker that works whenever the provider is swept an issue is open, and only one, exactly for an axis with two failures in a row or more |
| MonitorPromises.NeverTwoIssues | backend/cs_uk_api/drift/monitor.py:377-588 | however the tracker fails there is never a second open issue for one provider and fault |
| MonitorPromises.ListingIndependent | backend/cs_uk_api/drift/monitor.py:219-256 | the listing axis, its issue included, depends on the provider's own probes alone |
| MonitorPromises.PlaybackIndependent | backend/cs_uk_api/drift/monitor.py:346-366 | the playback axis, its issue included, depends on the lane's own playback alone |
| MonitorPromises.ProbeRepairsIff | backend/cs_uk_api/drift/monitor.py:377-588 | after an outage one working probe makes the issue right unless it is a first failure with a stale issue open |
| MonitorPromises.TwoProbesRepair | backend/cs_uk_api/drift/monitor.py:377-588 | two working probes always do |
| MonitorPromises.TwoPlaysRepair | backend/cs_uk_api/drift/monitor.py:346-366 | two working sweeps with evidence do on the playback axis |
| Rotation.RotateDeepProviders | backend/cs_uk_api/drift/probe.py:198-219 | the wrapping loop picks the day's window of the eligible providers |
| Rotation.EligibleIs | backend/cs_uk_api/drift/probe.py:209 | the rotation is over exactly the providers that are not excluded, each once |
| Rotation.CoverageIff | backend/cs_uk_api/drift/probe.py:198-219 | from any day the subsets of some consecutive days cover every provider iff the days' probes number at least as many |
| Rotation.EarlyCoverage | backend/cs_uk_api/drift/probe.py:198-219 | four providers over a period of three days are covered in two |
| Rotation.FullPeriod | backend/cs_uk_api/drift/probe.py:198-219 | a full period covers every provider; each subset has ceil(count / period) of them |
| Dates.IsoOrder | backend/cs_uk_api/crawl_guard.py:116-117 | comparing ISO strings compares the dates |
| Dates.AddDaysOrder | backend/cs_uk_api/crawl_guard.py:141 | shifting two dates by the cooldown keeps their order |
| Dates.AddDaysIs | backend/cs_uk_api/crawl_guard.py:142 | adding days moves the day number by as many |
| Dates.YearsBeforeIs | backend/cs_uk_api/crawl_guard.py:142 | the day number is the Gregorian calendar's |
| CrawlGuard.SaveLoad | backend/cs_uk_api/crawl_guard.py:169-208 | what is saved is loaded back |
| CrawlGuard.ProviderGuard.constructor | backend/cs_uk_api/crawl_guard.py:94-106 | clamps the threshold and the cooldown and starts from the file |
| CrawlGuard.ProviderGuard.IsBlocked | backend/cs_uk_api/crawl_guard.py:108-118 | compares the stored day with today |
| CrawlGuard.ProviderGuard.Record | backend/cs_uk_api/crawl_guard.py:120-153 | updates the entry and reports a trip exactly at the threshold |
| CrawlGuard.ProviderGuard.Partition | backend/cs_uk_api/crawl_guard.py:155-167 | splits the selection into walked and skipped, each in order |
| CrawlGuard.PartitionIs | backend/cs_uk_api/crawl_guard.py:155-167 | the walked are exactly the providers that are not blocked and the skipped exactly those that are, each in order, with what blocks them |
| CrawlGuard.ProviderGuard.Save | backend/cs_uk_api/crawl_guard.py:169-184 | the file loads as the entries |
| CrawlGuard.ReplayReflects | backend/cs_uk_api/crawl_guard.py:120-153 | over every run, restarts included, the nights are the distinct days of the current run of 403s and the stored day is the last trip's, unless the provider answered |
| CrawlGuard.BlockedIff | backend/cs_uk_api/crawl_guard.py:108-153 | a provider is blocked on a day iff some report tripped the breaker since its last answer, less than the cooldown before |
| CrawlGuard.BlockedUntil | backend/cs_uk_api/crawl_guard.py:108-153 | what a block reports: the nights of the current run of 403s and the end of the latest trip's cooldown |
| CrawlGuard.Disabled | backend/cs_uk_api/crawl_guard.py:105-131 | a threshold of 0 blocks nobody and remembers nothing |
| Teleport.HashDistance | backend/cs_uk_api/teleport.py:146-147 | at most 32 bits differ, and none iff the hashes agree in their low 32 bits |
| Teleport.HashDistanceIs | backend/cs_uk_api/teleport.py:146-147 | the distance of two hashes is the number of their low 32 bits that differ |
| Teleport.DistanceConcat | backend/cs_uk_api/teleport.py:225-228 | the distance of two stretches adds up |
| Teleport.DistanceOfOne | backend/cs_uk_api/teleport.py:225-228 | and over one hash it is that hash's |
| Teleport.ScoreIs | backend/cs_uk_api/teleport.py:229 | a score is the part of the core's bits that agree |
| Teleport.RateIs | backend/cs_uk_api/teleport.py:150-170 | the frames by which the candidate is longer over the seconds by which it is, or its own frames over its seconds |
| Teleport.TrimIs | backend/cs_uk_api/teleport.py:204 | two seconds of frames to the nearest whole number, halves to the even, at least one |
| Teleport.QuietIff | backend/cs_uk_api/teleport.py:208-217 | a core is turned away iff it has fewer than 30 hashes, fewer than 30 different ones, or fewer than three in five of a middling number of bits |
| Teleport.ValidConcat | backend/cs_uk_api/teleport.py:211-215 | the count of such hashes adds up |
| Teleport.ValidOfOne | backend/cs_uk_api/teleport.py:211-215 | and one counts iff it has 6 to 26 bits set |
| Teleport.TurnedAwayIff | backend/cs_uk_api/teleport.py:190-217 | exactly which pairs are turned away before the search, why, and what is searched otherwise |
| Teleport.ComputeScores | backend/cs_uk_api/teleport.py:224-231 | the loop scores every offset from the trim on |
| Teleport.SearchFor | backend/cs_uk_api/teleport.py:220-249 | scores, picks the winner and the margin, and gives the verdict |
| Teleport.MatchFingerprints | backend/cs_uk_api/teleport.py:173-249 | the guards in their order, then the search |
| Teleport.ScoreBounds | backend/cs_uk_api/teleport.py:226-231 | a score lies in [0, 1] and is 1 exactly where the core occurs |
| Teleport.WinnerMargin | backend/cs_uk_api/teleport.py:233-236 | the winner is a searched frame whose confidence lies in [0, 1]; its margin suffices iff no frame further than two seconds comes within it |
| Teleport.MatchedIff | backend/cs_uk_api/teleport.py:233-249 | a match is reported iff the best score reaches 0.80 and every frame further than two seconds scores at least 0.05 lower |
| Teleport.OutcomeIs | backend/cs_uk_api/teleport.py:219-249 | the whole answer of a search: status, place, confidence, margin and reason |
| Teleport.ContainedIsFound | backend/cs_uk_api/teleport.py:220-249 | a candidate that contains the core is never a no-match, its confidence is 1, and a match is within two seconds of every occurrence |
| Teleport.ReferenceIsFound | backend/cs_uk_api/teleport.py:173-249 | the whole matcher on a reference that occurs in full: a match is within two seconds of where it starts |
| Teleport.ConstantNeverMatches | backend/cs_uk_api/teleport.py:211-217 | a constant reference, such as silence, never matches |

## Left out

- Title normalisation, transliteration and the year inside a title: parameters of the identity rules; only what `Lawful` states is assumed of them.
- The SHA-1 digest: 64 bits of it make a key; the model takes it to be injective.
- Unicode digits in the IMDb pattern: `\d` also matches digits outside ASCII, the model's ids hold ASCII digits only.
- Card fields that only travel (posters, styles and genres of home cards, urls, row titles), genre rails, and the year and genre fallbacks of a group's answer.
- Providers as dictionary keys: a provider's listing is known by its place in the sequence.
- The caches of home rows, deep rows and deep pages, and the lock of `TtlCache`.
- `seed_sources`, `reset` and the module-level accessors of the catalog owner: plumbing.
- Other traffic during a member walk: the walk and its readers are modelled with no other writer of their caches, and with caches that do not expire.
- Cancellation, and exceptions that leave a resolution: the single-flight steps have verdicts only.
- Stored response headers, corrupt rows, pruning by age, summaries and closing of the HTTP cache; the content-type test is a flag of the reply.
- Origins that answer 304 to a date later than their own, or whose validator comes to name another body: `Permitted` and `Honest` exclude them. That is more than RFC 9110 does: its section 13.1.3 makes the condition false for any date earlier or equal, and section 8.8.2 takes Last-Modified for a weak validator. Without the second assumption the refinement fails (`ReusedValidatorMisleads`).
- Request headers that select a representation (Range, Vary): a url has one representation at a time.
- Timing: a debounce or a condition wait may end at any moment; only the order of steps is modelled.
- Failing writes, a number too long to print, NaN and infinities, lone surrogates: writes succeed, numbers are reals and characters are Unicode scalar values.
- The JSON parser and printer: parameters of `LoadDisk`; only that one reads back what the other wrote is assumed, and for `LongNumeralRaises` the limit on digits.
- `AsyncDebouncedSave.close`: the resume store never calls it.
- `positions` and `positions_entries` of the resume store: sorted copies.
- Floating point: fractions, rates, scores and clock times are reals, so rounding is not modelled.
- Saving and loading the drift baseline: the encode and decode pair is plainer than the resume store's.
- The monitor's report, issue texts and the titles that key the tracker; a tracker lookup that answers wrongly.
- The GitHub gateway, HTTP fetching, ffmpeg and fpcalc, SQLite: foreign calls, given as parameters or replies.
- `classify` of the crawl guard and the local-day clock: a verdict and a date are inputs.
- Dates past the year 9999: Python's `date` raises there; the runs stay in its range.
- Provider adapters, the media-server facade, recommendations, torrents, scripts: outside this model.
