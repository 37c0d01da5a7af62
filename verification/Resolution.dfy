// _catalog_state/resolution.py: the member walk, and the functions that answer from the
// caches alone and must agree with it.
module Resolution {
  import opened Seqs
  import opened Wrappers
  import opened WireIdentity

  // A member of a group: a provider and the card's bare external id. It is also the cache
  // key `content:{provider}:{external}`.
  datatype Member = Member(provider: string, external: string)

  datatype Page = Page(body: string, country: string, groupKey: string)

  // The verdict codes of the health taxonomy, and any other.
  datatype Code =
    | GATED | NOT_FOUND | INVALID_TRANSLATION | TRANSLATION_MISSING
    | UNREACHABLE | UPSTREAM_UNREACHABLE | PARSE_FAILED | TIMEOUT | INTERNAL
    | OTHER(name: string)

  predicate LaneVerdict(code: Code) {
    code in {UNREACHABLE, UPSTREAM_UNREACHABLE, PARSE_FAILED, TIMEOUT, INTERNAL}
  }

  // WALKABLE_VERDICT_CODES: refusals that the group's next member may repair.
  predicate Walkable(code: Code) {
    LaneVerdict(code) || code in {INVALID_TRANSLATION, TRANSLATION_MISSING, NOT_FOUND}
  }

  // `gated` is never walked past, nor is any code outside the taxonomy.
  lemma WalkableIff(code: Code)
    ensures Walkable(code) <==> code in {
      UNREACHABLE, UPSTREAM_UNREACHABLE, PARSE_FAILED, TIMEOUT, INTERNAL,
      INVALID_TRANSLATION, TRANSLATION_MISSING, NOT_FOUND}
  {}

  // What one upstream content() call does.
  datatype Outcome = Served(page: Page) | Refused(code: Code) | Crashed

  datatype Caches = Caches(gated: map<Member, bool>, blocked: set<Member>, content: map<Member, Page>)

  datatype World = World(caches: Caches, calls: nat)

  // The registered providers, the country block, and the upstreams: the outcome of the
  // n-th call made.
  datatype Setting = Setting(
    registered: set<string>,
    blocks: string -> bool,
    upstream: (Member, nat) -> Outcome)

  const MAX_MEMBER_ATTEMPTS: nat := 3

  // ---------------------------------------------------------------- member_attempts

  // `id.partition(":")[2]`
  function AfterColon(id: string): string {
    if id == "" then "" else if id[0] == ':' then id[1..] else AfterColon(id[1..])
  }

  predicate Asks(ms: seq<Member>, provider: string) {
    exists i :: 0 <= i < |ms| && ms[i].provider == provider
  }

  // The first usable card of each provider the walk may ask, in first-seen order.
  function Candidates(sources: seq<SearchResult>, ask: string -> bool): seq<Member> {
    if sources == [] then []
    else
      var n := |sources| - 1;
      var before := Candidates(sources[..n], ask);
      var s := sources[n];
      if Asks(before, s.provider) || !ask(s.provider) || AfterColon(s.id) == "" then before
      else before + [Member(s.provider, AfterColon(s.id))]
  }

  function Keep(ms: seq<Member>, lead: string, same: bool): seq<Member> {
    if ms == [] then []
    else (if (ms[0].provider == lead) == same then [ms[0]] else []) + Keep(ms[1..], lead, same)
  }

  function Led(ms: seq<Member>, lead: Option<string>): seq<Member> {
    if lead.None? || Keep(ms, lead.value, true) == [] then ms
    else Keep(ms, lead.value, true) + Keep(ms, lead.value, false)
  }

  method MemberAttempts(sources: seq<SearchResult>, lead: Option<string>, ask: string -> bool)
    returns (attempts: seq<Member>)
    ensures attempts == Led(Front(Candidates(sources, ask), MAX_MEMBER_ATTEMPTS), lead)
  {
    attempts := [];
    var asked: set<string> := {};
    for i := 0 to |sources|
      invariant attempts == Candidates(sources[..i], ask) && |attempts| < MAX_MEMBER_ATTEMPTS
      invariant forall p :: p in asked <==> Asks(attempts, p)
    {
      assert sources[..i + 1][..i] == sources[..i] && sources[..i + 1][i] == sources[i];
      var s := sources[i];
      var external := AfterColon(s.id);
      if s.provider !in asked && ask(s.provider) && external != "" {
        AsksSnoc(attempts, Member(s.provider, external));
        asked := asked + {s.provider};
        attempts := attempts + [Member(s.provider, external)];
        if |attempts| == MAX_MEMBER_ATTEMPTS {
          CandidatesGrow(sources, i + 1, |sources|, ask);
          assert sources[..|sources|] == sources;
          assert Front(Candidates(sources, ask), MAX_MEMBER_ATTEMPTS) == attempts;
          attempts := Led(attempts, lead);
          return;
        }
      }
    }
    assert sources[..|sources|] == sources;
    attempts := Led(attempts, lead);
  }

  lemma AsksSnoc(ms: seq<Member>, m: Member)
    ensures forall p :: Asks(ms + [m], p) <==> Asks(ms, p) || p == m.provider
  {
    forall p ensures Asks(ms + [m], p) <==> Asks(ms, p) || p == m.provider {
      if Asks(ms, p) {
        var i :| 0 <= i < |ms| && ms[i].provider == p;
        assert (ms + [m])[i].provider == p;
      }
      assert (ms + [m])[|ms|] == m;
    }
  }

  lemma {:induction false} CandidatesGrow(sources: seq<SearchResult>, m: nat, n: nat, ask: string -> bool)
    requires m <= n <= |sources|
    ensures Candidates(sources[..m], ask) <= Candidates(sources[..n], ask)
  {
    if m < n {
      CandidatesGrow(sources, m, n - 1, ask);
      assert sources[..n][..n - 1] == sources[..n - 1];
    }
  }

  ghost predicate OncePerProvider(ms: seq<Member>) {
    forall i, j :: 0 <= i < j < |ms| ==> ms[i].provider != ms[j].provider
  }

  lemma {:induction false} CandidatesOnce(sources: seq<SearchResult>, ask: string -> bool)
    ensures OncePerProvider(Candidates(sources, ask))
    ensures forall m :: m in Candidates(sources, ask) ==> ask(m.provider) && m.external != ""
  {
    if sources != [] {
      CandidatesOnce(sources[..|sources| - 1], ask);
    }
  }

  // A card the walk can use: a provider it may ask, and an id after the first colon.
  ghost predicate Usable(card: SearchResult, ask: string -> bool) {
    ask(card.provider) && HasExternal(card.id)
  }

  // `external` is what follows the first colon of the card's id.
  ghost predicate FollowsColon(id: string, external: string) {
    exists k :: 0 <= k < |id| && id[k] == ':' && ':' !in id[..k] && external == id[k + 1..]
  }

  ghost predicate HasExternal(id: string) {
    exists k :: 0 <= k < |id| - 1 && id[k] == ':'
  }

  lemma {:induction false} AfterColonIs(id: string)
    ensures AfterColon(id) != "" ==> FollowsColon(id, AfterColon(id))
    ensures AfterColon(id) != "" <==> HasExternal(id)
  {
    if id != "" {
      if id[0] == ':' {
        assert ':' !in id[..0] && id[0 + 1..] == AfterColon(id);
      } else {
        AfterColonIs(id[1..]);
        FollowsLater(id, AfterColon(id));
        ExternalLater(id);
      }
    }
  }

  lemma FollowsLater(id: string, external: string)
    requires id != "" && id[0] != ':'
    ensures FollowsColon(id[1..], external) ==> FollowsColon(id, external)
  {
    var rest := id[1..];
    if FollowsColon(rest, external) {
      var k :| 0 <= k < |rest| && rest[k] == ':' && ':' !in rest[..k] && external == rest[k + 1..];
      assert id[k + 1] == ':' && id[..k + 1] == [id[0]] + rest[..k] && rest[k + 1..] == id[k + 1 + 1..];
    }
  }

  lemma ExternalLater(id: string)
    requires id != "" && id[0] != ':'
    ensures HasExternal(id[1..]) <==> HasExternal(id)
  {
    var rest := id[1..];
    if HasExternal(rest) {
      var k :| 0 <= k < |rest| - 1 && rest[k] == ':';
      assert id[k + 1] == ':';
    }
    if HasExternal(id) {
      var k :| 0 <= k < |id| - 1 && id[k] == ':';
      assert rest[k - 1] == ':';
    }
  }

  // The candidate stands for this card: the first usable one of its provider.
  ghost predicate FirstUsable(sources: seq<SearchResult>, ask: string -> bool, i: nat, m: Member) {
    && i < |sources| && Usable(sources[i], ask)
    && m.provider == sources[i].provider && FollowsColon(sources[i].id, m.external)
    && forall j :: 0 <= j < i && Usable(sources[j], ask) ==> sources[j].provider != m.provider
  }

  ghost predicate AllAsked(sources: seq<SearchResult>, ask: string -> bool, ms: seq<Member>) {
    forall i :: 0 <= i < |sources| && Usable(sources[i], ask) ==> Asks(ms, sources[i].provider)
  }

  // These cards, in listing order, are the ones the members stand for.
  ghost predicate StandAt(sources: seq<SearchResult>, ask: string -> bool, ms: seq<Member>, at: seq<nat>) {
    && |at| == |ms| && (forall k, l :: 0 <= k < l < |at| ==> at[k] < at[l])
    && (forall k :: 0 <= k < |at| ==> FirstUsable(sources, ask, at[k], ms[k]))
  }

  // The candidates are the first usable card of each provider that has one, in listing order.
  lemma {:induction false} CandidatesAre(sources: seq<SearchResult>, ask: string -> bool) returns (at: seq<nat>)
    ensures StandAt(sources, ask, Candidates(sources, ask), at) && AllAsked(sources, ask, Candidates(sources, ask))
  {
    at := [];
    if sources != [] {
      var n := |sources| - 1;
      assert sources == sources[..n] + [sources[n]];
      at := CandidatesAre(sources[..n], ask);
      CandidatesStep(sources, ask);
      var before, after := Candidates(sources[..n], ask), Candidates(sources, ask);
      at := StandSnoc(sources[..n], sources[n], sources, ask, before, at, after);
    }
  }

  lemma StandSnoc(sources: seq<SearchResult>, last: SearchResult, more: seq<SearchResult>, ask: string -> bool,
      ms: seq<Member>, at: seq<nat>, out: seq<Member>) returns (at': seq<nat>)
    requires more == sources + [last]
    requires StandAt(sources, ask, ms, at) && AllAsked(sources, ask, ms) && Steps(ms, last, ask, out)
    ensures StandAt(more, ask, out, at') && AllAsked(more, ask, out)
  {
    AsksSnoc(ms, Member(last.provider, AfterColon(last.id)));
    forall k | 0 <= k < |at| ensures FirstUsable(more, ask, at[k], ms[k]) {
      assert FirstUsable(sources, ask, at[k], ms[k]);
    }
    at' := at;
    if out != ms {
      NewCandidate(sources, last, ask, ms);
      at' := at + [|sources|];
    }
  }

  lemma NewCandidate(sources: seq<SearchResult>, last: SearchResult, ask: string -> bool, ms: seq<Member>)
    requires AllAsked(sources, ask, ms) && Usable(last, ask) && !Asks(ms, last.provider)
    ensures FirstUsable(sources + [last], ask, |sources|, Member(last.provider, AfterColon(last.id)))
  {
    AfterColonIs(last.id);
  }

  // One more card adds a candidate exactly if it is usable and its provider has none yet.
  ghost predicate Steps(ms: seq<Member>, last: SearchResult, ask: string -> bool, out: seq<Member>) {
    if Usable(last, ask) && !Asks(ms, last.provider) then out == ms + [Member(last.provider, AfterColon(last.id))]
    else out == ms
  }

  lemma CandidatesStep(sources: seq<SearchResult>, ask: string -> bool)
    requires sources != []
    ensures Steps(Candidates(sources[..|sources| - 1], ask), sources[|sources| - 1], ask, Candidates(sources, ask))
  {
    AfterColonIs(sources[|sources| - 1].id);
  }

  lemma {:induction false} KeepCount(ms: seq<Member>, lead: string)
    ensures multiset(Keep(ms, lead, true)) + multiset(Keep(ms, lead, false)) == multiset(ms)
  {
    if ms != [] {
      KeepCount(ms[1..], lead);
      assert ms == [ms[0]] + ms[1..];
    }
  }

  lemma {:induction false} KeepMembers(ms: seq<Member>, lead: string, same: bool)
    requires OncePerProvider(ms)
    ensures forall m :: m in Keep(ms, lead, same) <==> m in ms && (m.provider == lead) == same
    ensures OncePerProvider(Keep(ms, lead, same))
  {
    if ms != [] {
      KeepMembers(ms[1..], lead, same);
      assert forall m :: m in ms <==> m == ms[0] || m in ms[1..];
      var rest := Keep(ms[1..], lead, same);
      forall j | 0 <= j < |rest| ensures rest[j].provider != ms[0].provider {
        assert rest[j] in rest;
        var k :| 0 <= k < |ms[1..]| && ms[1..][k] == rest[j];
        assert ms[k + 1] == rest[j];
      }
    }
  }

  lemma AsksKept(ms: seq<Member>, lead: string)
    requires OncePerProvider(ms)
    ensures Asks(ms, lead) <==> Keep(ms, lead, true) != []
    ensures Keep(ms, lead, true) != [] ==> Keep(ms, lead, true)[0].provider == lead
    ensures !Asks(ms, lead) && ms != [] ==> ms[0].provider != lead
  {
    KeepMembers(ms, lead, true);
    var yes := Keep(ms, lead, true);
    if Asks(ms, lead) {
      var i :| 0 <= i < |ms| && ms[i].provider == lead;
      assert ms[i] in yes;
    }
    if yes != [] {
      assert yes[0] in yes;
      var i :| 0 <= i < |ms| && ms[i] == yes[0];
    }
  }

  lemma ConcatOnce(a: seq<Member>, b: seq<Member>)
    requires OncePerProvider(a) && OncePerProvider(b)
    requires forall x, y :: x in a && y in b ==> x.provider != y.provider
    ensures OncePerProvider(a + b)
  {
    forall i, j | 0 <= i < j < |a + b| ensures (a + b)[i].provider != (a + b)[j].provider {
      if i < |a| <= j {
        assert a[i] in a && b[j - |a|] in b;
      }
    }
  }

  // Leading reorders the attempts and nothing else; the lead comes first exactly when it is
  // among them. (A member past the cap is not, although the group carries it.)
  lemma LeadComesFirst(ms: seq<Member>, lead: string)
    requires OncePerProvider(ms)
    ensures var out := Led(ms, Some(lead));
      && multiset(out) == multiset(ms) && OncePerProvider(out)
      && ((out != [] && out[0].provider == lead) <==> Asks(ms, lead))
  {
    KeepCount(ms, lead);
    KeepMembers(ms, lead, true);
    KeepMembers(ms, lead, false);
    AsksKept(ms, lead);
    ConcatOnce(Keep(ms, lead, true), Keep(ms, lead, false));
  }

  function Listed(provider: string): SearchResult {
    SearchResult(provider + ":1", provider, Movie, "t", None, None)
  }

  // A group of four providers led by its last: the group asks it, the walk does not.
  lemma LeadBeyondCap()
    ensures var candidates := Candidates([Listed("a"), Listed("b"), Listed("c"), Listed("d")], Everyone());
      && Asks(candidates, "d")
      && var attempts := Led(Front(candidates, MAX_MEMBER_ATTEMPTS), Some("d"));
         |attempts| == MAX_MEMBER_ATTEMPTS && !Asks(attempts, "d") && attempts[0].provider == "a"
  {
    var candidates := FourCandidates();
    assert candidates[3].provider == "d";
    var front := Front(candidates, MAX_MEMBER_ATTEMPTS);
    assert front == [Member("a", "1"), Member("b", "1"), Member("c", "1")];
    NoneKept(front, "d");
  }

  lemma {:induction false} NoneKept(ms: seq<Member>, lead: string)
    requires forall i :: 0 <= i < |ms| ==> ms[i].provider != lead
    ensures Keep(ms, lead, true) == []
  {
    if ms != [] {
      NoneKept(ms[1..], lead);
    }
  }

  lemma FourCandidates() returns (candidates: seq<Member>)
    ensures candidates == Candidates([Listed("a"), Listed("b"), Listed("c"), Listed("d")], Everyone())
    ensures candidates == [Member("a", "1"), Member("b", "1"), Member("c", "1"), Member("d", "1")]
  {
    ListedNext([], "a");
    assert [] + [Listed("a")] == [Listed("a")];
    ListedNext([Listed("a")], "b");
    assert [Listed("a")] + [Listed("b")] == [Listed("a"), Listed("b")];
    ListedNext([Listed("a"), Listed("b")], "c");
    assert [Listed("a"), Listed("b")] + [Listed("c")] == [Listed("a"), Listed("b"), Listed("c")];
    ListedNext([Listed("a"), Listed("b"), Listed("c")], "d");
    assert [Listed("a"), Listed("b"), Listed("c")] + [Listed("d")] ==
      [Listed("a"), Listed("b"), Listed("c"), Listed("d")];
    candidates := Candidates([Listed("a"), Listed("b"), Listed("c"), Listed("d")], Everyone());
  }

  lemma ListedNext(front: seq<SearchResult>, provider: string)
    requires |provider| == 1 && provider[0] != ':'
    ensures !Asks(Candidates(front, Everyone()), provider) ==>
      Candidates(front + [Listed(provider)], Everyone()) == Candidates(front, Everyone()) + [Member(provider, "1")]
  {
    var card := Listed(provider);
    assert card.id[1..] == ":1" && ":1"[1..] == "1";
    assert AfterColon(card.id) == "1";
    assert (front + [card])[..|front|] == front;
  }

  lemma FirstOnce(ms: seq<Member>, n: nat)
    requires OncePerProvider(ms)
    ensures OncePerProvider(Front(ms, n)) && |Front(ms, n)| <= n
  {
  }

  function Everyone(): string -> bool {
    (p: string) => true
  }

  function Registered(registered: set<string>): string -> bool {
    (p: string) => p in registered
  }

  function Filter(ms: seq<Member>, registered: set<string>): seq<Member> {
    if ms == [] then []
    else Filter(ms[..|ms| - 1], registered) + if ms[|ms| - 1].provider in registered then [ms[|ms| - 1]] else []
  }

  lemma {:induction false} FilterMembers(ms: seq<Member>, registered: set<string>)
    ensures forall m :: m in Filter(ms, registered) <==> m in ms && m.provider in registered
    ensures |Filter(ms, registered)| <= |ms|
  {
    if ms != [] {
      FilterMembers(ms[..|ms| - 1], registered);
    }
  }

  lemma {:induction false} CandidatesFilter(sources: seq<SearchResult>, registered: set<string>)
    ensures Candidates(sources, Registered(registered)) == Filter(Candidates(sources, Everyone()), registered)
  {
    if sources != [] {
      var n := |sources| - 1;
      CandidatesFilter(sources[..n], registered);
      var before := Candidates(sources[..n], Everyone());
      FilterMembers(before, registered);
      var s := sources[n];
      var m := Member(s.provider, AfterColon(s.id));
      assert (before + [m])[..|before|] == before;
    }
  }

  lemma {:induction false} FilterPrefix(ms: seq<Member>, n: nat, registered: set<string>)
    requires n <= |ms|
    ensures Filter(ms[..n], registered) <= Filter(ms, registered)
    decreases |ms|
  {
    if n < |ms| {
      assert ms[..|ms| - 1][..n] == ms[..n];
      FilterPrefix(ms[..|ms| - 1], n, registered);
    } else {
      assert ms[..n] == ms;
    }
  }

  // The member whose page answered is always honoured by the play seam when its provider is
  // registered: dropping unregistered members never pushes it past the cap.
  lemma ContentLeadIsHonoured(sources: seq<SearchResult>, registered: set<string>, lead: string)
    requires Asks(Front(Candidates(sources, Everyone()), MAX_MEMBER_ATTEMPTS), lead) && lead in registered
    ensures var out := Led(Front(Candidates(sources, Registered(registered)), MAX_MEMBER_ATTEMPTS), Some(lead));
      out != [] && out[0].provider == lead
  {
    var all := Candidates(sources, Everyone());
    var head := Front(all, MAX_MEMBER_ATTEMPTS);
    assert head == all[..|head|];
    CandidatesFilter(sources, registered);
    FilterPrefix(all, |head|, registered);
    FilterMembers(head, registered);
    var i :| 0 <= i < |head| && head[i].provider == lead;
    var kept := Filter(head, registered);
    assert head[i] in kept;
    var few := Front(Candidates(sources, Registered(registered)), MAX_MEMBER_ATTEMPTS);
    var k :| 0 <= k < |kept| && kept[k] == head[i];
    assert few[k] == head[i];
    CandidatesOnce(sources, Registered(registered));
    FirstOnce(Candidates(sources, Registered(registered)), MAX_MEMBER_ATTEMPTS);
    LeadComesFirst(few, lead);
  }

  // ---------------------------------------------------------------- the cache-only readers

  datatype Known = Hit(page: Page) | Gated | Blocked | Miss

  function MemberCached(c: Caches, m: Member): Known {
    if m in c.gated && c.gated[m] then Gated
    else if m in c.blocked then Blocked
    else if m in c.content then Hit(c.content[m])
    else Miss
  }

  function CachedGroupPage(c: Caches, attempts: seq<Member>): Option<(string, Page)> {
    if attempts == [] then None
    else
      match MemberCached(c, attempts[0])
      case Hit(page) => Some((attempts[0].provider, page))
      case Miss => CachedGroupPage(c, attempts[1..])
      case _ => None
  }

  // None stands for a key the resolution map does not have.
  function IsHardUnavailable(c: Caches, attempts: Option<seq<Member>>): bool {
    attempts.None? || StopsHard(c, attempts.value)
  }

  function StopsHard(c: Caches, attempts: seq<Member>): bool {
    attempts != [] &&
      match MemberCached(c, attempts[0])
      case Hit(_) => false
      case Miss => StopsHard(c, attempts[1..])
      case _ => true
  }

  // A deliberate verdict beats a cached page, and `gated` comes before the country block.
  lemma KnownIs(c: Caches, m: Member)
    ensures MemberCached(c, m).Gated? <==> m in c.gated && c.gated[m]
    ensures MemberCached(c, m).Blocked? <==> m in c.blocked && !MemberCached(c, m).Gated?
    ensures forall page :: MemberCached(c, m) == Hit(page) <==>
      && m in c.content && c.content[m] == page && m !in c.blocked && (m in c.gated ==> !c.gated[m])
  {}

  // Both readers go by the first member something is known about.
  lemma {:induction false} ReadersGoByFirst(c: Caches, attempts: seq<Member>) returns (i: nat)
    ensures i <= |attempts| && forall j :: 0 <= j < i ==> MemberCached(c, attempts[j]).Miss?
    ensures i < |attempts| ==>
      var known := MemberCached(c, attempts[i]);
      && !known.Miss?
      && CachedGroupPage(c, attempts) == (if known.Hit? then Some((attempts[i].provider, known.page)) else None)
      && (IsHardUnavailable(c, Some(attempts)) <==> !known.Hit?)
    ensures i == |attempts| ==> CachedGroupPage(c, attempts) == None && !IsHardUnavailable(c, Some(attempts))
  {
    i := 0;
    if attempts != [] && MemberCached(c, attempts[0]).Miss? {
      i := ReadersGoByFirst(c, attempts[1..]);
      assert forall j :: 0 <= j < i ==> attempts[1..][j] == attempts[j + 1];
      i := i + 1;
    }
  }

  // ---------------------------------------------------------------- the walk

  // How a walk ended: served by a member, stopped on a deliberate verdict, stopped on a
  // code that is neither deliberate nor walkable, or all members refused.
  datatype Ending = ServedBy(member: Member, page: Page) | Deliberate | Stopped(code: Code) | AllRefused

  // One member's fetch with its single retry; a gated answer is not retried.
  function Fetch(w: World, s: Setting, m: Member): (World, Outcome) {
    var first := s.upstream(m, w.calls);
    if first.Served? || first == Refused(GATED) then (w.(calls := w.calls + 1), first)
    else (w.(calls := w.calls + 2), s.upstream(m, w.calls + 1))
  }

  // What the walk does with the fetch of a member nothing is known about.
  function AfterFetch(w: World, s: Setting, m: Member, got: Outcome, groupKey: string): (World, Option<Ending>) {
    match got
    case Served(page) =>
      if s.blocks(page.country) then
        (w.(caches := w.caches.(blocked := w.caches.blocked + {m})), Some(Deliberate))
      else
        var page := page.(groupKey := groupKey);
        (w.(caches := w.caches.(content := w.caches.content[m := page])), Some(ServedBy(m, page)))
    case Refused(code) =>
      var w' := if code == GATED then w.(caches := w.caches.(gated := w.caches.gated[m := true])) else w;
      if code == GATED then (w', Some(Deliberate))
      else if !Walkable(code) then (w', Some(Stopped(code)))
      else (w', None)
    case Crashed => (w, None)
  }

  function Walk(w: World, s: Setting, groupKey: string, attempts: seq<Member>): (World, Ending)
    decreases |attempts|
  {
    if attempts == [] then (w, AllRefused)
    else
      var m := attempts[0];
      match MemberCached(w.caches, m)
      case Hit(page) => (w, ServedBy(m, page))
      case Gated => (w, Deliberate)
      case Blocked => (w, Deliberate)
      case Miss =>
        if m.provider !in s.registered then Walk(w, s, groupKey, attempts[1..])
        else
          var (w1, got) := Fetch(w, s, m);
          var (w2, end) := AfterFetch(w1, s, m, got, groupKey);
          if end.Some? then (w2, end.value) else Walk(w2, s, groupKey, attempts[1..])
  }

  // ---------------------------------------------------------------- what a walk asks and answers

  // With n calls made before: a first call that serves or answers `gated` settles the matter;
  // otherwise a second call does, whatever the first one's error.
  ghost predicate Gives(s: Setting, m: Member, n: nat, got: Outcome, spent: int) {
    var first := s.upstream(m, n);
    if first.Served? || first == Refused(GATED) then got == first && spent == 1
    else got == s.upstream(m, n + 1) && spent == 2
  }

  // Neither call settles anything: the walk goes on to the next member.
  ghost predicate MovesOn(s: Setting, m: Member, n: nat) {
    var first, second := s.upstream(m, n), s.upstream(m, n + 1);
    && !first.Served? && first != Refused(GATED)
    && (second.Crashed? || (second.Refused? && Walkable(second.code)))
  }

  // The calls made before the i-th member is asked, if the ones before it all moved on.
  ghost function CallsBefore(w: World, s: Setting, attempts: seq<Member>, i: nat): nat
    requires i <= |attempts|
  {
    if i == 0 then w.calls
    else CallsBefore(w, s, attempts, i - 1) + if attempts[i - 1].provider in s.registered then 2 else 0
  }

  // Every registered member before the i-th moved on.
  ghost predicate AllMoveOn(w: World, s: Setting, attempts: seq<Member>, i: nat)
    requires i <= |attempts|
  {
    forall j :: 0 <= j < i && attempts[j].provider in s.registered ==>
      MovesOn(s, attempts[j], CallsBefore(w, s, attempts, j))
  }

  // The walk's answer is the i-th member's: it is the first registered one that does not move on.
  ghost predicate Decides(w: World, s: Setting, attempts: seq<Member>, i: nat)
    requires i < |attempts|
  {
    && AllMoveOn(w, s, attempts, i) && attempts[i].provider in s.registered
    && !MovesOn(s, attempts[i], CallsBefore(w, s, attempts, i))
  }

  // How a walk ends on this outcome, and the caches it leaves.
  ghost predicate EndsOn(c: Caches, c': Caches, s: Setting, groupKey: string, m: Member, got: Outcome, end: Ending) {
    match got
    case Served(page) =>
      if s.blocks(page.country) then end == Deliberate && c' == c.(blocked := c.blocked + {m})
      else
        && end == ServedBy(m, page.(groupKey := groupKey))
        && c' == c.(content := c.content[m := page.(groupKey := groupKey)])
    case Refused(code) =>
      if code == GATED then end == Deliberate && c' == c.(gated := c.gated[m := true])
      else end == Stopped(code) && c' == c
    case Crashed => false
  }

  // A walk over members nothing is known about: the first registered one that does not move on
  // decides how it ends; if there is none, all refused and nothing was cached.
  lemma {:induction false} WalkIs(w: World, s: Setting, groupKey: string, attempts: seq<Member>)
    returns (i: nat, got: Outcome, spent: nat)
    requires AllMiss(w.caches, attempts)
    ensures i <= |attempts|
    ensures var (w', end) := Walk(w, s, groupKey, attempts);
      if i == |attempts| then
        AllMoveOn(w, s, attempts, i) && w' == w.(calls := CallsBefore(w, s, attempts, i)) && end == AllRefused
      else
        && Decides(w, s, attempts, i) && Gives(s, attempts[i], CallsBefore(w, s, attempts, i), got, spent)
        && w'.calls == CallsBefore(w, s, attempts, i) + spent
        && EndsOn(w.caches, w'.caches, s, groupKey, attempts[i], got, end)
    decreases |attempts|
  {
    got, spent := Crashed, 0;
    if attempts == [] {
      return 0, got, spent;
    }
    var m, rest := attempts[0], attempts[1..];
    assert MemberCached(w.caches, m).Miss?;
    var next := w;
    if m.provider in s.registered {
      var first;
      first, got := Fetch(w, s, m).0, Fetch(w, s, m).1;
      if !MovesOn(s, m, w.calls) {
        return 0, got, first.calls - w.calls;
      }
      next := first;
      assert AfterFetch(first, s, m, got, groupKey) == (first, None);
    }
    assert next == w.(calls := CallsBefore(w, s, attempts, 1));
    assert AllMiss(next.caches, rest) by {
      assert forall k :: 0 <= k < |rest| ==> rest[k] == attempts[k + 1];
    }
    i, got, spent := WalkIs(next, s, groupKey, rest);
    CallsShift(w, next, s, attempts, i);
    MoveOnShift(w, next, s, attempts, i);
    i := i + 1;
  }

  lemma {:induction false} CallsShift(w: World, next: World, s: Setting, attempts: seq<Member>, i: nat)
    requires i < |attempts| && next.calls == CallsBefore(w, s, attempts, 1)
    ensures CallsBefore(next, s, attempts[1..], i) == CallsBefore(w, s, attempts, i + 1)
  {
    if i > 0 {
      CallsShift(w, next, s, attempts, i - 1);
    }
  }

  lemma MoveOnShift(w: World, next: World, s: Setting, attempts: seq<Member>, i: nat)
    requires i < |attempts| && next.calls == CallsBefore(w, s, attempts, 1)
    requires AllMoveOn(next, s, attempts[1..], i)
    requires attempts[0].provider in s.registered ==> MovesOn(s, attempts[0], w.calls)
    ensures AllMoveOn(w, s, attempts, i + 1)
  {
    forall j | 0 <= j < i + 1 && attempts[j].provider in s.registered
      ensures MovesOn(s, attempts[j], CallsBefore(w, s, attempts, j))
    {
      if j > 0 {
        CallsShift(w, next, s, attempts, j - 1);
        assert attempts[1..][j - 1] == attempts[j];
      }
    }
  }

  lemma DecidesOnce(w: World, s: Setting, attempts: seq<Member>, i: nat, j: nat)
    requires i < |attempts| && j < |attempts| && Decides(w, s, attempts, i) && Decides(w, s, attempts, j)
    ensures i == j
  {}

  // The page a member serves: its first call's, or its second's after an error but `gated`.
  ghost predicate Serves(s: Setting, m: Member, n: nat, page: Page) {
    || s.upstream(m, n) == Served(page)
    || (!s.upstream(m, n).Served? && s.upstream(m, n) != Refused(GATED) && s.upstream(m, n + 1) == Served(page))
  }

  ghost predicate ServedAt(w: World, s: Setting, groupKey: string, attempts: seq<Member>, i: nat, page: Page,
      end: Ending)
    requires i < |attempts|
  {
    && Decides(w, s, attempts, i) && Serves(s, attempts[i], CallsBefore(w, s, attempts, i), page)
    && !s.blocks(page.country) && end == ServedBy(attempts[i], page.(groupKey := groupKey))
  }

  // So a walk is served exactly by the first registered member that does not move on, if one of
  // its two calls serves and the country is not blocked, with that page under the group's key.
  lemma WalkServesIff(w: World, s: Setting, groupKey: string, attempts: seq<Member>, end: Ending)
    requires AllMiss(w.caches, attempts) && end.ServedBy?
    ensures Walk(w, s, groupKey, attempts).1 == end <==>
      exists i, page :: 0 <= i < |attempts| && ServedAt(w, s, groupKey, attempts, i, page, end)
  {
    var i, got, spent := WalkIs(w, s, groupKey, attempts);
    if Walk(w, s, groupKey, attempts).1 == end {
      assert ServedAt(w, s, groupKey, attempts, i, got.page, end);
    }
    if j, page :| 0 <= j < |attempts| && ServedAt(w, s, groupKey, attempts, j, page, end) {
      if i < |attempts| {
        DecidesOnce(w, s, attempts, i, j);
      }
    }
  }

  function MemberOf(attempts: seq<Member>, provider: string): Member {
    if attempts == [] then Member(provider, "")
    else if attempts[0].provider == provider then attempts[0]
    else MemberOf(attempts[1..], provider)
  }

  // A page already resolved answers first, whichever member holds it.
  function Resolve(w: World, s: Setting, groupKey: string, attempts: seq<Member>): (World, Ending) {
    var cached := CachedGroupPage(w.caches, attempts);
    if cached.Some? then (w, ServedBy(MemberOf(attempts, cached.value.0), cached.value.1))
    else Walk(w, s, groupKey, attempts)
  }

  ghost predicate AllMiss(c: Caches, ms: seq<Member>) {
    forall i :: 0 <= i < |ms| ==> MemberCached(c, ms[i]).Miss?
  }

  lemma {:induction false} ReadersSkipMisses(c: Caches, misses: seq<Member>, rest: seq<Member>)
    requires AllMiss(c, misses)
    ensures CachedGroupPage(c, misses + rest) == CachedGroupPage(c, rest)
    ensures StopsHard(c, misses + rest) == StopsHard(c, rest)
  {
    if misses == [] {
      assert misses + rest == rest;
    } else {
      assert (misses + rest)[1..] == misses[1..] + rest;
      assert AllMiss(c, misses[1..]);
      ReadersSkipMisses(c, misses[1..], rest);
    }
  }

  // The readers after a walk over `rest`, the members before it having refused.
  ghost predicate Agrees(before: Caches, after: World, end: Ending, attempts: seq<Member>) {
    match end
    case ServedBy(m, page) =>
      && CachedGroupPage(after.caches, attempts) == Some((m.provider, page))
      && !IsHardUnavailable(after.caches, Some(attempts))
    case Deliberate =>
      && CachedGroupPage(after.caches, attempts) == None
      && IsHardUnavailable(after.caches, Some(attempts))
    case AllRefused =>
      && CachedGroupPage(after.caches, attempts) == None
      && !IsHardUnavailable(after.caches, Some(attempts))
    case Stopped(code) =>
      && code != GATED && !Walkable(code) && after.caches == before
      && CachedGroupPage(after.caches, attempts) == None
      && IsHardUnavailable(after.caches, Some(attempts)) == IsHardUnavailable(before, Some(attempts))
  }

  lemma {:induction false} WalkAgrees(w: World, s: Setting, groupKey: string, misses: seq<Member>, rest: seq<Member>)
    requires OncePerProvider(misses + rest) && AllMiss(w.caches, misses)
    requires CachedGroupPage(w.caches, rest) == None
    ensures var (w', end) := Walk(w, s, groupKey, rest);
      Agrees(w.caches, w', end, misses + rest) && w'.calls <= w.calls + 2 * |rest|
    decreases |rest|
  {
    ReadersSkipMisses(w.caches, misses, rest);
    if rest == [] {
      return;
    }
    var m := rest[0];
    if MemberCached(w.caches, m).Miss? {
      assert misses + rest == (misses + [m]) + rest[1..];
      if m.provider !in s.registered {
        WalkAgrees(w, s, groupKey, misses + [m], rest[1..]);
      } else {
        var (w1, got) := Fetch(w, s, m);
        var (w2, end) := AfterFetch(w1, s, m, got, groupKey);
        if end.None? {
          WalkAgrees(w2, s, groupKey, misses + [m], rest[1..]);
        } else {
          EndAgrees(w, w1, s, groupKey, misses, rest, got);
        }
      }
    }
  }

  lemma EndAgrees(w: World, w1: World, s: Setting, groupKey: string, misses: seq<Member>, rest: seq<Member>,
      got: Outcome)
    requires rest != [] && OncePerProvider(misses + rest) && AllMiss(w.caches, misses)
    requires MemberCached(w.caches, rest[0]).Miss? && w1.caches == w.caches
    requires AfterFetch(w1, s, rest[0], got, groupKey).1.Some?
    requires CachedGroupPage(w.caches, misses + rest) == None
    ensures var (w2, end) := AfterFetch(w1, s, rest[0], got, groupKey);
      Agrees(w.caches, w2, end.value, misses + rest)
  {
    var m := rest[0];
    assert forall i :: 0 <= i < |misses| ==> (misses + rest)[i] == misses[i];
    assert (misses + rest)[|misses|] == m;
    assert forall i :: 0 <= i < |misses| ==> misses[i] != m;
    var w2 := AfterFetch(w1, s, m, got, groupKey).0;
    assert AllMiss(w2.caches, misses);
    ReadersSkipMisses(w2.caches, misses, rest);
  }

  lemma {:induction false} TwinAnswer(c: Caches, attempts: seq<Member>)
    requires CachedGroupPage(c, attempts).Some?
    ensures !StopsHard(c, attempts)
    ensures MemberOf(attempts, CachedGroupPage(c, attempts).value.0).provider == CachedGroupPage(c, attempts).value.0
  {
    if MemberCached(c, attempts[0]).Miss? {
      TwinAnswer(c, attempts[1..]);
    }
  }

  lemma ResolveAgrees(w: World, s: Setting, groupKey: string, attempts: seq<Member>)
    requires OncePerProvider(attempts)
    ensures var (w', end) := Resolve(w, s, groupKey, attempts);
      && Agrees(w.caches, w', end, attempts) && w'.calls <= w.calls + 2 * |attempts|
      && (CachedGroupPage(w.caches, attempts).Some? ==> w' == w)
  {
    if CachedGroupPage(w.caches, attempts).Some? {
      TwinAnswer(w.caches, attempts);
    } else {
      assert [] + attempts == attempts;
      WalkAgrees(w, s, groupKey, [], attempts);
    }
  }

  // The members a content resolution asks.
  function ContentAttempts(sources: seq<SearchResult>): seq<Member> {
    Front(Candidates(sources, Everyone()), MAX_MEMBER_ATTEMPTS)
  }

  // A content resolution asks the first three candidates, or all of fewer.
  lemma ContentAttemptsAre(sources: seq<SearchResult>)
    ensures ContentAttempts(sources) <= Candidates(sources, Everyone())
    ensures |ContentAttempts(sources)| == 3 || (|ContentAttempts(sources)| < 3 &&
              ContentAttempts(sources) == Candidates(sources, Everyone()))
  {}

  // After a resolution the cache-only readers say what it said, and no more than six
  // upstream calls were spent on the at most three members.
  lemma ReadersAgree(w: World, s: Setting, groupKey: string, sources: seq<SearchResult>)
    ensures var (w', end) := Resolve(w, s, groupKey, ContentAttempts(sources));
      && Agrees(w.caches, w', end, ContentAttempts(sources))
      && |ContentAttempts(sources)| <= 3 && w'.calls <= w.calls + 6
  {
    CandidatesOnce(sources, Everyone());
    FirstOnce(Candidates(sources, Everyone()), MAX_MEMBER_ATTEMPTS);
    ResolveAgrees(w, s, groupKey, ContentAttempts(sources));
  }

  // A served group is served again, the same page, without another upstream call.
  lemma ServedStays(w: World, s: Setting, groupKey: string, attempts: seq<Member>)
    requires OncePerProvider(attempts)
    ensures var (w', end) := Resolve(w, s, groupKey, attempts);
      end.ServedBy? ==>
        && Resolve(w', s, groupKey, attempts).0 == w'
        && Resolve(w', s, groupKey, attempts).1.ServedBy?
        && Resolve(w', s, groupKey, attempts).1.page == end.page
  {
    ResolveAgrees(w, s, groupKey, attempts);
  }
}
