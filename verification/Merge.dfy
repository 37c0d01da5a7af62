// merge.py: the cross-provider merge. Its meaning is the transitive closure of the match
// relation; the code computes it with a union-find that halves paths and keeps no rank.
module Merge {
  import opened Wrappers
  import opened WireIdentity
  import Lex
  import UF = UnionFind

  datatype MergeGroup = MergeGroup(key: string, sources: seq<SearchResult>)

  // ---------------------------------------------------------------- reference meaning

  ghost predicate IsPath(r: Rules, items: seq<SearchResult>, p: seq<nat>, i: nat, j: nat) {
    && p != [] && p[0] == i && p[|p| - 1] == j
    && (forall k :: 0 <= k < |p| ==> p[k] < |items|)
    && (forall k :: 0 <= k < |p| - 1 ==> Linked(r, items[p[k]], items[p[k + 1]]))
  }

  // i and j are joined by a chain of direct matches.
  ghost predicate Connected(r: Rules, items: seq<SearchResult>, i: nat, j: nat) {
    exists p :: IsPath(r, items, p, i, j)
  }

  lemma ConnectedReflexive(r: Rules, items: seq<SearchResult>, i: nat)
    requires i < |items|
    ensures Connected(r, items, i, i)
  {
    assert IsPath(r, items, [i], i, i);
  }

  lemma ConnectedLink(r: Rules, items: seq<SearchResult>, i: nat, j: nat)
    requires i < |items| && j < |items| && Linked(r, items[i], items[j])
    ensures Connected(r, items, i, j)
  {
    assert IsPath(r, items, [i, j], i, j);
  }

  lemma ConnectedSymmetric(r: Rules, items: seq<SearchResult>, i: nat, j: nat)
    requires Connected(r, items, i, j)
    ensures Connected(r, items, j, i)
  {
    var p :| IsPath(r, items, p, i, j);
    var q := seq(|p|, k requires 0 <= k < |p| => p[|p| - 1 - k]);
    forall k | 0 <= k < |q| - 1 ensures Linked(r, items[q[k]], items[q[k + 1]]) {
      var m := |p| - 2 - k;
      assert Linked(r, items[p[m]], items[p[m + 1]]);
    }
    assert IsPath(r, items, q, j, i);
  }

  lemma ConnectedTransitive(r: Rules, items: seq<SearchResult>, i: nat, j: nat, k: nat)
    requires Connected(r, items, i, j) && Connected(r, items, j, k)
    ensures Connected(r, items, i, k)
  {
    var p :| IsPath(r, items, p, i, j);
    var q :| IsPath(r, items, q, j, k);
    var s := p + q[1..];
    forall m | 0 <= m < |s| - 1 ensures Linked(r, items[s[m]], items[s[m + 1]]) {
      if m >= |p| - 1 {
        var n := m - (|p| - 1);
        assert s[m] == q[n] && s[m + 1] == q[n + 1];
      }
    }
    assert IsPath(r, items, s, i, k);
  }

  // Members of i's class among the first n cards, in listing order.
  ghost function Members(r: Rules, items: seq<SearchResult>, n: nat, i: nat): seq<nat> {
    if n == 0 then []
    else Members(r, items, n - 1, i) + if Connected(r, items, i, n - 1) then [n - 1] else []
  }

  // The first card of each class among the first n cards, in listing order.
  ghost function Leaders(r: Rules, items: seq<SearchResult>, n: nat): seq<nat> {
    if n == 0 then []
    else Leaders(r, items, n - 1)
         + if HasEarlier(r, items, n - 1) then [] else [n - 1]
  }

  ghost predicate HasEarlier(r: Rules, items: seq<SearchResult>, i: nat) {
    exists j :: 0 <= j < i && Connected(r, items, j, i)
  }

  ghost predicate Ascending(ms: seq<nat>) {
    forall a, b :: 0 <= a < b < |ms| ==> ms[a] < ms[b]
  }

  ghost predicate Covered(parts: seq<seq<nat>>, x: nat) {
    exists k :: 0 <= k < |parts| && x in parts[k]
  }

  ghost function Partition(r: Rules, items: seq<SearchResult>): seq<seq<nat>> {
    var ls := Leaders(r, items, |items|);
    seq(|ls|, k requires 0 <= k < |ls| => Members(r, items, |items|, ls[k]))
  }

  function Pick(items: seq<SearchResult>, ms: seq<nat>): seq<SearchResult>
    requires forall k :: 0 <= k < |ms| ==> ms[k] < |items|
  {
    seq(|ms|, k requires 0 <= k < |ms| => items[ms[k]])
  }

  // ---------------------------------------------------------------- key of a group

  function ImdbIds(its: seq<SearchResult>): seq<string> {
    if its == [] then []
    else (if HasImdb(its[0]) then [its[0].imdb.value] else []) + ImdbIds(its[1..])
  }

  function Yearful(r: Rules, its: seq<SearchResult>): seq<SearchResult> {
    if its == [] then []
    else (if EffectiveYear(r, its[0]).Some? then [its[0]] else []) + Yearful(r, its[1..])
  }

  function ItemKeys(r: Rules, its: seq<SearchResult>): seq<string> {
    seq(|its|, k requires 0 <= k < |its| => ItemGroupKey(r, its[k]))
  }

  // The smallest asserted IMDb id, else the smallest stateless key, members with a known
  // year preferred.
  function KeyOf(r: Rules, its: seq<SearchResult>): string
    requires its != []
  {
    if ImdbIds(its) != [] then GroupKeyFromImdb(Lex.Min(ImdbIds(its)))
    else
      var preferred := if Yearful(r, its) != [] then Yearful(r, its) else its;
      Lex.Min(ItemKeys(r, preferred))
  }

  lemma {:induction false} MembersProperties(r: Rules, items: seq<SearchResult>, n: nat, i: nat)
    ensures forall m :: m in Members(r, items, n, i) <==> 0 <= m < n && Connected(r, items, i, m)
    ensures forall m :: m in Members(r, items, n, i) ==> m < |items|
    ensures Ascending(Members(r, items, n, i))
  {
    if n > 0 {
      MembersProperties(r, items, n - 1, i);
      var ms := Members(r, items, n - 1, i);
      assert forall k :: 0 <= k < |ms| ==> ms[k] in ms;
      if Connected(r, items, i, n - 1) {
        ConnectedInRange(r, items, i, n - 1);
      }
    }
  }

  lemma ConnectedInRange(r: Rules, items: seq<SearchResult>, i: nat, j: nat)
    requires Connected(r, items, i, j)
    ensures i < |items| && j < |items|
  {
    var p :| IsPath(r, items, p, i, j);
    assert p[0] < |items| && p[|p| - 1] < |items|;
  }

  lemma {:induction false} LeadersProperties(r: Rules, items: seq<SearchResult>, n: nat)
    requires n <= |items|
    ensures forall m :: m in Leaders(r, items, n) <==>
      0 <= m < n && !HasEarlier(r, items, m)
    ensures Ascending(Leaders(r, items, n))
  {
    if n > 0 {
      LeadersProperties(r, items, n - 1);
      var ls := Leaders(r, items, n - 1);
      assert forall k :: 0 <= k < |ls| ==> ls[k] in ls;
    }
  }

  ghost function MergeSpec(r: Rules, items: seq<SearchResult>): seq<MergeGroup> {
    var parts := Partition(r, items);
    PartitionCovers(r, items);
    seq(|parts|, k requires 0 <= k < |parts| =>
      MergeGroup(KeyOf(r, Pick(items, parts[k])), Pick(items, parts[k])))
  }

  // The class of a leader: it comes first, and the rest follow in listing order.
  ghost predicate IsPart(r: Rules, items: seq<SearchResult>, l: nat, part: seq<nat>) {
    && part != [] && part[0] == l && Ascending(part)
    && (forall a :: 0 <= a < |part| ==> part[a] < |items|)
    && (forall m :: m in part <==> 0 <= m < |items| && Connected(r, items, l, m))
  }

  lemma LeaderPart(r: Rules, items: seq<SearchResult>, l: nat)
    requires l < |items| && !HasEarlier(r, items, l)
    ensures IsPart(r, items, l, Members(r, items, |items|, l))
  {
    var part := Members(r, items, |items|, l);
    MembersProperties(r, items, |items|, l);
    ConnectedReflexive(r, items, l);
    assert l in part;
    assert forall a :: 0 <= a < |part| ==> part[a] in part;
    var first := part[0];
    ConnectedSymmetric(r, items, l, first);
    assert !(first < l);
    var a :| 0 <= a < |part| && part[a] == l;
  }

  lemma SameClassMembers(r: Rules, items: seq<SearchResult>, l: nat, m: nat, x: int)
    requires m < |items| && Connected(r, items, l, m)
    ensures 0 <= x < |items| ==> (Connected(r, items, l, x) <==> Connected(r, items, m, x))
  {
    ConnectedSymmetric(r, items, l, m);
    if 0 <= x < |items| {
      if Connected(r, items, l, x) {
        ConnectedTransitive(r, items, m, l, x);
      }
      if Connected(r, items, m, x) {
        ConnectedTransitive(r, items, l, m, x);
      }
    }
  }

  // The groups partition the cards into the classes of the closure: each card is in
  // exactly one group, groups follow their first members and keep listing order inside.
  lemma PartitionCovers(r: Rules, items: seq<SearchResult>)
    ensures var parts := Partition(r, items);
      && (forall k :: 0 <= k < |parts| ==> parts[k] != [])
      && (forall k, a :: 0 <= k < |parts| && 0 <= a < |parts[k]| ==> parts[k][a] < |items|)
      && (forall k :: 0 <= k < |parts| ==> Ascending(parts[k]))
      && (forall k, l :: 0 <= k < l < |parts| ==> parts[k][0] < parts[l][0])
      && (forall k, m, x :: 0 <= k < |parts| && m in parts[k] ==>
            (x in parts[k] <==> 0 <= x < |items| && Connected(r, items, m, x)))
      && (forall x :: 0 <= x < |items| ==> Covered(parts, x))
  {
    var n := |items|;
    var ls := Leaders(r, items, n);
    var parts := Partition(r, items);
    LeadersProperties(r, items, n);
    forall k | 0 <= k < |parts| ensures IsPart(r, items, ls[k], parts[k]) {
      assert ls[k] in ls;
      LeaderPart(r, items, ls[k]);
    }
    forall k, m, x | 0 <= k < |parts| && m in parts[k]
      ensures x in parts[k] <==> 0 <= x < n && Connected(r, items, m, x)
    {
      assert IsPart(r, items, ls[k], parts[k]);
      SameClassMembers(r, items, ls[k], m, x);
    }
    forall x | 0 <= x < n ensures Covered(parts, x) {
      var l := LeaderOf(r, items, x);
      var k :| 0 <= k < |ls| && ls[k] == l;
      assert IsPart(r, items, ls[k], parts[k]);
      assert x in parts[k];
    }
  }

  lemma {:induction false} LeaderOf(r: Rules, items: seq<SearchResult>, x: nat) returns (l: nat)
    requires x < |items|
    ensures l <= x && Connected(r, items, l, x) && l in Leaders(r, items, |items|)
    decreases x
  {
    LeadersProperties(r, items, |items|);
    if HasEarlier(r, items, x) {
      var j: nat :| j < x && Connected(r, items, j, x);
      l := LeaderOf(r, items, j);
      ConnectedTransitive(r, items, l, j, x);
    } else {
      l := x;
      ConnectedReflexive(r, items, x);
    }
  }

  // ---------------------------------------------------------------- the two passes

  // Joined cards are connected.
  ghost predicate Sound(r: Rules, items: seq<SearchResult>, root: seq<nat>) {
    && |root| == |items|
    && forall x, y :: 0 <= x < |root| && 0 <= y < |root| && root[x] == root[y] ==> Connected(r, items, x, y)
  }

  // No pair that was together has been separated.
  ghost predicate Coarser(now: seq<nat>, before: seq<nat>) {
    && |now| == |before|
    && forall x, y :: 0 <= x < |now| && 0 <= y < |now| && before[x] == before[y] ==> now[x] == now[y]
  }

  lemma JoinSound(r: Rules, items: seq<SearchResult>, root: seq<nat>, i: nat, j: nat)
    requires Sound(r, items, root) && i < |items| && j < |items| && Linked(r, items[i], items[j])
    ensures Sound(r, items, UF.Join(root, root[i], root[j]))
    ensures Coarser(UF.Join(root, root[i], root[j]), root)
  {
    var now := UF.Join(root, root[i], root[j]);
    ConnectedLink(r, items, i, j);
    ConnectedSymmetric(r, items, i, j);
    forall x, y | 0 <= x < |now| && 0 <= y < |now| && now[x] == now[y]
      ensures Connected(r, items, x, y)
    {
      if root[x] == root[i] && root[y] == root[j] {
        ConnectedTransitive(r, items, x, i, j);
        ConnectedTransitive(r, items, x, j, y);
      } else if root[x] == root[j] && root[y] == root[i] {
        ConnectedTransitive(r, items, x, j, i);
        ConnectedTransitive(r, items, x, i, y);
      }
    }
  }

  // One `union(i, j)` call of the merge, with its line in the audit log.
  method UnionLinked(r: Rules, items: seq<SearchResult>, uf: UF.UnionFind, i: nat, j: nat, log: seq<(nat, nat)>)
    returns (log': seq<(nat, nat)>)
    requires uf.Valid() && Sound(r, items, uf.root) && |log| + |UF.Roots(uf.root)| == |items|
    requires i < |items| && j < |items| && Linked(r, items[i], items[j])
    modifies uf, uf.parent
    ensures uf.Valid() && Sound(r, items, uf.root) && |log'| + |UF.Roots(uf.root)| == |items|
    ensures Coarser(uf.root, old(uf.root)) && uf.root[i] == uf.root[j]
  {
    JoinSound(r, items, uf.root, i, j);
    assert UF.Node(uf.parent[..], uf.root, uf.rank, i);
    ghost var before := uf.root;
    assert UF.Node(uf.parent[..], uf.root, uf.rank, before[i]);
    assert before[i] in UF.Roots(before);
    var joined := uf.Union(i, j);
    log' := if joined then log + [(i, j)] else log;
  }

  // The cards filed under (alias, form) before card i, and card i under its first k aliases.
  ghost predicate Seen(r: Rules, items: seq<SearchResult>, seen: map<(string, Form), seq<nat>>, i: nat, k: nat)
    requires i <= |items|
    requires i < |items| ==> k <= |r.aliases(items[i].title)|
  {
    forall alias, form, j: nat ::
      Filed(seen, alias, form, j) <==>
        || (j < i && alias in r.aliases(items[j].title) && items[j].form == form)
        || (j == i < |items| && alias in r.aliases(items[i].title)[..k] && items[i].form == form)
  }

  predicate Filed(seen: map<(string, Form), seq<nat>>, alias: string, form: Form, j: nat) {
    (alias, form) in seen && j in seen[(alias, form)]
  }

  ghost predicate AliasDone(r: Rules, items: seq<SearchResult>, root: seq<nat>, n: nat)
    requires |root| == |items| && n <= |items|
  {
    forall x, y :: 0 <= x < n && 0 <= y < n && AliasLinked(r, items[x], items[y]) ==> root[x] == root[y]
  }

  // Card i has met every earlier card it matches through one of its first k aliases.
  ghost predicate AliasesMet(r: Rules, items: seq<SearchResult>, root: seq<nat>, i: nat, k: nat)
    requires |root| == |items| && i < |items| && k <= |r.aliases(items[i].title)|
  {
    forall a, j | 0 <= a < k && 0 <= j < i && AliasLinked(r, items[i], items[j]) ::
      r.aliases(items[i].title)[a] in r.aliases(items[j].title) ==> root[i] == root[j]
  }

  lemma SeenStep(r: Rules, items: seq<SearchResult>, seen: map<(string, Form), seq<nat>>, i: nat, k: nat)
    requires i < |items| && k < |r.aliases(items[i].title)| && Seen(r, items, seen, i, k)
    ensures var key := (r.aliases(items[i].title)[k], items[i].form);
      Seen(r, items, seen[key := (if key in seen then seen[key] else []) + [i]], i, k + 1)
  {
    var aliases := r.aliases(items[i].title);
    var key := (aliases[k], items[i].form);
    var after := seen[key := (if key in seen then seen[key] else []) + [i]];
    assert aliases[..k + 1] == aliases[..k] + [aliases[k]];
    forall alias, form, j: nat
      ensures Filed(after, alias, form, j) <==> Filed(seen, alias, form, j) || ((alias, form) == key && j == i)
    {
    }
  }

  lemma MetStep(r: Rules, items: seq<SearchResult>, root: seq<nat>, before: seq<nat>,
      seen: map<(string, Form), seq<nat>>, i: nat, k: nat)
    requires i < |items| && k < |r.aliases(items[i].title)| && Seen(r, items, seen, i, k)
    requires |root| == |items| && Coarser(root, before)
    requires AliasDone(r, items, before, i) && AliasesMet(r, items, before, i, k)
    requires forall j: nat | Filed(seen, r.aliases(items[i].title)[k], items[i].form, j) ::
      j < |items| && AliasLinked(r, items[i], items[j]) ==> root[i] == root[j]
    ensures AliasDone(r, items, root, i) && AliasesMet(r, items, root, i, k + 1)
  {
    forall a, j | 0 <= a < k + 1 && 0 <= j < i && AliasLinked(r, items[i], items[j])
      && r.aliases(items[i].title)[a] in r.aliases(items[j].title)
      ensures root[i] == root[j]
    {
      if a == k {
        assert Filed(seen, r.aliases(items[i].title)[k], items[i].form, j);
      }
    }
  }

  lemma RowDone(r: Rules, items: seq<SearchResult>, root: seq<nat>, i: nat)
    requires |root| == |items| && i < |items|
    requires AliasDone(r, items, root, i) && AliasesMet(r, items, root, i, |r.aliases(items[i].title)|)
    ensures AliasDone(r, items, root, i + 1)
  {
    forall x, y | 0 <= x < i + 1 && 0 <= y < i + 1 && AliasLinked(r, items[x], items[y])
      ensures root[x] == root[y]
    {
      var aliases := r.aliases(items[i].title);
      var shared :| shared in r.aliases(items[x].title) && shared in r.aliases(items[y].title);
      if x == i || y == i {
        var a :| 0 <= a < |aliases| && aliases[a] == shared;
      }
    }
  }

  lemma SeenRow(r: Rules, items: seq<SearchResult>, seen: map<(string, Form), seq<nat>>, i: nat)
    requires i < |items| && Seen(r, items, seen, i, |r.aliases(items[i].title)|)
    ensures Seen(r, items, seen, i + 1, 0)
  {
    var aliases := r.aliases(items[i].title);
    assert aliases[..|aliases|] == aliases;
  }

  // The innermost loop of the alias pass: card i against the cards filed under one alias.
  method MatchEarlier(r: Rules, items: seq<SearchResult>, uf: UF.UnionFind, i: nat, earlier: seq<nat>,
      log: seq<(nat, nat)>)
    returns (log': seq<(nat, nat)>)
    requires uf.Valid() && Sound(r, items, uf.root) && |log| + |UF.Roots(uf.root)| == |items|
    requires i < |items|
    requires forall t :: 0 <= t < |earlier| ==>
      earlier[t] < |items| && ShareAlias(r, items[i], items[earlier[t]]) && items[earlier[t]].form == items[i].form
    modifies uf, uf.parent
    ensures uf.Valid() && Sound(r, items, uf.root) && |log'| + |UF.Roots(uf.root)| == |items|
    ensures Coarser(uf.root, old(uf.root))
    ensures forall t :: 0 <= t < |earlier| && AliasLinked(r, items[i], items[earlier[t]]) ==>
      uf.root[i] == uf.root[earlier[t]]
  {
    log' := log;
    for m := 0 to |earlier|
      invariant uf.Valid() && Sound(r, items, uf.root) && |log'| + |UF.Roots(uf.root)| == |items|
      invariant Coarser(uf.root, old(uf.root))
      invariant forall t :: 0 <= t < m && AliasLinked(r, items[i], items[earlier[t]]) ==>
        uf.root[i] == uf.root[earlier[t]]
    {
      var j := earlier[m];
      if YearsMatch(EffectiveYear(r, items[i]), EffectiveYear(r, items[j])) {
        log' := UnionLinked(r, items, uf, i, j, log');
      }
    }
  }

  method AliasPass(r: Rules, items: seq<SearchResult>, uf: UF.UnionFind) returns (log: seq<(nat, nat)>)
    requires uf.Valid() && Sound(r, items, uf.root) && |UF.Roots(uf.root)| == |items|
    modifies uf, uf.parent
    ensures uf.Valid() && Sound(r, items, uf.root) && |log| + |UF.Roots(uf.root)| == |items|
    ensures AliasDone(r, items, uf.root, |items|)
  {
    log := [];
    var seen: map<(string, Form), seq<nat>> := map[];
    for i := 0 to |items|
      invariant uf.Valid() && Sound(r, items, uf.root) && |log| + |UF.Roots(uf.root)| == |items|
      invariant AliasDone(r, items, uf.root, i)
      invariant Seen(r, items, seen, i, 0)
    {
      var it := items[i];
      var aliases := r.aliases(it.title);
      for k := 0 to |aliases|
        invariant uf.Valid() && Sound(r, items, uf.root) && |log| + |UF.Roots(uf.root)| == |items|
        invariant AliasDone(r, items, uf.root, i) && AliasesMet(r, items, uf.root, i, k)
        invariant Seen(r, items, seen, i, k)
      {
        var key := (aliases[k], it.form);
        var earlier := if key in seen then seen[key] else [];
        ghost var before := uf.root;
        forall t | 0 <= t < |earlier|
          ensures earlier[t] <= i && aliases[k] in r.aliases(items[earlier[t]].title)
          ensures items[earlier[t]].form == it.form
        {
          assert Filed(seen, aliases[k], it.form, earlier[t]);
        }
        log := MatchEarlier(r, items, uf, i, earlier, log);
        MetStep(r, items, uf.root, before, seen, i, k);
        SeenStep(r, items, seen, i, k);
        seen := seen[key := earlier + [i]];
      }
      RowDone(r, items, uf.root, i);
      SeenRow(r, items, seen, i);
    }
  }

  ghost predicate ImdbDone(items: seq<SearchResult>, root: seq<nat>, n: nat)
    requires |root| == |items| && n <= |items|
  {
    forall x, y :: 0 <= x < n && 0 <= y < n && ImdbLinked(items[x], items[y]) ==> root[x] == root[y]
  }

  method ImdbPass(r: Rules, items: seq<SearchResult>, uf: UF.UnionFind, log: seq<(nat, nat)>)
    returns (log': seq<(nat, nat)>)
    requires uf.Valid() && Sound(r, items, uf.root) && |log| + |UF.Roots(uf.root)| == |items|
    modifies uf, uf.parent
    ensures uf.Valid() && Sound(r, items, uf.root) && |log'| + |UF.Roots(uf.root)| == |items|
    ensures Coarser(uf.root, old(uf.root)) && ImdbDone(items, uf.root, |items|)
  {
    log' := log;
    var seen: map<string, nat> := map[];
    for i := 0 to |items|
      invariant uf.Valid() && Sound(r, items, uf.root) && |log'| + |UF.Roots(uf.root)| == |items|
      invariant Coarser(uf.root, old(uf.root))
      invariant forall t :: t in seen ==> seen[t] < i && HasImdb(items[seen[t]]) && items[seen[t]].imdb == Some(t)
      invariant forall x :: 0 <= x < i && HasImdb(items[x]) ==>
        items[x].imdb.value in seen && uf.root[x] == uf.root[seen[items[x].imdb.value]]
    {
      if HasImdb(items[i]) {
        var imdb := items[i].imdb.value;
        if imdb !in seen {
          seen := seen[imdb := i];
        }
        log' := UnionLinked(r, items, uf, i, seen[imdb], log');
      }
    }
  }

  // After both passes the roots are exactly the classes of the closure.
  lemma RootsAreClasses(r: Rules, items: seq<SearchResult>, root: seq<nat>, x: nat, y: nat)
    requires Sound(r, items, root) && AliasDone(r, items, root, |items|) && ImdbDone(items, root, |items|)
    requires x < |items| && y < |items|
    ensures root[x] == root[y] <==> Connected(r, items, x, y)
  {
    if Connected(r, items, x, y) {
      var p :| IsPath(r, items, p, x, y);
      PathSameRoot(r, items, root, p, |p| - 1);
    }
  }

  lemma {:induction false} PathSameRoot(r: Rules, items: seq<SearchResult>, root: seq<nat>, p: seq<nat>, k: nat)
    requires |root| == |items| && AliasDone(r, items, root, |items|) && ImdbDone(items, root, |items|)
    requires k < |p| && IsPath(r, items, p, p[0], p[|p| - 1])
    ensures root[p[0]] == root[p[k]]
  {
    if k > 0 {
      PathSameRoot(r, items, root, p, k - 1);
      assert Linked(r, items[p[k - 1]], items[p[k - 1 + 1]]);
    }
  }

  ghost predicate Classes(r: Rules, items: seq<SearchResult>, root: seq<nat>) {
    && |root| == |items|
    && forall x, y :: 0 <= x < |root| && 0 <= y < |root| ==> SameClass(r, items, root, x, y)
  }

  ghost predicate SameClass(r: Rules, items: seq<SearchResult>, root: seq<nat>, x: nat, y: nat)
    requires x < |root| && y < |root|
  {
    root[x] == root[y] <==> Connected(r, items, x, y)
  }

  ghost function RootsAt(root: seq<nat>, ls: seq<nat>): seq<nat>
    requires forall k :: 0 <= k < |ls| ==> ls[k] < |root|
  {
    seq(|ls|, k requires 0 <= k < |ls| => root[ls[k]])
  }

  // The members filed under root b among the first n cards.
  ghost function Filing(root: seq<nat>, n: nat, b: nat): seq<nat>
    requires n <= |root|
  {
    if n == 0 then [] else Filing(root, n - 1, b) + if root[n - 1] == b then [n - 1] else []
  }

  lemma {:induction false} FilingIsMembers(r: Rules, items: seq<SearchResult>, root: seq<nat>, n: nat, x: nat)
    requires Classes(r, items, root) && n <= |items| && x < |items|
    ensures Filing(root, n, root[x]) == Members(r, items, n, x)
  {
    if n > 0 {
      FilingIsMembers(r, items, root, n - 1, x);
      assert SameClass(r, items, root, x, n - 1);
    }
  }

  // The dict of buckets, kept in insertion order, filed by root.
  ghost predicate Bucketed(r: Rules, items: seq<SearchResult>, root: seq<nat>, n: nat,
      order: seq<nat>, bucket: map<nat, seq<nat>>)
    requires n <= |items| == |root|
  {
    LeadersProperties(r, items, n);
    && order == RootsAt(root, LeadersBounded(r, items, n))
    && (forall b :: b in bucket ==> bucket[b] != [] && bucket[b] == Filing(root, n, b))
    && (forall x :: 0 <= x < n ==> root[x] in bucket)
  }

  ghost function LeadersBounded(r: Rules, items: seq<SearchResult>, n: nat): (ls: seq<nat>)
    requires n <= |items|
    ensures ls == Leaders(r, items, n) && forall k :: 0 <= k < |ls| ==> ls[k] < n
  {
    LeadersProperties(r, items, n);
    var ls := Leaders(r, items, n);
    assert forall k :: 0 <= k < |ls| ==> ls[k] in ls;
    ls
  }

  lemma {:induction false} FilingSome(root: seq<nat>, n: nat, b: nat)
    requires n <= |root|
    ensures Filing(root, n, b) != [] ==> exists x :: 0 <= x < n && root[x] == b
    ensures (exists x :: 0 <= x < n && root[x] == b) ==> Filing(root, n, b) != []
  {
    if n > 0 {
      FilingSome(root, n - 1, b);
    }
  }

  lemma BucketStep(r: Rules, items: seq<SearchResult>, root: seq<nat>, i: nat, order: seq<nat>,
      bucket: map<nat, seq<nat>>)
    requires Classes(r, items, root) && i < |items| && Bucketed(r, items, root, i, order, bucket)
    ensures var b := root[i];
      if b in bucket then Bucketed(r, items, root, i + 1, order, bucket[b := bucket[b] + [i]])
      else Bucketed(r, items, root, i + 1, order + [b], bucket[b := [i]])
  {
    var b := root[i];
    FilingSome(root, i, b);
    assert b in bucket <==> HasEarlier(r, items, i) by {
      if b in bucket {
        var x :| 0 <= x < i && root[x] == b;
        assert SameClass(r, items, root, x, i);
      }
      if HasEarlier(r, items, i) {
        var x: nat :| x < i && Connected(r, items, x, i);
        assert SameClass(r, items, root, x, i);
      }
    }
    var ls := LeadersBounded(r, items, i);
    var ls' := LeadersBounded(r, items, i + 1);
    assert RootsAt(root, ls') == RootsAt(root, ls) + if b in bucket then [] else [b];
  }

  method Buckets(r: Rules, items: seq<SearchResult>, uf: UF.UnionFind)
    returns (order: seq<nat>, bucket: map<nat, seq<nat>>)
    requires uf.Valid() && Classes(r, items, uf.root)
    modifies uf.parent
    ensures uf.Valid()
    ensures Bucketed(r, items, uf.root, |items|, order, bucket)
  {
    order, bucket := [], map[];
    for i := 0 to |items|
      invariant uf.Valid() && Bucketed(r, items, uf.root, i, order, bucket)
    {
      BucketStep(r, items, uf.root, i, order, bucket);
      var b := uf.Find(i);
      if b in bucket {
        bucket := bucket[b := bucket[b] + [i]];
      } else {
        order := order + [b];
        bucket := bucket[b := [i]];
      }
    }
  }

  // ---------------------------------------------------------------- merge_results

  // One root per class.
  lemma RootsCount(r: Rules, items: seq<SearchResult>, root: seq<nat>)
    requires Classes(r, items, root)
    requires forall x :: 0 <= x < |root| ==> root[x] < |root| && root[root[x]] == root[x]
    ensures |UF.Roots(root)| == |Leaders(r, items, |items|)|
  {
    var ls := LeadersBounded(r, items, |items|);
    LeadersProperties(r, items, |items|);
    var order := RootsAt(root, ls);
    forall a, b | 0 <= a < b < |order| ensures order[a] != order[b] {
      assert ls[a] in ls && ls[b] in ls && SameClass(r, items, root, ls[a], ls[b]);
      assert !HasEarlier(r, items, ls[b]);
    }
    Lex.DistinctCount(order);
    forall b | b in UF.Roots(root) ensures b in order {
      var l := LeaderOf(r, items, b);
      assert SameClass(r, items, root, l, b);
      var k :| 0 <= k < |ls| && ls[k] == l;
      assert order[k] == b;
    }
    assert Lex.Elements(order) == UF.Roots(root);
  }

  // Both passes over a fresh parent list: the roots become the classes of the closure.
  method UnionAll(r: Rules, items: seq<SearchResult>) returns (uf: UF.UnionFind, log: seq<(nat, nat)>)
    ensures fresh(uf) && fresh(uf.parent) && uf.Valid() && Classes(r, items, uf.root)
    ensures |log| + |Leaders(r, items, |items|)| == |items|
  {
    uf := new UF.UnionFind(|items|);
    forall x, y | 0 <= x < |items| && 0 <= y < |items| && uf.root[x] == uf.root[y]
      ensures Connected(r, items, x, y)
    {
      ConnectedReflexive(r, items, x);
    }
    Lex.DistinctCount(uf.root);
    assert UF.Roots(uf.root) == Lex.Elements(uf.root);
    log := AliasPass(r, items, uf);
    log := ImdbPass(r, items, uf, log);
    ghost var root := uf.root;
    forall x, y | 0 <= x < |root| && 0 <= y < |root| ensures SameClass(r, items, root, x, y) {
      RootsAreClasses(r, items, root, x, y);
    }
    forall x | 0 <= x < |root| ensures root[root[x]] == root[x] {
      assert UF.Node(uf.parent[..], root, uf.rank, x);
      assert UF.Node(uf.parent[..], root, uf.rank, root[x]);
    }
    RootsCount(r, items, root);
  }

  lemma BucketIsPart(r: Rules, items: seq<SearchResult>, root: seq<nat>,
      order: seq<nat>, bucket: map<nat, seq<nat>>, k: nat)
    requires Classes(r, items, root) && Bucketed(r, items, root, |items|, order, bucket) && k < |order|
    ensures |order| == |Partition(r, items)|
    ensures order[k] in bucket && bucket[order[k]] == Partition(r, items)[k]
  {
    var l := LeadersBounded(r, items, |items|)[k];
    assert root[l] == order[k];
    FilingIsMembers(r, items, root, |items|, l);
  }

  // The code computes the reference meaning, and logs exactly one line per join: as many
  // as there are cards absorbed into another card's group.
  method MergeResults(r: Rules, items: seq<SearchResult>) returns (groups: seq<MergeGroup>, log: seq<(nat, nat)>)
    ensures groups == MergeSpec(r, items)
    ensures |log| + |groups| == |items|
  {
    var uf;
    uf, log := UnionAll(r, items);
    var order, bucket := Buckets(r, items, uf);
    ghost var root, parts := uf.root, Partition(r, items);
    PartitionCovers(r, items);
    groups := [];
    for k := 0 to |order|
      invariant groups == MergeSpec(r, items)[..k]
    {
      BucketIsPart(r, items, root, order, bucket, k);
      var its := Pick(items, bucket[order[k]]);
      groups := groups + [MergeGroup(KeyOf(r, its), its)];
    }
  }
}
