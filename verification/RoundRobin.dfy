// home.py, the collecting walk of round_robin_dedup: one card per provider and round.
// A provider is its position in the mapping.
module RoundRobin {
  import opened WireIdentity
  import Lex

  type Listings = seq<seq<SearchResult>>

  // A card's place: which provider, which position in its listing.
  datatype Place = Place(provider: nat, pos: nat)

  ghost predicate Exists(lists: Listings, c: Place) {
    c.provider < |lists| && c.pos < |lists[c.provider]|
  }

  // The walk visits (position, provider) in lexicographic order.
  ghost predicate Before(a: Place, b: Place) {
    a.pos < b.pos || (a.pos == b.pos && a.provider < b.provider)
  }

  ghost function Round(lists: Listings, pos: nat, n: nat): seq<Place>
    requires n <= |lists|
  {
    if n == 0 then []
    else Round(lists, pos, n - 1) + if pos < |lists[n - 1]| then [Place(n - 1, pos)] else []
  }

  ghost function Rounds(lists: Listings, n: nat): seq<Place> {
    if n == 0 then [] else Rounds(lists, n - 1) + Round(lists, n - 1, |lists|)
  }

  ghost function Longest(lists: Listings): nat {
    if lists == [] then 0
    else var n := Longest(lists[1..]); if |lists[0]| > n then |lists[0]| else n
  }

  // Every card, in visiting order.
  ghost function Order(lists: Listings): seq<Place> {
    Rounds(lists, Longest(lists))
  }

  function Total(lists: Listings): nat {
    if lists == [] then 0 else |lists[|lists| - 1]| + Total(lists[..|lists| - 1])
  }

  ghost function CardAt(lists: Listings, c: Place): SearchResult
    requires Exists(lists, c)
  {
    lists[c.provider][c.pos]
  }

  ghost function CardsAt(lists: Listings, places: seq<Place>): seq<SearchResult>
    requires forall k :: 0 <= k < |places| ==> Exists(lists, places[k])
  {
    seq(|places|, k requires 0 <= k < |places| => CardAt(lists, places[k]))
  }

  ghost predicate Sorted(places: seq<Place>) {
    forall a, b :: 0 <= a < b < |places| ==> Before(places[a], places[b])
  }

  lemma SortedConcat(s: seq<Place>, t: seq<Place>)
    requires Sorted(s) && Sorted(t) && forall x, y :: x in s && y in t ==> Before(x, y)
    ensures Sorted(s + t)
  {
    forall a, b | 0 <= a < b < |s + t| ensures Before((s + t)[a], (s + t)[b]) {
      if a < |s| <= b {
        assert s[a] in s && t[b - |s|] in t;
      }
    }
  }

  lemma {:induction false} RoundProperties(lists: Listings, pos: nat, n: nat)
    requires n <= |lists|
    ensures forall c :: c in Round(lists, pos, n) <==> c.provider < n && Exists(lists, c) && c.pos == pos
    ensures Sorted(Round(lists, pos, n))
  {
    if n > 0 {
      RoundProperties(lists, pos, n - 1);
      var s := Round(lists, pos, n - 1);
      assert forall k :: 0 <= k < |s| ==> s[k] in s;
    }
  }

  lemma {:induction false} RoundsProperties(lists: Listings, n: nat)
    ensures forall c :: c in Rounds(lists, n) <==> Exists(lists, c) && c.pos < n
    ensures Sorted(Rounds(lists, n))
  {
    if n > 0 {
      RoundsProperties(lists, n - 1);
      RoundProperties(lists, n - 1, |lists|);
      SortedConcat(Rounds(lists, n - 1), Round(lists, n - 1, |lists|));
    }
  }

  lemma {:induction false} LongestBounds(lists: Listings)
    ensures forall p :: 0 <= p < |lists| ==> |lists[p]| <= Longest(lists)
    ensures Longest(lists) > 0 ==> exists p :: 0 <= p < |lists| && |lists[p]| == Longest(lists)
  {
    if lists != [] {
      var rest := lists[1..];
      LongestBounds(rest);
      assert forall p :: 0 <= p < |rest| ==> rest[p] == lists[p + 1];
      if Longest(lists) > |lists[0]| {
        var p :| 0 <= p < |rest| && |rest[p]| == Longest(rest);
        assert |lists[p + 1]| == Longest(lists);
      }
    }
  }

  // The order visits every card exactly once.
  lemma OrderComplete(lists: Listings)
    ensures forall c :: c in Order(lists) <==> Exists(lists, c)
    ensures forall k :: 0 <= k < |Order(lists)| ==> Exists(lists, Order(lists)[k])
    ensures Sorted(Order(lists))
    ensures |Order(lists)| == Total(lists)
  {
    LongestBounds(lists);
    RoundsProperties(lists, Longest(lists));
    var o := Order(lists);
    assert forall k :: 0 <= k < |o| ==> o[k] in o;
    Lex.DistinctCount(o);
    PlacesCount(lists);
    assert Lex.Elements(o) == Places(lists);
  }

  ghost function Places(lists: Listings): set<Place> {
    set p: nat, k: nat | p < |lists| && k < |lists[p]| :: Place(p, k)
  }

  lemma {:induction false} PlacesCount(lists: Listings)
    ensures |Places(lists)| == Total(lists)
  {
    if lists != [] {
      var n := |lists| - 1;
      PlacesCount(lists[..n]);
      var row := seq(|lists[n]|, k requires k >= 0 => Place(n, k));
      Lex.DistinctCount(row);
      forall c | c in Lex.Elements(row) ensures c.provider == n && c.pos < |lists[n]| {}
      forall k: nat | k < |lists[n]| ensures Place(n, k) in row { assert row[k] == Place(n, k); }
      assert Places(lists) == Places(lists[..n]) + Lex.Elements(row);
    }
  }

  // What the walk collects under a budget.
  ghost function Collected(lists: Listings, budget: nat): seq<SearchResult> {
    OrderComplete(lists);
    CardsAt(lists, Order(lists)[..if budget < Total(lists) then budget else Total(lists)])
  }

  // Fairness: stopping anywhere, each provider has given a prefix of its listing, in order,
  // and no provider that still has cards is more than one card behind another.
  lemma WalkIsFair(lists: Listings, m: nat, a: nat)
    requires a < m <= Total(lists)
    ensures |Order(lists)| == Total(lists) && Exists(lists, Order(lists)[a])
    ensures var c := Order(lists)[a];
      && (forall k: nat :: k < c.pos ==> Place(c.provider, k) in Order(lists)[..a])
      && (forall q: nat :: q < |lists| && 0 < c.pos <= |lists[q]| ==> Place(q, c.pos - 1) in Order(lists)[..a])
  {
    OrderComplete(lists);
    var o := Order(lists);
    var c := o[a];
    assert c in o;
    forall d | Exists(lists, d) && Before(d, c) ensures d in o[..a] {
      var b :| 0 <= b < |o| && o[b] == d;
      assert b < a;
      assert o[..a][b] == d;
    }
  }

  lemma {:induction false} RoundsGrow(lists: Listings, m: nat, n: nat)
    requires m <= n
    ensures Rounds(lists, m) <= Rounds(lists, n)
  {
    if m < n {
      RoundsGrow(lists, m, n - 1);
    }
  }

  lemma {:induction false} RoundGrows(lists: Listings, pos: nat, m: nat, n: nat)
    requires m <= n <= |lists|
    ensures Round(lists, pos, m) <= Round(lists, pos, n)
  {
    if m < n {
      RoundGrows(lists, pos, m, n - 1);
    }
  }

  // The places visited before the provider at n in the given round.
  ghost function Visited(lists: Listings, round: nat, n: nat): (ps: seq<Place>)
    requires n <= |lists|
    ensures forall k :: 0 <= k < |ps| ==> Exists(lists, ps[k])
  {
    RoundsProperties(lists, round);
    RoundProperties(lists, round, n);
    var ps := Rounds(lists, round) + Round(lists, round, n);
    assert forall k :: 0 <= k < |ps| ==> ps[k] in ps;
    ps
  }

  lemma PrefixTransitive(a: seq<Place>, b: seq<Place>, c: seq<Place>)
    requires a <= b && b <= c
    ensures a <= c
  {
  }

  lemma VisitedIsPrefix(lists: Listings, round: nat, n: nat)
    requires n <= |lists|
    ensures Visited(lists, round, n) <= Order(lists)
  {
    RoundGrows(lists, round, n, |lists|);
    assert Visited(lists, round, n) <= Rounds(lists, round + 1);
    var top := if round + 1 > Longest(lists) then round + 1 else Longest(lists);
    RoundsGrow(lists, round + 1, top);
    PrefixTransitive(Visited(lists, round, n), Rounds(lists, round + 1), Rounds(lists, top));
    NothingBeyond(lists, top);
  }

  lemma RoundEmpty(lists: Listings, pos: nat)
    requires forall p :: 0 <= p < |lists| ==> |lists[p]| <= pos
    ensures Round(lists, pos, |lists|) == []
  {
    RoundProperties(lists, pos, |lists|);
    Lex.DistinctCount(Round(lists, pos, |lists|));
    assert Lex.Elements(Round(lists, pos, |lists|)) == {};
  }

  lemma {:induction false} NothingBeyond(lists: Listings, n: nat)
    requires n >= Longest(lists)
    ensures Rounds(lists, n) == Order(lists)
  {
    if n > Longest(lists) {
      NothingBeyond(lists, n - 1);
      LongestBounds(lists);
      RoundProperties(lists, n - 1, |lists|);
      RoundEmpty(lists, n - 1);
    }
  }

  function Behind(lists: Listings, p: nat, round: nat): nat
    requires p < |lists|
  {
    if round < |lists[p]| then round else |lists[p]|
  }

  // The cards of the first `round` rounds and of the next one's first i providers.
  ghost predicate WalkedTo(lists: Listings, collected: seq<SearchResult>, cursors: seq<nat>, round: nat, i: nat)
    requires i <= |lists|
  {
    && collected == CardsAt(lists, Visited(lists, round, i))
    && |cursors| == |lists|
    && (forall p :: 0 <= p < i ==> cursors[p] == Behind(lists, p, round + 1))
    && (forall p :: i <= p < |lists| ==> cursors[p] == Behind(lists, p, round))
  }

  lemma WalkStep(lists: Listings, collected: seq<SearchResult>, cursors: seq<nat>, round: nat, i: nat)
    requires i < |lists| && WalkedTo(lists, collected, cursors, round, i)
    ensures if cursors[i] < |lists[i]| then
        && WalkedTo(lists, collected + [lists[i][cursors[i]]], cursors[i := cursors[i] + 1], round, i + 1)
        && Round(lists, round, i + 1) != []
      else
        && WalkedTo(lists, collected, cursors, round, i + 1)
        && Round(lists, round, i + 1) == Round(lists, round, i)
  {
    assert Visited(lists, round, i + 1)
        == Visited(lists, round, i) + if round < |lists[i]| then [Place(i, round)] else [];
  }

  lemma WalkStops(lists: Listings, collected: seq<SearchResult>, cursors: seq<nat>, round: nat, i: nat, budget: nat)
    requires i <= |lists| && WalkedTo(lists, collected, cursors, round, i)
    requires |collected| == budget || (|collected| <= budget && i == |lists| && Round(lists, round, i) == [])
    ensures collected == Collected(lists, budget)
  {
    OrderComplete(lists);
    VisitedIsPrefix(lists, round, i);
    if |collected| != budget {
      NoProgress(lists, round);
    }
  }

  // One pass over the providers, cut short when the budget is met.
  method WalkRound(lists: Listings, budget: nat, collected: seq<SearchResult>, cursors: seq<nat>, ghost round: nat)
    returns (collected': seq<SearchResult>, cursors': seq<nat>, progress: bool)
    requires |collected| < budget && WalkedTo(lists, collected, cursors, round, 0)
    ensures |collected| <= |collected'| <= budget && (progress <==> |collected'| > |collected|)
    ensures |collected'| == budget ==> collected' == Collected(lists, budget)
    ensures |collected'| < budget ==> WalkedTo(lists, collected', cursors', round + 1, 0)
    ensures !progress ==> collected' == Collected(lists, budget)
  {
    collected', cursors', progress := collected, cursors, false;
    for i := 0 to |lists|
      invariant |collected'| < budget && WalkedTo(lists, collected', cursors', round, i)
      invariant |collected'| == |collected| + |Round(lists, round, i)|
      invariant progress <==> |collected'| > |collected|
    {
      WalkStep(lists, collected', cursors', round, i);
      var cursor := cursors'[i];
      if cursor < |lists[i]| {
        collected' := collected' + [lists[i][cursor]];
        cursors' := cursors'[i := cursor + 1];
        progress := true;
        if |collected'| >= budget {
          WalkStops(lists, collected', cursors', round, i + 1, budget);
          return;
        }
      }
    }
    if !progress {
      WalkStops(lists, collected', cursors', round, |lists|, budget);
    }
    assert Visited(lists, round + 1, 0) == Visited(lists, round, |lists|);
  }

  method Walk(lists: Listings, budget: nat) returns (collected: seq<SearchResult>)
    ensures collected == Collected(lists, budget)
  {
    collected := [];
    var cursors: seq<nat> := seq(|lists|, p => 0);
    ghost var round := 0;
    assert Visited(lists, 0, 0) == [];
    var progress := true;
    while |collected| < budget && progress
      invariant |collected| <= budget
      invariant |collected| < budget && progress ==> WalkedTo(lists, collected, cursors, round, 0)
      invariant |collected| == budget > 0 || !progress ==> collected == Collected(lists, budget)
      decreases budget - |collected|, progress
    {
      collected, cursors, progress := WalkRound(lists, budget, collected, cursors, round);
      round := round + 1;
    }
    OrderComplete(lists);
  }

  // The walk takes as many cards as the budget allows and the listings hold.
  lemma WalkCount(lists: Listings, budget: nat)
    ensures |Collected(lists, budget)| == if budget < Total(lists) then budget else Total(lists)
  {
    OrderComplete(lists);
  }

  lemma NoProgress(lists: Listings, round: nat)
    requires Round(lists, round, |lists|) == []
    ensures Rounds(lists, round) == Order(lists)
  {
    RoundProperties(lists, round, |lists|);
    LongestBounds(lists);
    forall p | 0 <= p < |lists| ensures |lists[p]| <= round {
      assert Place(p, round) !in Round(lists, round, |lists|);
    }
    NothingBeyond(lists, round);
  }
}
