// The union-find inside merge.py: a parent list, path halving in `find`, and `union`
// hanging the first root under the second with no rank to balance it.
module UnionFind {

  // `root` is what `find` must answer; `rank` exists for the proof only: it grows strictly
  // towards the root, which is what makes the halving walk end.
  ghost predicate Forest(parent: seq<nat>, root: seq<nat>, rank: seq<nat>) {
    && |parent| == |root| == |rank|
    && (forall x :: 0 <= x < |parent| ==> parent[x] < |parent|)
    && (forall x :: 0 <= x < |root| ==> root[x] < |root|)
    && forall x :: 0 <= x < |parent| ==> Node(parent, root, rank, x)
  }

  ghost predicate Node(parent: seq<nat>, root: seq<nat>, rank: seq<nat>, x: nat)
    requires |parent| == |root| == |rank| && x < |parent|
    requires parent[x] < |parent| && root[x] < |parent|
  {
    && root[parent[x]] == root[x]
    && parent[root[x]] == root[x]
    && rank[x] <= rank[root[x]]
    && (if parent[x] == x then root[x] == x else rank[x] < rank[parent[x]])
  }

  // The classes after hanging ra's tree under rb.
  ghost function Join(root: seq<nat>, ra: nat, rb: nat): seq<nat> {
    seq(|root|, x requires 0 <= x < |root| => if root[x] == ra then rb else root[x])
  }

  // Everything under rb moves above ra's old height.
  ghost function Lift(rank: seq<nat>, root: seq<nat>, ra: nat, rb: nat): seq<nat>
    requires |rank| == |root| && ra < |rank|
  {
    seq(|rank|, x requires 0 <= x < |rank| => if root[x] == rb then rank[x] + rank[ra] + 1 else rank[x])
  }

  ghost function Roots(root: seq<nat>): set<nat> {
    set x: nat | x < |root| && root[x] == x
  }

  lemma HalveForest(parent: seq<nat>, root: seq<nat>, rank: seq<nat>, x: nat)
    requires Forest(parent, root, rank) && x < |parent| && parent[x] != x
    ensures var g := parent[parent[x]];
      Forest(parent[x := g], root, rank) && root[g] == root[x] && rank[x] < rank[g] <= rank[root[x]]
  {
    var p := parent[x];
    var g := parent[p];
    assert Node(parent, root, rank, x);
    assert Node(parent, root, rank, p);
    assert Node(parent, root, rank, g);
    var after := parent[x := g];
    forall y | 0 <= y < |after| ensures Node(after, root, rank, y) {
      assert Node(parent, root, rank, y);
    }
  }

  lemma JoinForest(parent: seq<nat>, root: seq<nat>, rank: seq<nat>, ra: nat, rb: nat)
    requires Forest(parent, root, rank)
    requires ra < |parent| && rb < |parent| && ra != rb && root[ra] == ra && root[rb] == rb
    ensures Forest(parent[ra := rb], Join(root, ra, rb), Lift(rank, root, ra, rb))
    ensures Roots(Join(root, ra, rb)) == Roots(root) - {ra}
  {
    var after := parent[ra := rb];
    var root', rank' := Join(root, ra, rb), Lift(rank, root, ra, rb);
    assert Node(parent, root, rank, ra) && Node(parent, root, rank, rb);
    forall x | 0 <= x < |after| ensures Node(after, root', rank', x) {
      assert Node(parent, root, rank, x);
    }
    forall x | 0 <= x < |root| ensures x in Roots(root') <==> x in Roots(root) && x != ra {
      assert Node(parent, root, rank, x);
    }
  }

  class UnionFind {
    const parent: array<nat>
    ghost var root: seq<nat>
    ghost var rank: seq<nat>

    ghost predicate Valid()
      reads this, parent
    {
      Forest(parent[..], root, rank)
    }

    constructor (n: nat)
      ensures Valid() && fresh(parent)
      ensures |root| == n && forall x :: 0 <= x < n ==> root[x] == x
    {
      parent := new nat[n](i => i);
      root := seq(n, i => i);
      rank := seq(n, i => 0);
      new;
      assert forall x :: 0 <= x < n ==> Node(parent[..], root, rank, x);
    }

    // Path halving rewrites parents but never changes a root.
    method Find(start: nat) returns (x: nat)
      requires Valid() && start < |root|
      modifies parent
      ensures Valid()
      ensures x == root[start] && x < |root| && root[x] == x
    {
      x := start;
      assert Node(parent[..], root, rank, x);
      while parent[x] != x
        invariant Valid() && x < |root| && root[x] == root[start] && rank[x] <= rank[root[x]]
        decreases rank[root[x]] - rank[x]
      {
        assert Node(parent[..], root, rank, x);
        HalveForest(parent[..], root, rank, x);
        ghost var before := parent[..];
        parent[x] := parent[parent[x]];
        assert parent[..] == before[x := parent[x]];
        x := parent[x];
      }
      assert Node(parent[..], root, rank, x);
    }

    method Union(a: nat, b: nat) returns (joined: bool)
      requires Valid() && a < |root| && b < |root|
      modifies this, parent
      ensures Valid()
      ensures joined <==> old(root[a] != root[b])
      ensures root == Join(old(root), old(root[a]), old(root[b]))
      ensures Roots(root) == Roots(old(root)) - if joined then {old(root[a])} else {}
    {
      var ra := Find(a);
      var rb := Find(b);
      if ra == rb {
        assert root == Join(root, ra, rb);
        return false;
      }
      JoinForest(parent[..], root, rank, ra, rb);
      ghost var before := parent[..];
      parent[ra] := rb;
      assert parent[..] == before[ra := rb];
      root, rank := Join(root, ra, rb), Lift(rank, root, ra, rb);
      return true;
    }
  }
}
