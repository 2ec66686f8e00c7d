/** The disjoint-set forest behind community detection: a plain parent array, path
    halving inside `Find`, and links that never consult a size or rank. */
module UnionFind {

  /** `rank` witnesses that `p` is a forest: it strictly drops along every proper link. */
  ghost predicate Ranked(p: seq<nat>, rank: seq<nat>) {
    && |rank| == |p|
    && (forall x :: 0 <= x < |p| ==> p[x] < |p|)
    && (forall x :: 0 <= x < |p| && p[x] != x ==> rank[p[x]] < rank[x])
  }

  ghost predicate Acyclic(p: seq<nat>) {
    exists rank :: Ranked(p, rank)
  }

  /** The root above `x`, found by climbing with `rank` as the termination measure. */
  ghost function RootBy(p: seq<nat>, rank: seq<nat>, x: nat): (r: nat)
    requires Ranked(p, rank) && x < |p|
    ensures r < |p| && p[r] == r
    decreases rank[x]
  {
    if p[x] == x then x else RootBy(p, rank, p[x])
  }

  ghost function Root(p: seq<nat>, x: nat): (r: nat)
    requires Acyclic(p) && x < |p|
    ensures r < |p| && p[r] == r
  {
    var rank :| Ranked(p, rank);
    RootBy(p, rank, x)
  }

  /** The partition a forest stands for: the root of every position. */
  ghost function Roots(p: seq<nat>): (c: seq<nat>)
    requires Acyclic(p)
    ensures |c| == |p|
    ensures forall x :: 0 <= x < |p| ==> c[x] == Root(p, x) && c[x] < |p|
  {
    seq(|p|, x requires 0 <= x < |p| => Root(p, x))
  }

  /** The partition in which class `a` has been absorbed by class `b`. */
  function Merge(c: seq<nat>, a: nat, b: nat): (m: seq<nat>)
    ensures |m| == |c|
    ensures forall i :: 0 <= i < |c| ==> m[i] == if c[i] == a then b else c[i]
  {
    seq(|c|, i requires 0 <= i < |c| => if c[i] == a then b else c[i])
  }

  lemma {:induction false} RootRankIrrelevant(p: seq<nat>, r1: seq<nat>, r2: seq<nat>, x: nat)
    requires Ranked(p, r1) && Ranked(p, r2) && x < |p|
    ensures RootBy(p, r1, x) == RootBy(p, r2, x)
    decreases r1[x]
  {
    if p[x] != x {
      RootRankIrrelevant(p, r1, r2, p[x]);
    }
  }

  /** A forest has one root per node, whichever rank is used to climb. */
  lemma RootIs(p: seq<nat>, rank: seq<nat>, x: nat)
    requires Ranked(p, rank) && x < |p|
    ensures Acyclic(p) && Root(p, x) == RootBy(p, rank, x)
  {
    var other :| Ranked(p, other) && Root(p, x) == RootBy(p, other, x);
    RootRankIrrelevant(p, rank, other, x);
  }

  /** Path halving keeps the rank and the root of every node. */
  lemma {:induction false} HalvingKeepsRoot(p: seq<nat>, rank: seq<nat>, x: nat, y: nat)
    requires Ranked(p, rank) && x < |p| && y < |p|
    ensures Ranked(p[x := p[p[x]]], rank)
    ensures RootBy(p[x := p[p[x]]], rank, y) == RootBy(p, rank, y)
    decreases rank[y]
  {
    var q := p[x := p[p[x]]];
    assert Ranked(q, rank);
    if q[y] != y {
      HalvingKeepsRoot(p, rank, x, q[y]);
    }
  }

  /** The rank of a forest in which root `ra` now hangs below root `rb`: the whole tree
      of `ra` is lifted above `rb`, so no rank comparison is needed before linking. */
  ghost function LiftedRank(p: seq<nat>, rank: seq<nat>, ra: nat, rb: nat): (lifted: seq<nat>)
    requires Ranked(p, rank) && ra < |p| && rb < |p|
    ensures |lifted| == |p|
  {
    seq(|p|, x requires 0 <= x < |p| =>
      if RootBy(p, rank, x) == ra then rank[x] + rank[rb] + 1 else rank[x])
  }

  lemma {:induction false} LinkKeepsForest(p: seq<nat>, rank: seq<nat>, ra: nat, rb: nat, x: nat)
    requires Ranked(p, rank) && ra < |p| && rb < |p| && x < |p|
    requires p[ra] == ra && p[rb] == rb && ra != rb
    ensures Ranked(p[ra := rb], LiftedRank(p, rank, ra, rb))
    ensures RootBy(p[ra := rb], LiftedRank(p, rank, ra, rb), x)
         == if RootBy(p, rank, x) == ra then rb else RootBy(p, rank, x)
    decreases rank[x]
  {
    var q, lifted := p[ra := rb], LiftedRank(p, rank, ra, rb);
    assert Ranked(q, lifted);
    if p[x] != x {
      LinkKeepsForest(p, rank, ra, rb, p[x]);
    }
  }

  /** Linking two distinct roots leaves an acyclic array and merges exactly their classes. */
  lemma LinkMerges(p: seq<nat>, ra: nat, rb: nat)
    requires Acyclic(p) && ra < |p| && rb < |p|
    requires p[ra] == ra && p[rb] == rb && ra != rb
    ensures Acyclic(p[ra := rb])
    ensures Roots(p[ra := rb]) == Merge(Roots(p), ra, rb)
  {
    var rank :| Ranked(p, rank);
    var q, lifted := p[ra := rb], LiftedRank(p, rank, ra, rb);
    LinkKeepsForest(p, rank, ra, rb, ra);
    forall x | 0 <= x < |p|
      ensures Roots(q)[x] == Merge(Roots(p), ra, rb)[x]
    {
      LinkKeepsForest(p, rank, ra, rb, x);
      RootIs(p, rank, x);
      RootIs(q, lifted, x);
    }
  }

  /** The array currently stands for the partition `cls`. */
  ghost predicate Holds(parent: array<nat>, cls: seq<nat>)
    reads parent
  {
    Acyclic(parent[..]) && Roots(parent[..]) == cls
  }

  /** `find` with path halving: terminates on every forest, answers the root of `x0`, and
      leaves every node with the root it had. */
  method Find(parent: array<nat>, x0: nat, ghost cls: seq<nat>) returns (x: nat)
    requires Holds(parent, cls) && x0 < parent.Length
    modifies parent
    ensures Holds(parent, cls) && |cls| == parent.Length
    ensures x == cls[x0] < parent.Length && parent[x] == x
  {
    ghost var p0 := parent[..];
    ghost var rank :| Ranked(p0, rank);
    x := x0;
    while parent[x] != x
      invariant x < parent.Length && Ranked(parent[..], rank)
      invariant forall y :: 0 <= y < |p0| ==> RootBy(parent[..], rank, y) == RootBy(p0, rank, y)
      invariant RootBy(p0, rank, x) == RootBy(p0, rank, x0)
      decreases rank[x]
    {
      ghost var p := parent[..];
      forall y | 0 <= y < |p|
        ensures Ranked(p[x := p[p[x]]], rank)
        ensures RootBy(p[x := p[p[x]]], rank, y) == RootBy(p, rank, y)
      {
        HalvingKeepsRoot(p, rank, x, y);
      }
      parent[x] := parent[parent[x]];
      assert parent[..] == p[x := p[p[x]]];
      assert RootBy(parent[..], rank, x) == RootBy(parent[..], rank, parent[x]);
      x := parent[x];
    }
    assert RootBy(parent[..], rank, x) == x;
    forall y | 0 <= y < |p0|
      ensures Acyclic(parent[..]) && Root(parent[..], y) == Root(p0, y) == RootBy(p0, rank, y)
    {
      RootIs(p0, rank, y);
      RootIs(parent[..], rank, y);
    }
  }

  /** One edge visit of `community_labels`: both finds and the guarded link. */
  method Unite(parent: array<nat>, a: nat, b: nat, ghost cls: seq<nat>)
    requires Holds(parent, cls) && |cls| == parent.Length
    requires a < parent.Length && b < parent.Length
    modifies parent
    ensures Holds(parent, Merge(cls, cls[a], cls[b]))
  {
    var ra := Find(parent, a, cls);
    var rb := Find(parent, b, cls);
    if ra != rb {
      assert parent[..][ra] == ra by { assert ra == Root(parent[..], a); }
      LinkMerges(parent[..], ra, rb);
      ghost var linked := parent[..][ra := rb];
      parent[ra] := rb;
      assert parent[..] == linked;
    }
  }

  /** `(0..n).collect()`: every position is its own class. */
  method Singletons(n: nat) returns (parent: array<nat>)
    ensures fresh(parent) && parent.Length == n && Holds(parent, seq(n, i => i))
  {
    parent := new nat[n](i => i);
    assert Ranked(parent[..], parent[..]);
    forall i | 0 <= i < n ensures Roots(parent[..])[i] == i {
      RootIs(parent[..], parent[..], i);
      assert parent[..][i] == i;
    }
  }
}
