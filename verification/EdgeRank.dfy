/** What PageRank is, in terms of the edge list alone: every node hands 0.85 of its score along its edge
    ends, or to everybody when it has none. */
module EdgeRank {
  import opened Base
  import opened Sums
  import C = Communities

  /** How many edge ends join `u` to `t`: one per edge between them, two per self-loop. */
  ghost function Joining(edges: seq<C.Edge>, u: Uuid, t: Uuid): nat {
    if edges == [] then 0
    else
      var e := edges[|edges| - 1];
      Joining(edges[..|edges| - 1], u, t) + (if e == (u, t) then 1 else 0) + (if e == (t, u) then 1 else 0)
  }

  /** How many edge ends there are at `u`. */
  ghost function Ends(edges: seq<C.Edge>, u: Uuid): nat {
    if edges == [] then 0
    else
      var e := edges[|edges| - 1];
      Ends(edges[..|edges| - 1], u) + (if e.0 == u then 1 else 0) + (if e.1 == u then 1 else 0)
  }

  /** The fraction of `u`'s score that one round hands to `t`. */
  ghost function EdgeShare(nodes: seq<Uuid>, edges: seq<C.Edge>, u: Uuid, t: Uuid): real {
    if Ends(edges, u) > 0 then Part(Ends(edges, u), Joining(edges, u, t))
    else if nodes != [] then Part(|nodes|, 1)
    else 0.0
  }

  /** `c` of `n` equal parts of 0.85. */
  ghost function Part(n: nat, c: nat): real
    requires n > 0
  {
    0.85 / n as real * c as real
  }

  lemma PartPositive(n: nat, c: nat)
    requires n > 0
    ensures Part(n, c) > 0.0 <==> c > 0
  {
    var unit := 0.85 / n as real;
    assert unit > 0.0;
    if c > 0 {
      ProductPositive(unit, c as real);
    }
  }

  lemma ProductPositive(a: real, b: real)
    requires a > 0.0 && b > 0.0
    ensures a * b > 0.0
  {
  }

  /** The score of `t` after `k` rounds from equal scores. */
  ghost function ScoreAfter(nodes: seq<Uuid>, edges: seq<C.Edge>, k: nat, t: Uuid): real {
    if nodes == [] then 0.0
    else if k == 0 then 1.0 / |nodes| as real
    else 0.15 / |nodes| as real + Sum(nodes, u => EdgeShare(nodes, edges, u, t) * ScoreAfter(nodes, edges, k - 1, u))
  }

  lemma ScoreIsSum(nodes: seq<Uuid>, edges: seq<C.Edge>, k: nat, t: Uuid, b: Uuid -> real, y: Uuid -> real)
    requires nodes != [] && k > 0
    requires forall u :: b(u) == EdgeShare(nodes, edges, u, t) && y(u) == ScoreAfter(nodes, edges, k - 1, u)
    ensures ScoreAfter(nodes, edges, k, t) == 0.15 / |nodes| as real + Sum(nodes, u => b(u) * y(u))
  {
    var g: Uuid -> real := u => b(u) * y(u);
    SumCongruent(nodes, g, u => EdgeShare(nodes, edges, u, t) * ScoreAfter(nodes, edges, k - 1, u));
    SumCongruent(nodes, g, u => b(u) * y(u));
  }

  lemma SumOfProducts(nodes: seq<Uuid>, a: Uuid -> real, x: Uuid -> real, b: Uuid -> real, y: Uuid -> real)
    requires forall u :: u in nodes ==> a(u) == b(u) && x(u) == y(u)
    ensures Sum(nodes, u => a(u) * x(u)) == Sum(nodes, u => b(u) * y(u))
  {
    SumCongruent(nodes, u => a(u) * x(u), u => b(u) * y(u));
  }

  lemma {:induction false} NeighbourCounts(edges: seq<C.Edge>, u: Uuid, t: Uuid)
    ensures Count(C.Neighbours(edges, u), t) == Joining(edges, u, t)
    ensures |C.Neighbours(edges, u)| == Ends(edges, u)
  {
    if edges == [] {
    } else {
      var front := C.Neighbours(edges[..|edges| - 1], u);
      var (s, d) := edges[|edges| - 1];
      NeighbourCounts(edges[..|edges| - 1], u, t);
      var one := front + (if s == u then [d] else []);
      CountSnoc(front, d, t);
      assert front + [] == front && one + [] == one;
      CountSnoc(one, s, t);
    }
  }

  /** A share is positive exactly when an edge joins the two, or the node has none. */
  lemma SharePositive(nodes: seq<Uuid>, edges: seq<C.Edge>, u: Uuid, t: Uuid)
    requires nodes != []
    ensures EdgeShare(nodes, edges, u, t) > 0.0 <==> C.Adjacent(edges, u, t) || Ends(edges, u) == 0
  {
    NeighbourCounts(edges, u, t);
    C.NeighboursAreAdjacent(edges, u, t);
    CountPositive(C.Neighbours(edges, u), t);
    if Ends(edges, u) > 0 {
      PartPositive(Ends(edges, u), Joining(edges, u, t));
    } else {
      PartPositive(|nodes|, 1);
    }
  }

  lemma {:induction false} CountPositive(xs: seq<Uuid>, u: Uuid)
    ensures Count(xs, u) > 0 <==> u in xs
  {
    if xs == [] {
    } else {
      CountPositive(xs[1..], u);
    }
  }
}
