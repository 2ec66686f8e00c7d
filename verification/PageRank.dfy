/** PageRank of the concept graph: thirty rounds of damped power iteration. */
module PageRank {
  import opened Base
  import opened Sums
  import opened Flows
  import opened PowerIteration
  import opened FixedPoint
  import opened EdgeRank
  import C = Communities
  import Sorting

  const ROUNDS: nat := 30

  type Scores = map<Uuid, real>

  /** The node list and its adjacency. */
  datatype Web = Web(nodes: seq<Uuid>, adj: map<Uuid, seq<Uuid>>)

  /** Node ids are a primary key and every edge joins two listed nodes. */
  ghost predicate ValidWeb(w: Web) {
    && w.nodes != [] && Distinct(w.nodes)
    && forall u :: u in w.nodes ==> u in w.adj && forall v :: v in w.adj[u] ==> v in w.nodes
  }

  /** Where `u`'s score goes: its neighbour entries, or all nodes when it has none. */
  function Targets(w: Web, u: Uuid): seq<Uuid> {
    if u in w.adj && w.adj[u] != [] then w.adj[u] else w.nodes
  }

  /** The fraction of `u`'s score that one round hands to `t`. */
  ghost function Weight(w: Web, u: Uuid, t: Uuid): (k: real)
    ensures k >= 0.0
  {
    if Targets(w, u) == [] then 0.0
    else DAMPING / |Targets(w, u)| as real * Count(Targets(w, u), t) as real
  }

  ghost function SurferOf(w: Web): Surfer {
    Surfer(w.nodes, (u, t) => Weight(w, u, t), if w.nodes == [] then 0.0 else Teleport(|w.nodes|))
  }

  function Teleport(n: nat): real
    requires n > 0
  {
    (1.0 - DAMPING) / n as real
  }

  ghost function Uniform(w: Web): Vector
    requires w.nodes != []
  {
    Everywhere(1.0 / |w.nodes| as real)
  }

  lemma DivideBack(d: real, n: real)
    requires n > 0.0
    ensures d / n * n == d
  {
  }

  /** Repeated edges, self-loops and isolated nodes included, every node of a valid graph gives
      away exactly 0.85 of its score. */
  lemma WebIsValid(w: Web)
    requires ValidWeb(w)
    ensures Valid(SurferOf(w))
  {
    var s := SurferOf(w);
    forall u | u in w.nodes ensures Outflow(s.nodes, s.kernel, u) == DAMPING {
      NodeGivesAway(w, u);
    }
    SumConstant(w.nodes, s.base);
    SumCongruent(w.nodes, Everywhere(s.base), t => s.base);
    DivideBack(1.0 - DAMPING, |w.nodes| as real);
  }

  lemma NodeGivesAway(w: Web, u: Uuid)
    requires ValidWeb(w) && u in w.nodes
    ensures Outflow(w.nodes, SurferOf(w).kernel, u) == DAMPING
  {
    var k := SurferOf(w).kernel;
    var row: Vector := t => k(u, t);
    RowGivesAway(w, u, row);
    SumCongruent(w.nodes, row, t => k(u, t));
  }

  lemma RowGivesAway(w: Web, u: Uuid, row: Vector)
    requires ValidWeb(w) && u in w.nodes && forall t :: t in w.nodes ==> row(t) == Weight(w, u, t)
    ensures Sum(w.nodes, row) == DAMPING
  {
    var to := Targets(w, u);
    var share, counts: Vector := DAMPING / |to| as real, t => Count(to, t) as real;
    forall t | t in w.nodes ensures row(t) == share * counts(t) {
      WeightIs(w, u, t, share, counts(t));
    }
    SumOfCounts(w.nodes, to, counts);
    SharesBack(w.nodes, share, counts, row, |to| as real);
  }

  lemma SharesBack(nodes: seq<Uuid>, share: real, counts: Vector, row: Vector, n: real)
    requires n > 0.0 && share == DAMPING / n && Sum(nodes, counts) == n
    requires forall t :: t in nodes ==> row(t) == share * counts(t)
    ensures Sum(nodes, row) == DAMPING
  {
    SumScaled(nodes, share, counts, row, n);
    DivideBack(DAMPING, n);
  }

  lemma WeightIs(w: Web, u: Uuid, t: Uuid, share: real, count: real)
    requires Targets(w, u) != []
    requires share == DAMPING / |Targets(w, u)| as real && count == Count(Targets(w, u), t) as real
    ensures Weight(w, u, t) == share * count
  {
  }

  lemma UniformIsDistribution(w: Web)
    requires ValidWeb(w)
    ensures IsDistribution(SurferOf(w), Uniform(w))
  {
    var c := 1.0 / |w.nodes| as real;
    SumConstant(w.nodes, c);
    SumCongruent(w.nodes, Uniform(w), t => c);
    DivideBack(1.0, |w.nodes| as real);
  }

  /** The scores the source's thirty rounds produce. */
  ghost predicate IsPageRank(w: Web, rank: Scores) {
    && w.nodes != []
    && (forall u :: u in rank <==> u in w.nodes)
    && (forall u :: u in w.nodes ==> rank[u] == Iterate(SurferOf(w), Uniform(w), ROUNDS)(u))
  }

  ghost function VectorOf(rank: Scores): Vector { u => if u in rank then rank[u] else 0.0 }

  lemma LastRound(w: Web, rank: Scores)
    requires ValidWeb(w) && IsPageRank(w, rank)
    ensures Valid(SurferOf(w)) && IsDistribution(SurferOf(w), Uniform(w))
    ensures forall u :: u in w.nodes ==> VectorOf(rank)(u) == Iterate(SurferOf(w), Uniform(w), ROUNDS)(u)
  {
    WebIsValid(w);
    UniformIsDistribution(w);
  }

  /** The result is a probability distribution in which every node has at least 0.15/n. */
  lemma PageRankIsDistribution(w: Web, rank: Scores)
    requires ValidWeb(w) && IsPageRank(w, rank)
    ensures Total(SurferOf(w), VectorOf(rank)) == 1.0
    ensures AtLeast(SurferOf(w), VectorOf(rank), Teleport(|w.nodes|))
  {
    var s, x := SurferOf(w), Uniform(w);
    LastRound(w, rank);
    IterateIsDistribution(s, x, ROUNDS);
    SumCongruent(s.nodes, VectorOf(rank), Iterate(s, x, ROUNDS));
  }

  /** `p` is the one score vector a round leaves alone; it is a distribution with the same floor as
      the result. */
  ghost predicate IsTheFixedPoint(s: Surfer, p: Vector) {
    && IsFixedPoint(s, p) && IsDistribution(s, p) && AtLeast(s, p, s.base)
    && (forall q, u :: IsFixedPoint(s, q) && u in s.nodes ==> q(u) == p(u))
  }

  /** The round has exactly one fixed point, and the result is within `2 * 0.85^30` of it. */
  lemma PageRankNearFixedPoint(w: Web, rank: Scores) returns (p: Vector)
    requires ValidWeb(w) && IsPageRank(w, rank)
    ensures IsTheFixedPoint(SurferOf(w), p)
    ensures Distance(SurferOf(w), VectorOf(rank), p) <= 2.0 * Power(0.85, 30)
  {
    LastRound(w, rank);
    p := FixedPointExists(SurferOf(w));
    OnlyFixedPoint(SurferOf(w), p);
    ResultNear(w, rank, p);
  }

  lemma OnlyFixedPoint(s: Surfer, p: Vector)
    requires Valid(s) && IsFixedPoint(s, p)
    ensures IsTheFixedPoint(s, p)
  {
    FixedPointIsDistribution(s, p);
    forall q, u | IsFixedPoint(s, q) && u in s.nodes ensures q(u) == p(u) {
      FixedPointUnique(s, q, p, u);
    }
  }

  lemma ResultNear(w: Web, rank: Scores, p: Vector)
    requires ValidWeb(w) && IsPageRank(w, rank) && IsFixedPoint(SurferOf(w), p)
    ensures Distance(SurferOf(w), VectorOf(rank), p) <= 2.0 * Power(0.85, 30)
  {
    LastRound(w, rank);
    NearFixedPoint(SurferOf(w), Uniform(w), p, ROUNDS);
    DistanceCongruent(SurferOf(w), VectorOf(rank), p, Iterate(SurferOf(w), Uniform(w), ROUNDS), p);
    DampIsPower(2.0, ROUNDS);
  }

  /** The result is within `2 * 0.85^30` of what any number of further rounds would give. */
  lemma PageRankConverged(w: Web, rank: Scores, more: nat)
    requires ValidWeb(w) && IsPageRank(w, rank)
    ensures Distance(SurferOf(w), VectorOf(rank), Iterate(SurferOf(w), Uniform(w), more + ROUNDS))
         <= 2.0 * Power(0.85, 30)
  {
    var later := Iterate(SurferOf(w), Uniform(w), more + ROUNDS);
    LastRound(w, rank);
    RoundsConverge(SurferOf(w), Uniform(w), ROUNDS, more);
    DistanceCongruent(SurferOf(w), VectorOf(rank), later, Iterate(SurferOf(w), Uniform(w), ROUNDS), later);
    DampIsPower(2.0, ROUNDS);
  }

  // ---- the edges --------------------------------------------------------------------

  /** The web is that of an edge list over the nodes. */
  ghost predicate WebOf(w: Web, edges: seq<C.Edge>) {
    && w.nodes != [] && Distinct(w.nodes) && C.IsAdjacency(w.nodes, edges, w.adj)
    && forall e :: e in edges ==> e.0 in w.nodes && e.1 in w.nodes
  }

  /** A node with edges hands 0.85 of its score out along its edge ends, in equal parts; one without
      hands it to all nodes, in equal parts. */
  lemma WeightByEdges(w: Web, edges: seq<C.Edge>, u: Uuid, t: Uuid)
    requires WebOf(w, edges) && u in w.nodes && t in w.nodes
    ensures Weight(w, u, t) == EdgeShare(w.nodes, edges, u, t)
  {
    NeighbourCounts(edges, u, t);
    CountDistinct(w.nodes, t);
    if Ends(edges, u) > 0 {
      assert Targets(w, u) == C.Neighbours(edges, u);
      WeightIsPart(w, u, t, Ends(edges, u), Joining(edges, u, t));
    } else {
      assert Targets(w, u) == w.nodes;
      WeightIsPart(w, u, t, |w.nodes|, 1);
    }
  }

  lemma WeightIsPart(w: Web, u: Uuid, t: Uuid, n: nat, c: nat)
    requires n > 0 && |Targets(w, u)| == n && Count(Targets(w, u), t) == c
    ensures Weight(w, u, t) == Part(n, c)
  {
  }

  /** So a node with edges hands something exactly to the nodes an edge joins it to. */
  lemma WeightPositive(w: Web, edges: seq<C.Edge>, u: Uuid, t: Uuid)
    requires WebOf(w, edges) && u in w.nodes && t in w.nodes && Ends(edges, u) > 0
    ensures Weight(w, u, t) > 0.0 <==> C.Adjacent(edges, u, t)
  {
    WeightByEdges(w, edges, u, t);
    SharePositive(w.nodes, edges, u, t);
  }

  /** `x` holds the scores the edge list gives after `k` rounds. */
  ghost predicate HoldsRound(w: Web, edges: seq<C.Edge>, k: nat, x: Vector) {
    forall t :: t in w.nodes ==> x(t) == ScoreAfter(w.nodes, edges, k, t)
  }

  lemma RoundByEdges(w: Web, edges: seq<C.Edge>, x: Vector, k: nat, t: Uuid)
    requires WebOf(w, edges) && t in w.nodes && k > 0 && HoldsRound(w, edges, k - 1, x)
    ensures Step(SurferOf(w), x)(t) == ScoreAfter(w.nodes, edges, k, t)
  {
    var a: Vector := u => Weight(w, u, t);
    var b: Vector := u => EdgeShare(w.nodes, edges, u, t);
    var y: Vector := u => ScoreAfter(w.nodes, edges, k - 1, u);
    forall u | u in w.nodes ensures a(u) == b(u) {
      WeightByEdges(w, edges, u, t);
    }
    StepIsSum(w, a, x, t);
    ScoreIsSum(w.nodes, edges, k, t, b, y);
    SumOfProducts(w.nodes, a, x, b, y);
  }

  lemma StepIsSum(w: Web, a: Vector, x: Vector, t: Uuid)
    requires w.nodes != [] && forall u :: a(u) == SurferOf(w).kernel(u, t)
    ensures Step(SurferOf(w), x)(t) == Teleport(|w.nodes|) + Sum(w.nodes, u => a(u) * x(u))
  {
    var kernel := SurferOf(w).kernel;
    var f: Vector := u => a(u) * x(u);
    SumCongruent(w.nodes, f, u => kernel(u, t) * x(u));
    SumCongruent(w.nodes, f, u => a(u) * x(u));
  }

  /** The scores of every round are those the edge list gives. */
  lemma {:induction false} RoundsByEdges(w: Web, edges: seq<C.Edge>, k: nat)
    requires WebOf(w, edges)
    ensures HoldsRound(w, edges, k, Iterate(SurferOf(w), Uniform(w), k))
    decreases k
  {
    if k == 0 {
    } else {
      RoundsByEdges(w, edges, k - 1);
      NextRound(w, edges, Iterate(SurferOf(w), Uniform(w), k - 1), k);
    }
  }

  lemma NextRound(w: Web, edges: seq<C.Edge>, x: Vector, k: nat)
    requires WebOf(w, edges) && k > 0 && HoldsRound(w, edges, k - 1, x)
    ensures HoldsRound(w, edges, k, Step(SurferOf(w), x))
  {
    forall t | t in w.nodes ensures Step(SurferOf(w), x)(t) == ScoreAfter(w.nodes, edges, k, t) {
      RoundByEdges(w, edges, x, k, t);
    }
  }

  lemma RankByEdges(w: Web, edges: seq<C.Edge>, rank: Scores)
    requires WebOf(w, edges) && IsPageRank(w, rank)
    ensures forall u :: u in w.nodes ==> rank[u] == ScoreAfter(w.nodes, edges, 30, u)
  {
    RoundsByEdges(w, edges, 30);
  }

  // ---- the loops --------------------------------------------------------------------

  /** `x` added up `n` times. */
  ghost function Times(n: nat, x: real): real { if n == 0 then 0.0 else x + Times(n - 1, x) }

  lemma {:induction false} TimesIsProduct(n: nat, x: real)
    ensures Times(n, x) == n as real * x
  {
    if n == 0 {
    } else {
      TimesIsProduct(n - 1, x);
      assert n as real == 1.0 + (n - 1) as real;
      assert (1.0 + (n - 1) as real) * x == x + (n - 1) as real * x;
    }
  }

  /** The innermost loop: one share for every entry of `to`. */
  method AddShares(start: Scores, to: seq<Uuid>, share: real) returns (next: Scores)
    requires forall v :: v in to ==> v in start
    ensures next.Keys == start.Keys
    ensures forall t :: t in start ==> next[t] == start[t] + Times(Count(to, t), share)
  {
    next := start;
    for k := 0 to |to|
      invariant next.Keys == start.Keys
      invariant forall t :: t in start ==> next[t] == start[t] + Times(Count(to[..k], t), share)
    {
      forall t | t in start
        ensures Count(to[..k + 1], t) == Count(to[..k], t) + (if to[k] == t then 1 else 0)
      {
        assert to[..k + 1] == to[..k] + [to[k]];
        CountSnoc(to[..k], to[k], t);
      }
      assert to[k] in to;
      next := next[to[k] := next[to[k]] + share];
    }
    assert to[..|to|] == to;
  }

  lemma ShareIsWeight(r: real, n: real, c: real)
    requires n > 0.0
    ensures c * (DAMPING * r / n) == DAMPING / n * c * r
  {
  }

  /** What `t` has received from the first `i` nodes. */
  ghost function Received(s: Surfer, x: Vector, i: nat, t: Uuid): real
    requires i <= |s.nodes|
  {
    Push(s.nodes[..i], s.kernel, x, t)
  }

  lemma ReceivedSnoc(s: Surfer, x: Vector, i: nat, t: Uuid, more: real)
    requires i < |s.nodes| && more == s.kernel(s.nodes[i], t) * x(s.nodes[i])
    ensures Received(s, x, i + 1, t) == Received(s, x, i, t) + more
  {
    assert s.nodes[..i + 1] == s.nodes[..i] + [s.nodes[i]];
    PushSnoc(s.nodes[..i], s.nodes[i], s.kernel, x, t);
  }

  lemma ReceiveOne(w: Web, x: Vector, i: nat, t: Uuid)
    requires i < |w.nodes|
    ensures Received(SurferOf(w), x, i + 1, t)
         == Received(SurferOf(w), x, i, t) + Handed(w, w.nodes[i], t, x(w.nodes[i]))
  {
    var u := w.nodes[i];
    ShareReaches(w, u, t, x(u), SurferOf(w).kernel(u, t));
    ReceivedSnoc(SurferOf(w), x, i, t, Handed(w, u, t, x(u)));
  }

  /** What the loop hands from `u`, whose score is `r`, to `t`: one share per entry. */
  ghost function Handed(w: Web, u: Uuid, t: Uuid, r: real): real
    requires w.nodes != []
  {
    Times(Count(Targets(w, u), t), DAMPING * r / |Targets(w, u)| as real)
  }

  lemma ShareReaches(w: Web, u: Uuid, t: Uuid, r: real, k: real)
    requires w.nodes != [] && k == Weight(w, u, t)
    ensures Handed(w, u, t, r) == k * r
  {
    var to := Targets(w, u);
    TimesIsProduct(Count(to, t), DAMPING * r / |to| as real);
    ShareIsWeight(r, |to| as real, Count(to, t) as real);
  }

  lemma ReceivedAll(s: Surfer, x: Vector, t: Uuid)
    ensures Received(s, x, 0, t) == 0.0
    ensures s.base + Received(s, x, |s.nodes|, t) == Step(s, x)(t)
  {
    assert s.nodes[..|s.nodes|] == s.nodes;
  }

  /** The map `rank` holds the scores `x` at the nodes. */
  ghost predicate Holds(w: Web, rank: Scores, x: Vector) {
    && (forall u :: u in rank <==> u in w.nodes)
    && (forall u :: u in w.nodes ==> rank[u] == x(u))
  }

  /** `next` holds the teleport share plus what the first `i` nodes have handed out. */
  ghost predicate Partial(w: Web, x: Vector, i: nat, next: Scores) {
    && i <= |w.nodes|
    && (forall u :: u in next <==> u in w.nodes)
    && (forall t :: t in w.nodes ==> next[t] == SurferOf(w).base + Received(SurferOf(w), x, i, t))
  }

  /** `after` is `before` plus one equal share of `u`'s score per target entry. */
  ghost predicate GaveAway(w: Web, u: Uuid, score: real, before: Scores, after: Scores)
    requires w.nodes != []
  {
    && after.Keys == before.Keys
    && forall t :: t in before ==> after[t] == before[t] + Handed(w, u, t, score)
  }

  lemma PartialStep(w: Web, x: Vector, i: nat, score: real, before: Scores, after: Scores)
    requires i < |w.nodes| && Partial(w, x, i, before)
    requires score == x(w.nodes[i]) && GaveAway(w, w.nodes[i], score, before, after)
    ensures Partial(w, x, i + 1, after)
  {
    forall t | t in w.nodes
      ensures after[t] == SurferOf(w).base + Received(SurferOf(w), x, i + 1, t)
    {
      ReceiveOne(w, x, i, t);
    }
  }

  lemma PartialStart(w: Web, x: Vector, next: Scores)
    requires w.nodes != [] && Holds(w, next, Everywhere(Teleport(|w.nodes|)))
    ensures Partial(w, x, 0, next)
  {
    forall t | t in w.nodes ensures Received(SurferOf(w), x, 0, t) == 0.0 {
      ReceivedAll(SurferOf(w), x, t);
    }
  }

  lemma PartialEnd(w: Web, x: Vector, next: Scores)
    requires Partial(w, x, |w.nodes|, next)
    ensures Holds(w, next, Step(SurferOf(w), x))
  {
    forall t | t in w.nodes ensures next[t] == Step(SurferOf(w), x)(t) {
      ReceivedAll(SurferOf(w), x, t);
    }
  }

  /** The body of the per-node loop: both branches hand out equal shares. */
  method GiveAway(w: Web, id: Uuid, score: real, next: Scores) returns (after: Scores)
    requires ValidWeb(w) && id in w.nodes && forall u :: u in next <==> u in w.nodes
    ensures GaveAway(w, id, score, next, after)
  {
    var neighbours := w.adj[id];
    if neighbours == [] {
      after := AddShares(next, w.nodes, DAMPING * score / |w.nodes| as real);
    } else {
      after := AddShares(next, neighbours, DAMPING * score / |neighbours| as real);
    }
  }

  /** A round starts with the teleport share everywhere. */
  method Teleported(w: Web, ghost x: Vector) returns (next: Scores)
    requires w.nodes != []
    ensures Partial(w, x, 0, next)
  {
    next := map u | u in w.nodes :: Teleport(|w.nodes|);
    PartialStart(w, x, next);
  }

  /** One round of the outer loop. */
  method OneRound(w: Web, rank: Scores, ghost x: Vector) returns (next: Scores)
    requires ValidWeb(w) && Holds(w, rank, x)
    ensures Holds(w, next, Step(SurferOf(w), x))
  {
    next := Teleported(w, x);
    for i := 0 to |w.nodes|
      invariant Partial(w, x, i, next)
    {
      var id := w.nodes[i];
      ghost var before := next;
      next := GiveAway(w, id, rank[id], next);
      PartialStep(w, x, i, rank[id], before, next);
    }
    PartialEnd(w, x, next);
  }

  /** The thirty rounds from equal scores. */
  method Rounds(w: Web) returns (rank: Scores)
    requires ValidWeb(w)
    ensures IsPageRank(w, rank)
  {
    rank := map u | u in w.nodes :: 1.0 / |w.nodes| as real;
    for k := 0 to ROUNDS
      invariant Holds(w, rank, Iterate(SurferOf(w), Uniform(w), k))
    {
      rank := OneRound(w, rank, Iterate(SurferOf(w), Uniform(w), k));
    }
  }

  lemma AdjacencyIsValid(nodes: seq<Uuid>, edges: seq<C.Edge>, adj: map<Uuid, seq<Uuid>>)
    requires nodes != [] && Distinct(nodes) && C.IsAdjacency(nodes, edges, adj)
    requires forall e :: e in edges ==> e.0 in nodes && e.1 in nodes
    ensures ValidWeb(Web(nodes, adj))
  {
    forall u, v | u in nodes && v in adj[u] ensures v in nodes {
      C.NeighboursAreAdjacent(edges, u, v);
    }
  }

  /** `pagerank` up to the label look-up: no nodes, no scores; otherwise the thirty rounds,
      listed highest first. */
  method PageRank(nodes: seq<Uuid>, edges: seq<C.Edge>)
    returns (scored: seq<(Uuid, real)>, ghost adj: map<Uuid, seq<Uuid>>, ghost rank: Scores)
    requires Distinct(nodes) && forall e :: e in edges ==> e.0 in nodes && e.1 in nodes
    ensures nodes == [] ==> scored == []
    ensures nodes != [] ==> C.IsAdjacency(nodes, edges, adj) && ValidWeb(Web(nodes, adj))
    ensures nodes != [] ==> IsPageRank(Web(nodes, adj), rank) && Sorting.IsRanking(rank, scored)
    ensures forall u :: u in nodes ==> u in rank && rank[u] == ScoreAfter(nodes, edges, 30, u)
  {
    var a := C.Adjacency(nodes, edges);
    adj := a;
    if nodes == [] {
      return [], adj, map[];
    }
    AdjacencyIsValid(nodes, edges, adj);
    var w := Web(nodes, a);
    var r := Rounds(w);
    scored := Sorting.RankEntries(r);
    rank := r;
    RankByEdges(w, edges, rank);
  }
}
