/** A damped kernel has a fixed point: one node after another is eliminated from the equations. */
module FixedPoint {
  import opened Base
  import opened Sums
  import opened Flows
  import opened PowerIteration

  /** `x` satisfies the equation of every node: its base plus what it receives. */
  ghost predicate Solves(nodes: seq<Uuid>, k: (Uuid, Uuid) -> real, b: Vector, x: Vector) {
    forall t :: t in nodes ==> x(t) == b(t) + Push(nodes, k, x, t)
  }

  /** No node gives away more than the fraction `d` of what it has. */
  ghost predicate Bounded(nodes: seq<Uuid>, k: (Uuid, Uuid) -> real, d: real) {
    && (forall u, t :: k(u, t) >= 0.0)
    && (forall u :: u in nodes ==> Outflow(nodes, k, u) <= d)
  }

  /** The flow left when node `v` is eliminated: directly, or through `v` and its loop. */
  ghost function Bypass(k: (Uuid, Uuid) -> real, v: Uuid): (Uuid, Uuid) -> real
    requires k(v, v) < 1.0
  {
    (u, t) => k(u, t) + k(u, v) / (1.0 - k(v, v)) * k(v, t)
  }

  /** The base left when node `v` is eliminated. */
  ghost function BypassBase(k: (Uuid, Uuid) -> real, b: Vector, v: Uuid): Vector
    requires k(v, v) < 1.0
  {
    t => b(t) + b(v) / (1.0 - k(v, v)) * k(v, t)
  }

  /** The eliminated node's score, from the scores of the others. */
  ghost function Restore(rest: seq<Uuid>, k: (Uuid, Uuid) -> real, b: Vector, v: Uuid, x: Vector): Vector
    requires k(v, v) < 1.0
  {
    var score := (b(v) + Push(rest, k, x, v)) / (1.0 - k(v, v));
    t => if t == v then score else x(t)
  }

  lemma PushCons(v: Uuid, rest: seq<Uuid>, k: (Uuid, Uuid) -> real, x: Vector, t: Uuid)
    ensures Push([v] + rest, k, x, t) == k(v, t) * x(v) + Push(rest, k, x, t)
  {
    var f: Vector := u => k(u, t) * x(u);
    var all := [v] + rest;
    assert all[1..] == rest && all[0] == v;
    SumCongruent(all, u => k(u, t) * x(u), f);
    SumCongruent(rest, u => k(u, t) * x(u), f);
  }

  lemma OutflowCons(v: Uuid, rest: seq<Uuid>, k: (Uuid, Uuid) -> real, u: Uuid)
    ensures Outflow([v] + rest, k, u) == k(u, v) + Outflow(rest, k, u)
  {
    var f: Vector := t => k(u, t);
    var all := [v] + rest;
    assert all[1..] == rest && all[0] == v;
    SumCongruent(all, t => k(u, t), f);
    SumCongruent(rest, t => k(u, t), f);
  }

  lemma OutflowNonNegative(nodes: seq<Uuid>, k: (Uuid, Uuid) -> real, u: Uuid)
    requires forall u, t :: k(u, t) >= 0.0
    ensures Outflow(nodes, k, u) >= 0.0
  {
    var f: Vector := t => k(u, t);
    SumOfNonNegative(nodes, f);
    SumCongruent(nodes, f, t => k(u, t));
  }

  lemma PushCongruent(nodes: seq<Uuid>, k: (Uuid, Uuid) -> real, x: Vector, y: Vector, t: Uuid)
    requires forall u :: u in nodes ==> x(u) == y(u)
    ensures Push(nodes, k, x, t) == Push(nodes, k, y, t)
  {
    SumCongruent(nodes, u => k(u, t) * x(u), u => k(u, t) * y(u));
  }

  lemma QuotientNonNegative(a: real, c: real)
    requires a >= 0.0 && c > 0.0
    ensures a / c >= 0.0
  {
  }

  /** What goes around `v` is at most what went to it, because `v` does not keep it. */
  lemma QuotientBelow(a: real, part: real, c: real)
    requires a >= 0.0 && 0.0 <= part <= c && c > 0.0
    ensures a / c >= 0.0 && a / c * part <= a
  {
    var q := a / c;
    assert q * c == a;
    QuotientNonNegative(a, c);
    ProductNonNegative(q, c - part);
    assert q * c - q * part == q * (c - part);
  }

  lemma BypassOutflow(rest: seq<Uuid>, k: (Uuid, Uuid) -> real, v: Uuid, u: Uuid)
    requires k(v, v) < 1.0
    ensures Outflow(rest, Bypass(k, v), u)
         == Outflow(rest, k, u) + k(u, v) / (1.0 - k(v, v)) * Outflow(rest, k, v)
  {
    var q := k(u, v) / (1.0 - k(v, v));
    var around := Bypass(k, v);
    var direct: Vector := t => k(u, t);
    var last: Vector := t => k(v, t);
    var through: Vector := t => q * last(t);
    var both: Vector := t => around(u, t);
    SumScale(rest, q, last, through);
    SumAdd(rest, direct, through, both);
    SumCongruent(rest, both, t => around(u, t));
    SumCongruent(rest, direct, t => k(u, t));
    SumCongruent(rest, last, t => k(v, t));
  }

  lemma BypassPush(rest: seq<Uuid>, k: (Uuid, Uuid) -> real, v: Uuid, x: Vector, t: Uuid)
    requires k(v, v) < 1.0
    ensures Push(rest, Bypass(k, v), x, t)
         == Push(rest, k, x, t) + k(v, t) / (1.0 - k(v, v)) * Push(rest, k, x, v)
  {
    var around := Bypass(k, v);
    forall u | u in rest
      ensures Column(around, x, t)(u) == Column(k, x, t)(u) + k(v, t) / (1.0 - k(v, v)) * Column(k, x, v)(u)
    {
      Regroup(k(u, t), k(u, v), 1.0 - k(v, v), k(v, t), x(u));
    }
    SumCombined(rest, Column(k, x, t), k(v, t) / (1.0 - k(v, v)), Column(k, x, v), Column(around, x, t));
    PushIsColumn(rest, around, x, t);
    PushIsColumn(rest, k, x, t);
    PushIsColumn(rest, k, x, v);
  }

  ghost function Column(k: (Uuid, Uuid) -> real, x: Vector, t: Uuid): Vector { u => k(u, t) * x(u) }

  lemma PushIsColumn(nodes: seq<Uuid>, k: (Uuid, Uuid) -> real, x: Vector, t: Uuid)
    ensures Push(nodes, k, x, t) == Sum(nodes, Column(k, x, t))
  {
    SumCongruent(nodes, Column(k, x, t), u => k(u, t) * x(u));
  }

  lemma SumCombined(xs: seq<Uuid>, f: Vector, q: real, g: Vector, h: Vector)
    requires forall u :: u in xs ==> h(u) == f(u) + q * g(u)
    ensures Sum(xs, h) == Sum(xs, f) + q * Sum(xs, g)
  {
    var scaled: Vector := u => q * g(u);
    SumScale(xs, q, g, scaled);
    SumAdd(xs, f, scaled, h);
  }

  lemma Regroup(direct: real, a: real, c: real, b: real, x: real)
    requires c > 0.0
    ensures (direct + a / c * b) * x == direct * x + b / c * (a * x)
  {
    assert a / c * b == a * b / c == b / c * a;
  }

  /** Elimination keeps the bound on what the nodes give away. */
  lemma BypassBounded(v: Uuid, rest: seq<Uuid>, k: (Uuid, Uuid) -> real, d: real)
    requires Bounded([v] + rest, k, d) && d < 1.0
    ensures k(v, v) < 1.0 && Bounded(rest, Bypass(k, v), d)
  {
    assert v in [v] + rest;
    OutflowCons(v, rest, k, v);
    OutflowNonNegative(rest, k, v);
    var c := 1.0 - k(v, v);
    forall u, t ensures Bypass(k, v)(u, t) >= 0.0 {
      QuotientBelow(k(u, v), 0.0, c);
      ProductNonNegative(k(u, v) / c, k(v, t));
    }
    forall u | u in rest ensures Outflow(rest, Bypass(k, v), u) <= d {
      assert u in [v] + rest;
      OutflowCons(v, rest, k, u);
      BypassOutflow(rest, k, v, u);
      QuotientBelow(k(u, v), Outflow(rest, k, v), c);
    }
  }

  lemma DivideOut(a: real, c: real)
    requires c > 0.0
    ensures a / c == a + (1.0 - c) * (a / c)
  {
    assert a / c * c == a;
  }

  lemma ShareSum(a: real, p: real, c: real, f: real)
    requires c > 0.0
    ensures a / c * f + f / c * p == f * ((a + p) / c)
  {
    assert (a + p) / c == a / c + p / c;
    assert f / c * p == f * (p / c);
  }

  /** The solution of the smaller system, with the eliminated node put back, solves the larger. */
  lemma RestoreSolves(v: Uuid, rest: seq<Uuid>, k: (Uuid, Uuid) -> real, b: Vector, x: Vector)
    requires k(v, v) < 1.0 && v !in rest
    requires Solves(rest, Bypass(k, v), BypassBase(k, b, v), x)
    ensures Solves([v] + rest, k, b, Restore(rest, k, b, v, x))
  {
    var y := Restore(rest, k, b, v, x);
    forall t | t in [v] + rest ensures y(t) == b(t) + Push([v] + rest, k, y, t) {
      if t == v {
        RestoredFirst(v, rest, k, b, x);
      } else {
        RestoredOther(v, rest, k, b, x, t);
      }
    }
  }

  lemma RestoredFirst(v: Uuid, rest: seq<Uuid>, k: (Uuid, Uuid) -> real, b: Vector, x: Vector)
    requires k(v, v) < 1.0 && v !in rest
    ensures var y := Restore(rest, k, b, v, x); y(v) == b(v) + Push([v] + rest, k, y, v)
  {
    RestoredPush(v, rest, k, b, x, v);
    DivideOut(b(v) + Push(rest, k, x, v), 1.0 - k(v, v));
  }

  lemma RestoredOther(v: Uuid, rest: seq<Uuid>, k: (Uuid, Uuid) -> real, b: Vector, x: Vector, t: Uuid)
    requires k(v, v) < 1.0 && v !in rest && t != v
    requires x(t) == BypassBase(k, b, v)(t) + Push(rest, Bypass(k, v), x, t)
    ensures var y := Restore(rest, k, b, v, x); y(t) == b(t) + Push([v] + rest, k, y, t)
  {
    RestoredPush(v, rest, k, b, x, t);
    RestoredEquation(v, rest, k, b, x, t);
  }

  lemma RestoredPush(v: Uuid, rest: seq<Uuid>, k: (Uuid, Uuid) -> real, b: Vector, x: Vector, t: Uuid)
    requires k(v, v) < 1.0 && v !in rest
    ensures Push([v] + rest, k, Restore(rest, k, b, v, x), t)
         == k(v, t) * Restore(rest, k, b, v, x)(v) + Push(rest, k, x, t)
  {
    var y := Restore(rest, k, b, v, x);
    PushCons(v, rest, k, y, t);
    PushCongruent(rest, k, y, x, t);
  }

  lemma RestoredEquation(v: Uuid, rest: seq<Uuid>, k: (Uuid, Uuid) -> real, b: Vector, x: Vector, t: Uuid)
    requires k(v, v) < 1.0
    requires x(t) == BypassBase(k, b, v)(t) + Push(rest, Bypass(k, v), x, t)
    ensures x(t) == b(t) + (k(v, t) * Restore(rest, k, b, v, x)(v) + Push(rest, k, x, t))
  {
    BypassPush(rest, k, v, x, t);
    ShareSum(b(v), Push(rest, k, x, v), 1.0 - k(v, v), k(v, t));
  }

  /** Every system whose nodes give away less than they have has a solution. */
  lemma {:induction false} SolutionExists(nodes: seq<Uuid>, k: (Uuid, Uuid) -> real, d: real, b: Vector)
    returns (x: Vector)
    requires Distinct(nodes) && Bounded(nodes, k, d) && d < 1.0
    ensures Solves(nodes, k, b, x)
  {
    if nodes == [] {
      x := b;
    } else {
      var v, rest := nodes[0], nodes[1..];
      assert nodes == [v] + rest;
      BypassBounded(v, rest, k, d);
      x := SolutionExists(rest, Bypass(k, v), d, BypassBase(k, b, v));
      RestoreSolves(v, rest, k, b, x);
      x := Restore(rest, k, b, v, x);
    }
  }

  /** The rounds over a duplicate-free node list have a fixed point. */
  lemma FixedPointExists(s: Surfer) returns (p: Vector)
    requires Valid(s) && Distinct(s.nodes)
    ensures IsFixedPoint(s, p)
  {
    p := SolutionExists(s.nodes, s.kernel, DAMPING, Everywhere(s.base));
  }

  lemma {:induction false} SumGap(xs: seq<Uuid>, f: Vector, g: Vector, u: Uuid)
    requires u in xs && forall v :: v in xs ==> f(v) <= g(v)
    ensures Sum(xs, f) + (g(u) - f(u)) <= Sum(xs, g)
  {
    if u == xs[0] {
      SumMonotone(xs[1..], f, g);
    } else {
      assert xs[0] in xs;
      SumGap(xs[1..], f, g, u);
    }
  }

  /** A fixed point is a probability distribution in which every node has at least the teleport
      share. */
  lemma FixedPointIsDistribution(s: Surfer, p: Vector)
    requires Valid(s) && IsFixedPoint(s, p)
    ensures IsDistribution(s, p) && AtLeast(s, p, s.base)
  {
    var size := Gap(Everywhere(0.0), p);
    FixedPointSize(s, p);
    forall u | u in s.nodes ensures p(u) >= 0.0 {
      SumGap(s.nodes, p, size, u);
    }
    StepFloor(s, p);
  }
}
