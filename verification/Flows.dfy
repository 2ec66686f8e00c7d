/** Scores pushed along a non-negative kernel: `k(u, t)` is the part of `u` that reaches `t`. */
module Flows {
  import opened Base
  import opened Sums

  ghost function Push(nodes: seq<Uuid>, k: (Uuid, Uuid) -> real, x: Uuid -> real, t: Uuid): real {
    Sum(nodes, u => k(u, t) * x(u))
  }

  lemma PushSnoc(nodes: seq<Uuid>, v: Uuid, k: (Uuid, Uuid) -> real, x: Uuid -> real, t: Uuid)
    ensures Push(nodes + [v], k, x, t) == Push(nodes, k, x, t) + k(v, t) * x(v)
  {
    var f: Uuid -> real := u => k(u, t) * x(u);
    SumSnoc(nodes, v, f);
    SumCongruent(nodes, f, u => k(u, t) * x(u));
    SumCongruent(nodes + [v], f, u => k(u, t) * x(u));
  }

  ghost function Outflow(nodes: seq<Uuid>, k: (Uuid, Uuid) -> real, u: Uuid): real {
    Sum(nodes, t => k(u, t))
  }

  /** Every node gives away the fraction `d` of what it has. */
  ghost predicate Damped(nodes: seq<Uuid>, k: (Uuid, Uuid) -> real, d: real) {
    && (forall u, t :: k(u, t) >= 0.0)
    && (forall u :: u in nodes ==> Outflow(nodes, k, u) == d)
  }

  ghost function FlowRow(k: (Uuid, Uuid) -> real, x: Uuid -> real, u: Uuid): Uuid -> real {
    t => k(u, t) * x(u)
  }

  lemma RowTotal(nodes: seq<Uuid>, k: (Uuid, Uuid) -> real, d: real, x: Uuid -> real, u: Uuid)
    requires Outflow(nodes, k, u) == d
    ensures Sum(nodes, FlowRow(k, x, u)) == d * x(u)
  {
    var give: Uuid -> real := t => k(u, t);
    SumCongruent(nodes, give, t => k(u, t));
    SumScaled(nodes, x(u), give, FlowRow(k, x, u), d);
  }

  /** What all nodes receive together is the damped total. */
  lemma PushTotal(nodes: seq<Uuid>, k: (Uuid, Uuid) -> real, d: real, x: Uuid -> real, into: Uuid -> real)
    requires Damped(nodes, k, d)
    requires forall t :: t in nodes ==> into(t) == Push(nodes, k, x, t)
    ensures Sum(nodes, into) == d * Sum(nodes, x)
  {
    var out: Uuid -> real := u => Sum(nodes, FlowRow(k, x, u));
    FlowSwap(nodes, k, x, out, into);
    forall u | u in nodes ensures out(u) == d * x(u) {
      RowTotal(nodes, k, d, x, u);
    }
    SumScale(nodes, d, x, out);
  }

  /** Adding up what the nodes give is adding up what they receive. */
  lemma FlowSwap(nodes: seq<Uuid>, k: (Uuid, Uuid) -> real, x: Uuid -> real,
                 out: Uuid -> real, into: Uuid -> real)
    requires forall u :: u in nodes ==> out(u) == Sum(nodes, FlowRow(k, x, u))
    requires forall t :: t in nodes ==> into(t) == Push(nodes, k, x, t)
    ensures Sum(nodes, out) == Sum(nodes, into)
  {
    var flow: (Uuid, Uuid) -> real := (u, t) => k(u, t) * x(u);
    forall t | t in nodes ensures into(t) == Sum(nodes, u => flow(u, t)) {
      FlowColumn(nodes, k, x, flow, t);
    }
    forall u | u in nodes ensures out(u) == Sum(nodes, t => flow(u, t)) {
      SumCongruent(nodes, FlowRow(k, x, u), t => flow(u, t));
    }
    SumSwap(nodes, nodes, flow, out, into);
  }

  lemma FlowColumn(nodes: seq<Uuid>, k: (Uuid, Uuid) -> real, x: Uuid -> real,
                   flow: (Uuid, Uuid) -> real, t: Uuid)
    requires forall u :: u in nodes ==> flow(u, t) == k(u, t) * x(u)
    ensures Push(nodes, k, x, t) == Sum(nodes, u => flow(u, t))
  {
    SumCongruent(nodes, u => k(u, t) * x(u), u => flow(u, t));
  }

  lemma PushNonNegative(nodes: seq<Uuid>, k: (Uuid, Uuid) -> real, x: Uuid -> real, t: Uuid)
    requires forall u :: u in nodes ==> k(u, t) >= 0.0 && x(u) >= 0.0
    ensures Push(nodes, k, x, t) >= 0.0
  {
    var zero: Uuid -> real := u => 0.0;
    var part: Uuid -> real := u => k(u, t) * x(u);
    forall u | u in nodes ensures zero(u) <= part(u) {
      ProductNonNegative(k(u, t), x(u));
    }
    SumMonotone(nodes, zero, part);
    SumConstant(nodes, 0.0);
    SumCongruent(nodes, zero, u => 0.0);
    SumCongruent(nodes, part, u => k(u, t) * x(u));
  }

  lemma ProductNonNegative(a: real, b: real)
    requires a >= 0.0 && b >= 0.0
    ensures a * b >= 0.0
  {
  }

  lemma ProductGap(k: real, a: real, b: real)
    requires k >= 0.0
    ensures k * a == k * (a - b) + k * b
    ensures Abs(k * (a - b)) <= k * Abs(a - b)
  {
    if a >= b {
      ProductNonNegative(k, a - b);
    } else {
      ProductNonNegative(k, b - a);
      assert k * (a - b) == -(k * (b - a));
    }
  }

  /** The difference of two inflows is at most the inflow of the difference. */
  lemma PushGap(nodes: seq<Uuid>, k: (Uuid, Uuid) -> real, x: Uuid -> real, y: Uuid -> real,
                gap: Uuid -> real, t: Uuid)
    requires forall u, v :: k(u, v) >= 0.0
    requires forall u :: u in nodes ==> gap(u) == Abs(x(u) - y(u))
    ensures Abs(Push(nodes, k, x, t) - Push(nodes, k, y, t)) <= Push(nodes, k, gap, t)
  {
    var fx: Uuid -> real := u => k(u, t) * x(u);
    var fy: Uuid -> real := u => k(u, t) * y(u);
    var diff: Uuid -> real := u => k(u, t) * (x(u) - y(u));
    var bound: Uuid -> real := u => k(u, t) * gap(u);
    forall u | u in nodes ensures fx(u) == diff(u) + fy(u) && Abs(diff(u)) <= bound(u) {
      ProductGap(k(u, t), x(u), y(u));
    }
    SumAdd(nodes, diff, fy, fx);
    SumAbs(nodes, diff, bound);
    SumCongruent(nodes, fx, u => k(u, t) * x(u));
    SumCongruent(nodes, fy, u => k(u, t) * y(u));
    SumCongruent(nodes, bound, u => k(u, t) * gap(u));
  }
}
