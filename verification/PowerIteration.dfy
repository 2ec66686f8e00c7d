/** Damped power iteration over an arbitrary kernel: totals, floors, contraction, limits. */
module PowerIteration {
  import opened Base
  import opened Sums
  import opened Flows

  const DAMPING: real := 0.85

  type Vector = Uuid -> real

  /** One round sends `x` to `base + (kernel applied to x)` at every node. */
  datatype Surfer = Surfer(nodes: seq<Uuid>, kernel: (Uuid, Uuid) -> real, base: real)

  ghost function Everywhere(c: real): Vector { u => c }

  /** Nodes give away 0.85 of what they have; the teleport share adds the other 0.15. */
  ghost predicate Valid(s: Surfer) {
    && Damped(s.nodes, s.kernel, DAMPING)
    && s.base >= 0.0 && Sum(s.nodes, Everywhere(s.base)) == 1.0 - DAMPING
  }

  ghost function Step(s: Surfer, x: Vector): Vector {
    t => s.base + Push(s.nodes, s.kernel, x, t)
  }

  ghost function Iterate(s: Surfer, x: Vector, k: nat): Vector {
    if k == 0 then x else Step(s, Iterate(s, x, k - 1))
  }

  ghost function Gap(x: Vector, y: Vector): Vector { u => Abs(x(u) - y(u)) }

  /** The L1 distance of two score vectors over the nodes. */
  ghost function Distance(s: Surfer, x: Vector, y: Vector): real { Sum(s.nodes, Gap(x, y)) }

  ghost function Total(s: Surfer, x: Vector): real { Sum(s.nodes, x) }

  ghost predicate AtLeast(s: Surfer, x: Vector, floor: real) {
    forall u :: u in s.nodes ==> x(u) >= floor
  }

  /** `c * 0.85^k`. */
  ghost function Damp(c: real, k: nat): real {
    if k == 0 then c else DAMPING * Damp(c, k - 1)
  }

  ghost function Power(x: real, k: nat): real { if k == 0 then 1.0 else x * Power(x, k - 1) }

  lemma {:induction false} DampIsPower(c: real, k: nat)
    ensures Damp(c, k) == c * Power(DAMPING, k)
  {
    if k == 0 {
    } else {
      DampIsPower(c, k - 1);
    }
  }

  lemma {:induction false} DampMonotone(a: real, b: real, k: nat)
    requires a <= b
    ensures Damp(a, k) <= Damp(b, k)
  {
    if k == 0 {
    } else {
      DampMonotone(a, b, k - 1);
    }
  }

  // ---- one round --------------------------------------------------------------------

  /** A round maps total `m` to `0.15 + 0.85 m`, so total one is kept exactly. */
  lemma StepTotal(s: Surfer, x: Vector)
    requires Valid(s)
    ensures Total(s, Step(s, x)) == (1.0 - DAMPING) + DAMPING * Total(s, x)
  {
    var into: Vector := t => Push(s.nodes, s.kernel, x, t);
    PushTotal(s.nodes, s.kernel, DAMPING, x, into);
    SumAdd(s.nodes, Everywhere(s.base), into, Step(s, x));
  }

  /** Non-negative scores leave every node at least the teleport share. */
  lemma StepFloor(s: Surfer, x: Vector)
    requires Valid(s) && AtLeast(s, x, 0.0)
    ensures AtLeast(s, Step(s, x), s.base)
  {
    forall t | t in s.nodes ensures Step(s, x)(t) >= s.base {
      PushNonNegative(s.nodes, s.kernel, x, t);
    }
  }

  /** A round is a contraction: any two score vectors come 0.85 times as close. */
  lemma StepContracts(s: Surfer, x: Vector, y: Vector)
    requires Valid(s)
    ensures Distance(s, Step(s, x), Step(s, y)) <= DAMPING * Distance(s, x, y)
  {
    var into: Vector := t => Push(s.nodes, s.kernel, Gap(x, y), t);
    forall t | t in s.nodes ensures Gap(Step(s, x), Step(s, y))(t) <= into(t) {
      PushGap(s.nodes, s.kernel, x, y, Gap(x, y), t);
    }
    SumMonotone(s.nodes, Gap(Step(s, x), Step(s, y)), into);
    PushTotal(s.nodes, s.kernel, DAMPING, Gap(x, y), into);
  }

  // ---- many rounds ------------------------------------------------------------------

  lemma {:induction false} IterateContracts(s: Surfer, x: Vector, y: Vector, k: nat)
    requires Valid(s)
    ensures Distance(s, Iterate(s, x, k), Iterate(s, y, k)) <= Damp(Distance(s, x, y), k)
  {
    if k == 0 {
    } else {
      IterateContracts(s, x, y, k - 1);
      StepContracts(s, Iterate(s, x, k - 1), Iterate(s, y, k - 1));
    }
  }

  /** Total one and no negative score. */
  ghost predicate IsDistribution(s: Surfer, x: Vector) {
    Total(s, x) == 1.0 && AtLeast(s, x, 0.0)
  }

  lemma {:induction false} IterateIsDistribution(s: Surfer, x: Vector, k: nat)
    requires Valid(s) && IsDistribution(s, x)
    ensures IsDistribution(s, Iterate(s, x, k))
    ensures k > 0 ==> AtLeast(s, Iterate(s, x, k), s.base)
  {
    if k == 0 {
    } else {
      var before := Iterate(s, x, k - 1);
      IterateIsDistribution(s, x, k - 1);
      StepTotal(s, before);
      StepFloor(s, before);
    }
  }

  /** `p` does not change in a round. */
  ghost predicate IsFixedPoint(s: Surfer, p: Vector) {
    forall u :: u in s.nodes ==> Step(s, p)(u) == p(u)
  }

  lemma StepCongruent(s: Surfer, x: Vector, y: Vector)
    requires forall u :: u in s.nodes ==> x(u) == y(u)
    ensures forall t :: Step(s, x)(t) == Step(s, y)(t)
  {
    forall t ensures Step(s, x)(t) == Step(s, y)(t) {
      var fx: Vector := u => s.kernel(u, t) * x(u);
      var fy: Vector := u => s.kernel(u, t) * y(u);
      SumCongruent(s.nodes, fx, fy);
      SumCongruent(s.nodes, fx, u => s.kernel(u, t) * x(u));
      SumCongruent(s.nodes, fy, u => s.kernel(u, t) * y(u));
    }
  }

  lemma {:induction false} FixedPointIterates(s: Surfer, p: Vector, k: nat)
    requires IsFixedPoint(s, p)
    ensures forall u :: u in s.nodes ==> Iterate(s, p, k)(u) == p(u)
  {
    if k == 0 {
    } else {
      FixedPointIterates(s, p, k - 1);
      StepCongruent(s, Iterate(s, p, k - 1), p);
    }
  }

  lemma DistanceCongruent(s: Surfer, x: Vector, y: Vector, x': Vector, y': Vector)
    requires forall u :: u in s.nodes ==> x(u) == x'(u) && y(u) == y'(u)
    ensures Distance(s, x, y) == Distance(s, x', y')
  {
    SumCongruent(s.nodes, Gap(x, y), Gap(x', y'));
  }

  lemma AbsTriangle(a: real, b: real, c: real)
    ensures Abs(a - c) <= Abs(a - b) + Abs(b - c)
  {
  }

  lemma Triangle(s: Surfer, x: Vector, y: Vector, z: Vector)
    ensures Distance(s, x, z) <= Distance(s, x, y) + Distance(s, y, z)
  {
    var both: Vector := u => Abs(x(u) - y(u)) + Abs(y(u) - z(u));
    forall u | u in s.nodes ensures Gap(x, z)(u) <= both(u) {
      AbsTriangle(x(u), y(u), z(u));
    }
    SumMonotone(s.nodes, Gap(x, z), both);
    SumAdd(s.nodes, Gap(x, y), Gap(y, z), both);
  }

  lemma DistributionSize(s: Surfer, x: Vector)
    requires AtLeast(s, x, 0.0)
    ensures Distance(s, x, Everywhere(0.0)) == Total(s, x) == Distance(s, Everywhere(0.0), x)
  {
    SumCongruent(s.nodes, Gap(x, Everywhere(0.0)), x);
    SumCongruent(s.nodes, Gap(Everywhere(0.0), x), x);
  }

  lemma ZeroTotal(s: Surfer)
    ensures Total(s, Everywhere(0.0)) == 0.0
  {
    SumConstant(s.nodes, 0.0);
    SumCongruent(s.nodes, Everywhere(0.0), u => 0.0);
  }

  /** A fixed point has total one and L1 size at most one: it is a distribution in its own
      right, so nothing about it needs to be assumed. */
  lemma FixedPointSize(s: Surfer, p: Vector)
    requires Valid(s) && IsFixedPoint(s, p)
    ensures Total(s, p) == 1.0 && Distance(s, Everywhere(0.0), p) <= 1.0
  {
    var zero := Everywhere(0.0);
    StepTotal(s, p);
    SumCongruent(s.nodes, Step(s, p), p);
    ZeroTotal(s);
    StepTotal(s, zero);
    StepFloor(s, zero);
    DistributionSize(s, Step(s, zero));
    StepContracts(s, zero, p);
    DistanceCongruent(s, Step(s, zero), Step(s, p), Step(s, zero), p);
    Triangle(s, zero, Step(s, zero), p);
  }

  /** `k` rounds from any distribution end within `2 * 0.85^k` of every fixed point. */
  lemma NearFixedPoint(s: Surfer, x: Vector, p: Vector, k: nat)
    requires Valid(s) && IsDistribution(s, x) && IsFixedPoint(s, p)
    ensures Distance(s, Iterate(s, x, k), p) <= Damp(2.0, k)
  {
    FixedPointIterates(s, p, k);
    IterateContracts(s, x, p, k);
    DistanceCongruent(s, Iterate(s, x, k), Iterate(s, p, k), Iterate(s, x, k), p);
    DistributionSize(s, x);
    FixedPointSize(s, p);
    Triangle(s, x, Everywhere(0.0), p);
    DampMonotone(Distance(s, x, p), 2.0, k);
  }

  lemma {:induction false} IterateComposes(s: Surfer, x: Vector, j: nat, k: nat)
    ensures Iterate(s, Iterate(s, x, j), k) == Iterate(s, x, j + k)
  {
    if k == 0 {
    } else {
      IterateComposes(s, x, j, k - 1);
    }
  }

  /** Stopping after `k` rounds is within `2 * 0.85^k` of stopping any number of rounds later:
      the rounds converge, whether or not a fixed point is known. */
  lemma RoundsConverge(s: Surfer, x: Vector, k: nat, more: nat)
    requires Valid(s) && IsDistribution(s, x)
    ensures Distance(s, Iterate(s, x, k), Iterate(s, x, more + k)) <= Damp(2.0, k)
  {
    var later := Iterate(s, x, more);
    IterateComposes(s, x, more, k);
    IterateContracts(s, x, later, k);
    IterateIsDistribution(s, x, more);
    DistributionSize(s, x);
    DistributionSize(s, later);
    Triangle(s, x, Everywhere(0.0), later);
    DampMonotone(Distance(s, x, later), 2.0, k);
  }

  lemma {:induction false} TermBelowSum(xs: seq<Uuid>, f: Vector, u: Uuid)
    requires u in xs && forall v :: v in xs ==> f(v) >= 0.0
    ensures f(u) <= Sum(xs, f)
  {
    SumOfNonNegative(xs[1..], f);
    if u != xs[0] {
      TermBelowSum(xs[1..], f, u);
    }
  }

  lemma SumOfNonNegative(xs: seq<Uuid>, f: Vector)
    requires forall v :: v in xs ==> f(v) >= 0.0
    ensures Sum(xs, f) >= 0.0
  {
    SumMonotone(xs, Everywhere(0.0), f);
    SumConstant(xs, 0.0);
    SumCongruent(xs, Everywhere(0.0), v => 0.0);
  }

  /** There is at most one fixed point. */
  lemma FixedPointUnique(s: Surfer, p: Vector, q: Vector, u: Uuid)
    requires Valid(s) && IsFixedPoint(s, p) && IsFixedPoint(s, q) && u in s.nodes
    ensures p(u) == q(u)
  {
    StepContracts(s, p, q);
    DistanceCongruent(s, Step(s, p), Step(s, q), p, q);
    TermBelowSum(s.nodes, Gap(p, q), u);
    assert Gap(p, q)(u) <= 0.0;
  }
}
