/** Finite sums of reals over a list of identifiers. */
module Sums {
  import opened Base

  function Abs(x: real): (r: real)
    ensures r >= 0.0 && (r == x || r == -x)
  {
    if x < 0.0 then -x else x
  }

  ghost function Sum(xs: seq<Uuid>, f: Uuid -> real): real {
    if xs == [] then 0.0 else f(xs[0]) + Sum(xs[1..], f)
  }

  lemma {:induction false} SumCongruent(xs: seq<Uuid>, f: Uuid -> real, g: Uuid -> real)
    requires forall u :: u in xs ==> f(u) == g(u)
    ensures Sum(xs, f) == Sum(xs, g)
  {
    if xs == [] {
    } else {
      assert xs[0] in xs;
      SumCongruent(xs[1..], f, g);
    }
  }

  lemma {:induction false} SumMonotone(xs: seq<Uuid>, f: Uuid -> real, g: Uuid -> real)
    requires forall u :: u in xs ==> f(u) <= g(u)
    ensures Sum(xs, f) <= Sum(xs, g)
  {
    if xs == [] {
    } else {
      assert xs[0] in xs;
      SumMonotone(xs[1..], f, g);
    }
  }

  lemma {:induction false} SumAdd(xs: seq<Uuid>, f: Uuid -> real, g: Uuid -> real, h: Uuid -> real)
    requires forall u :: u in xs ==> h(u) == f(u) + g(u)
    ensures Sum(xs, h) == Sum(xs, f) + Sum(xs, g)
  {
    if xs == [] {
    } else {
      assert xs[0] in xs;
      SumAdd(xs[1..], f, g, h);
    }
  }

  lemma {:induction false} SumScale(xs: seq<Uuid>, c: real, f: Uuid -> real, h: Uuid -> real)
    requires forall u :: u in xs ==> h(u) == c * f(u)
    ensures Sum(xs, h) == c * Sum(xs, f)
  {
    if xs == [] {
    } else {
      assert xs[0] in xs;
      SumScale(xs[1..], c, f, h);
      assert c * (f(xs[0]) + Sum(xs[1..], f)) == c * f(xs[0]) + c * Sum(xs[1..], f);
    }
  }

  /** `SumScale` for a sum that is already known. */
  lemma SumScaled(xs: seq<Uuid>, c: real, f: Uuid -> real, h: Uuid -> real, total: real)
    requires forall u :: u in xs ==> h(u) == c * f(u)
    requires total == Sum(xs, f)
    ensures Sum(xs, h) == c * total
  {
    SumScale(xs, c, f, h);
  }

  lemma {:induction false} SumSnoc(xs: seq<Uuid>, v: Uuid, f: Uuid -> real)
    ensures Sum(xs + [v], f) == Sum(xs, f) + f(v)
  {
    if xs == [] {
      assert [] + [v] == [v];
    } else {
      assert (xs + [v])[1..] == xs[1..] + [v];
      SumSnoc(xs[1..], v, f);
    }
  }

  lemma {:induction false} SumConstant(xs: seq<Uuid>, c: real)
    ensures Sum(xs, u => c) == c * |xs| as real
  {
    if xs == [] {
    } else {
      SumConstant(xs[1..], c);
      var f: Uuid -> real := u => c;
      SumCongruent(xs[1..], f, u => c);
      SumCongruent(xs, f, u => c);
      assert |xs| as real == 1.0 + |xs[1..]| as real;
      assert c * (1.0 + |xs[1..]| as real) == c + c * |xs[1..]| as real;
    }
  }

  /** The triangle inequality. */
  lemma {:induction false} SumAbs(xs: seq<Uuid>, f: Uuid -> real, g: Uuid -> real)
    requires forall u :: u in xs ==> Abs(f(u)) <= g(u)
    ensures Abs(Sum(xs, f)) <= Sum(xs, g)
  {
    if xs == [] {
    } else {
      assert xs[0] in xs;
      SumAbs(xs[1..], f, g);
    }
  }

  /** A double sum may be taken in either order; `rows` and `cols` are its marginals. */
  lemma {:induction false} SumSwap(xs: seq<Uuid>, ys: seq<Uuid>, f: (Uuid, Uuid) -> real,
                                   rows: Uuid -> real, cols: Uuid -> real)
    requires forall x :: x in xs ==> rows(x) == Sum(ys, y => f(x, y))
    requires forall y :: y in ys ==> cols(y) == Sum(xs, x => f(x, y))
    ensures Sum(xs, rows) == Sum(ys, cols)
  {
    if xs == [] {
      forall y | y in ys ensures cols(y) == 0.0 {
      }
      SumCongruent(ys, cols, y => 0.0);
      SumConstant(ys, 0.0);
      SumCongruent(ys, y => 0.0, u => 0.0);
    } else {
      var x0 := xs[0];
      var first: Uuid -> real := y => f(x0, y);
      var rest: Uuid -> real := y => Sum(xs[1..], x => f(x, y));
      SumSwap(xs[1..], ys, f, rows, rest);
      SumAdd(ys, first, rest, cols);
      assert x0 in xs;
      SumCongruent(ys, first, y => f(x0, y));
    }
  }

  function Count(xs: seq<Uuid>, u: Uuid): nat {
    if xs == [] then 0 else (if xs[0] == u then 1 else 0) + Count(xs[1..], u)
  }

  lemma {:induction false} CountSnoc(xs: seq<Uuid>, v: Uuid, u: Uuid)
    ensures Count(xs + [v], u) == Count(xs, u) + (if v == u then 1 else 0)
  {
    if xs == [] {
      assert [] + [v] == [v];
    } else {
      assert (xs + [v])[1..] == xs[1..] + [v];
      CountSnoc(xs[1..], v, u);
    }
  }

  ghost predicate Distinct(xs: seq<Uuid>) {
    forall i, j :: 0 <= i < j < |xs| ==> xs[i] != xs[j]
  }

  lemma {:induction false} CountDistinct(xs: seq<Uuid>, u: Uuid)
    requires Distinct(xs)
    ensures Count(xs, u) == if u in xs then 1 else 0
  {
    if xs == [] {
    } else {
      CountDistinct(xs[1..], u);
    }
  }

  /** A point mass sums to one over a duplicate-free list that has the point. */
  lemma {:induction false} SumPoint(xs: seq<Uuid>, p: Uuid, f: Uuid -> real)
    requires Distinct(xs) && forall u :: u in xs ==> f(u) == if u == p then 1.0 else 0.0
    ensures Sum(xs, f) == if p in xs then 1.0 else 0.0
  {
    if xs == [] {
    } else {
      assert xs[0] in xs;
      SumPoint(xs[1..], p, f);
    }
  }

  /** Every occurrence in `ns` is counted once over a duplicate-free list covering `ns`. */
  lemma {:induction false} SumOfCounts(xs: seq<Uuid>, ns: seq<Uuid>, f: Uuid -> real)
    requires Distinct(xs) && (forall v :: v in ns ==> v in xs)
    requires forall u :: u in xs ==> f(u) == Count(ns, u) as real
    ensures Sum(xs, f) == |ns| as real
  {
    if ns == [] {
      SumConstant(xs, 0.0);
      SumCongruent(xs, f, u => 0.0);
    } else {
      var point: Uuid -> real := u => if u == ns[0] then 1.0 else 0.0;
      var rest: Uuid -> real := u => Count(ns[1..], u) as real;
      SumPoint(xs, ns[0], point);
      SumOfCounts(xs, ns[1..], rest);
      SumAdd(xs, point, rest, f);
      assert ns[0] in ns;
    }
  }
}
