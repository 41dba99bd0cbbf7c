/** Vectors over the reals, and the convex hull of a list of points. */
module Vectors {

  datatype Vec = Vec(x: real, y: real, z: real) {
    function Dot(v: Vec): real {
      x * v.x + y * v.y + z * v.z
    }

    function Plus(v: Vec): Vec {
      Vec(x + v.x, y + v.y, z + v.z)
    }

    function Minus(v: Vec): Vec {
      Vec(x - v.x, y - v.y, z - v.z)
    }

    function Times(k: real): Vec {
      Vec(x * k, y * k, z * k)
    }

    function Cross(v: Vec): Vec {
      Vec(y * v.z - z * v.y, z * v.x - x * v.z, x * v.y - y * v.x)
    }

    function SqLength(): real {
      Dot(this)
    }
  }

  const ZERO := Vec(0.0, 0.0, 0.0)

  lemma DotPlus(a: Vec, u: Vec, v: Vec)
    ensures a.Dot(u.Plus(v)) == a.Dot(u) + a.Dot(v)
  {
  }

  lemma DotMinus(a: Vec, u: Vec, v: Vec)
    ensures a.Dot(u.Minus(v)) == a.Dot(u) - a.Dot(v)
  {
  }

  lemma DotTimes(a: Vec, u: Vec, k: real)
    ensures a.Dot(u.Times(k)) == k * a.Dot(u) && u.Times(k).Dot(a) == k * u.Dot(a)
  {
    assert a.x * (u.x * k) == k * (a.x * u.x);
    assert a.y * (u.y * k) == k * (a.y * u.y);
    assert a.z * (u.z * k) == k * (a.z * u.z);
  }

  lemma DotSymmetric(a: Vec, b: Vec)
    ensures a.Dot(b) == b.Dot(a)
  {
  }

  lemma SquareNonnegative(x: real)
    ensures x * x >= 0.0
  {
  }

  /** The gap in Cauchy's inequality is the squared length of the cross product. */
  lemma Lagrange(a: Vec, b: Vec)
    ensures a.Dot(b) * a.Dot(b) <= a.SqLength() * b.SqLength()
  {
    var c := a.Cross(b);
    SquareNonnegative(c.x);
    SquareNonnegative(c.y);
    SquareNonnegative(c.z);
    LagrangeIdentity(a.x, a.y, a.z, b.x, b.y, b.z);
  }

  lemma LagrangeIdentity(a: real, b: real, c: real, p: real, q: real, r: real)
    ensures (a * a + b * b + c * c) * (p * p + q * q + r * r) - (a * p + b * q + c * r) * (a * p + b * q + c * r) ==
            (b * r - c * q) * (b * r - c * q) + (c * p - a * r) * (c * p - a * r) + (a * q - b * p) * (a * q - b * p)
  {
  }

  /** Along a unit normal, a vector of length at most r reaches at most r. */
  lemma UnitReach(n: Vec, d: Vec, r: real)
    requires n.SqLength() == 1.0 && r >= 0.0 && d.SqLength() <= r * r
    ensures -r <= n.Dot(d) <= r
  {
    Lagrange(n, d);
    var t := n.Dot(d);
    assert t * t <= r * r;
    if t > r {
      LargerSquare(t, r);
    } else if t < -r {
      LargerSquare(-t, r);
    }
  }

  lemma LargerSquare(t: real, r: real)
    requires t > r >= 0.0
    ensures t * t > r * r
  {
    var a, b := t - r, t + r;
    assert a * b > 0.0;
    assert a * b == t * t - r * r;
  }

  // ---------------------------------------------------------------- hulls

  function Total(weights: seq<real>): real {
    if weights == [] then 0.0 else weights[0] + Total(weights[1..])
  }

  function Combination(weights: seq<real>, points: seq<Vec>): Vec
    requires |weights| == |points|
  {
    if weights == [] then ZERO else points[0].Times(weights[0]).Plus(Combination(weights[1..], points[1..]))
  }

  ghost predicate AreWeights(weights: seq<real>, points: seq<Vec>) {
    |weights| == |points| && Total(weights) == 1.0 && forall i :: 0 <= i < |weights| ==> weights[i] >= 0.0
  }

  /** A mean of the points with nonnegative weights. */
  ghost predicate InHull(p: Vec, points: seq<Vec>) {
    exists weights :: AreWeights(weights, points) && Combination(weights, points) == p
  }

  /** The mean of numbers with these weights. */
  function Mix(weights: seq<real>, ds: seq<real>): real
    requires |weights| == |ds|
  {
    if weights == [] then 0.0 else weights[0] * ds[0] + Mix(weights[1..], ds[1..])
  }

  function Dots(a: Vec, points: seq<Vec>): seq<real> {
    seq(|points|, i requires 0 <= i < |points| => a.Dot(points[i]))
  }

  lemma {:induction false} CombinationDot(a: Vec, weights: seq<real>, points: seq<Vec>)
    requires |weights| == |points|
    ensures a.Dot(Combination(weights, points)) == Mix(weights, Dots(a, points))
  {
    if weights == [] {
      assert a.Dot(ZERO) == 0.0;
    } else {
      CombinationDot(a, weights[1..], points[1..]);
      DotPlus(a, points[0].Times(weights[0]), Combination(weights[1..], points[1..]));
      DotTimes(a, points[0], weights[0]);
      assert Dots(a, points)[1..] == Dots(a, points[1..]);
    }
  }

  /** Larger numbers have a larger mean. */
  lemma {:induction false} MixMonotone(weights: seq<real>, ds: seq<real>, es: seq<real>)
    requires |weights| == |ds| == |es|
    requires forall i :: 0 <= i < |weights| ==> weights[i] >= 0.0 && ds[i] <= es[i]
    ensures Mix(weights, ds) <= Mix(weights, es)
  {
    if weights != [] {
      MixMonotone(weights[1..], ds[1..], es[1..]);
      Scaled(weights[0], ds[0], es[0]);
    }
  }

  lemma Scaled(w: real, a: real, b: real)
    requires w >= 0.0 && a <= b
    ensures w * a <= w * b
  {
    var d := b - a;
    assert w * d >= 0.0;
    assert w * d == w * b - w * a;
  }

  function Same(n: nat, c: real): seq<real> {
    seq(n, _ => c)
  }

  lemma {:induction false} MixOfSame(weights: seq<real>, c: real)
    ensures Mix(weights, Same(|weights|, c)) == Total(weights) * c
  {
    if weights != [] {
      MixOfSame(weights[1..], c);
      assert Same(|weights|, c)[1..] == Same(|weights| - 1, c);
      Distribute(weights[0], Total(weights[1..]), c);
    }
  }

  lemma Distribute(a: real, b: real, c: real)
    ensures (a + b) * c == a * c + b * c
  {
  }

  /** A bound on all points bounds their hull. */
  lemma HullBetween(a: Vec, p: Vec, points: seq<Vec>, lo: real, hi: real)
    requires InHull(p, points) && forall i :: 0 <= i < |points| ==> lo <= a.Dot(points[i]) <= hi
    ensures lo <= a.Dot(p) <= hi
  {
    var weights :| AreWeights(weights, points) && Combination(weights, points) == p;
    CombinationDot(a, weights, points);
    MixMonotone(weights, Same(|weights|, lo), Dots(a, points));
    MixMonotone(weights, Dots(a, points), Same(|weights|, hi));
    MixOfSame(weights, lo);
    MixOfSame(weights, hi);
  }

  function Blend(v: real, w: real, s: real, t: real): real {
    s * v + t * w
  }

  function BlendVec(p: Vec, q: Vec, s: real, t: real): Vec {
    Vec(Blend(p.x, q.x, s, t), Blend(p.y, q.y, s, t), Blend(p.z, q.z, s, t))
  }

  /** Weights mixed from two lists of weights. */
  function Mixed(v: seq<real>, w: seq<real>, s: real, t: real): (m: seq<real>)
    requires |v| == |w|
    ensures |m| == |v|
  {
    if v == [] then [] else [Blend(v[0], w[0], s, t)] + Mixed(v[1..], w[1..], s, t)
  }

  lemma BlendStep(a: real, v: real, w: real, s: real, t: real, c: real, d: real)
    ensures a * Blend(v, w, s, t) + Blend(c, d, s, t) == Blend(a * v + c, a * w + d, s, t)
  {
    Distribute(s * v, t * w, a);
    Distribute(a * v, c, s);
    Distribute(a * w, d, t);
    Reordered(a, s, v);
    Reordered(a, t, w);
  }

  lemma Reordered(a: real, s: real, v: real)
    ensures (s * v) * a == (a * v) * s
  {
  }

  lemma BlendVecStep(a: Vec, v: real, w: real, s: real, t: real, c: Vec, d: Vec)
    ensures a.Times(Blend(v, w, s, t)).Plus(BlendVec(c, d, s, t)) == BlendVec(a.Times(v).Plus(c), a.Times(w).Plus(d), s, t)
  {
    BlendStep(a.x, v, w, s, t, c.x, d.x);
    BlendStep(a.y, v, w, s, t, c.y, d.y);
    BlendStep(a.z, v, w, s, t, c.z, d.z);
  }

  lemma {:induction false} CombinationMixed(v: seq<real>, w: seq<real>, s: real, t: real, points: seq<Vec>)
    requires |v| == |w| == |points|
    ensures Combination(Mixed(v, w, s, t), points) == BlendVec(Combination(v, points), Combination(w, points), s, t)
  {
    if v != [] {
      var rest := points[1..];
      CombinationMixed(v[1..], w[1..], s, t, rest);
      assert Mixed(v, w, s, t)[1..] == Mixed(v[1..], w[1..], s, t);
      BlendVecStep(points[0], v[0], w[0], s, t, Combination(v[1..], rest), Combination(w[1..], rest));
    } else {
      assert BlendVec(ZERO, ZERO, s, t) == ZERO;
    }
  }

  lemma {:induction false} TotalMixed(v: seq<real>, w: seq<real>, s: real, t: real)
    requires |v| == |w|
    ensures Total(Mixed(v, w, s, t)) == Blend(Total(v), Total(w), s, t)
  {
    if v != [] {
      TotalMixed(v[1..], w[1..], s, t);
      assert Mixed(v, w, s, t)[1..] == Mixed(v[1..], w[1..], s, t);
      BlendStep(1.0, v[0], w[0], s, t, Total(v[1..]), Total(w[1..]));
    }
  }

  lemma BlendNonnegative(v: real, w: real, s: real, t: real)
    requires v >= 0.0 && w >= 0.0 && s >= 0.0 && t >= 0.0
    ensures Blend(v, w, s, t) >= 0.0
  {
    Scaled(s, 0.0, v);
    Scaled(t, 0.0, w);
  }

  lemma {:induction false} MixedNonnegative(v: seq<real>, w: seq<real>, s: real, t: real)
    requires |v| == |w| && s >= 0.0 && t >= 0.0
    requires forall i :: 0 <= i < |v| ==> v[i] >= 0.0 && w[i] >= 0.0
    ensures forall i :: 0 <= i < |v| ==> Mixed(v, w, s, t)[i] >= 0.0
  {
    if v != [] {
      MixedNonnegative(v[1..], w[1..], s, t);
      BlendNonnegative(v[0], w[0], s, t);
    }
  }

  /** With two points a hull holds all between them. */
  lemma HullIsConvex(p: Vec, q: Vec, s: real, t: real, points: seq<Vec>)
    requires InHull(p, points) && InHull(q, points) && s >= 0.0 && t >= 0.0 && s + t == 1.0
    ensures InHull(BlendVec(p, q, s, t), points)
  {
    var v :| AreWeights(v, points) && Combination(v, points) == p;
    var w :| AreWeights(w, points) && Combination(w, points) == q;
    CombinationMixed(v, w, s, t, points);
    TotalMixed(v, w, s, t);
    MixedNonnegative(v, w, s, t);
    assert AreWeights(Mixed(v, w, s, t), points);
  }

  function Pick(n: nat, k: nat): seq<real> {
    seq(n, i => if i == k then 1.0 else 0.0)
  }

  lemma {:induction false} NonePicked(points: seq<Vec>, k: nat)
    requires k >= |points|
    ensures Total(Pick(|points|, k)) == 0.0 && Combination(Pick(|points|, k), points) == ZERO
  {
    if points != [] {
      NonePicked(points[1..], k);
      assert Pick(|points|, k)[1..] == Pick(|points| - 1, k);
    }
  }

  lemma {:induction false} OnePicked(points: seq<Vec>, k: nat)
    requires k < |points|
    ensures Total(Pick(|points|, k)) == 1.0 && Combination(Pick(|points|, k), points) == points[k]
  {
    if k > 0 {
      OnePicked(points[1..], k - 1);
      assert Pick(|points|, k)[1..] == Pick(|points| - 1, k - 1);
    } else {
      NonePicked(points[1..], |points|);
      assert Pick(|points|, k)[1..] == Pick(|points| - 1, |points|);
    }
  }

  /** The points themselves are in their hull. */
  lemma PointInHull(points: seq<Vec>, k: nat)
    requires k < |points|
    ensures InHull(points[k], points)
  {
    OnePicked(points, k);
    assert AreWeights(Pick(|points|, k), points);
  }
}
