/**
 CCamera::Frustum over the reals: the sphere test against outward half-spaces, and the box
 test that looks for an axis on which frustum and box have disjoint projections.
 */
module Culling {
  import opened Vectors

  const LFT := 0
  const RGT := 1
  const TOP := 2
  const BOT := 3
  const FRN := 4
  const BCK := 5

  datatype Box = Box(mins: Vec, maxs: Vec) {
    predicate Contains(p: Vec) {
      mins.x <= p.x <= maxs.x && mins.y <= p.y <= maxs.y && mins.z <= p.z <= maxs.z
    }

    function Corners(): (c: seq<Vec>)
      ensures |c| == 8
    {
      [Vec(mins.x, mins.y, mins.z), Vec(mins.x, mins.y, maxs.z), Vec(maxs.x, mins.y, mins.z), Vec(maxs.x, mins.y, maxs.z),
       Vec(mins.x, maxs.y, mins.z), Vec(mins.x, maxs.y, maxs.z), Vec(maxs.x, maxs.y, mins.z), Vec(maxs.x, maxs.y, maxs.z)]
    }

    function Center(): Vec {
      maxs.Plus(mins).Times(0.5)
    }

    function Scales(): Vec {
      maxs.Minus(mins).Times(0.5)
    }
  }

  /** Corners, outward normals, edge directions; x and y of the scales offset the sides, w is the far distance. */
  datatype Frustum = Frustum(verts: seq<Vec>, planes: seq<Vec>, edges: seq<Vec>, xScale: real, yScale: real, zNear: real, zFar: real) {
    predicate Valid() {
      |verts| == 8 && |planes| == 6 && |edges| == 6
    }

    function Offset(i: nat): real {
      if i == BCK then zFar else if i / 2 == 0 then xScale else yScale
    }

    /** The half-space behind plane i, as seen from the camera position. */
    predicate Behind(i: nat, cp: Vec, p: Vec)
      requires Valid() && i < 6
    {
      p.Minus(cp).Dot(planes[i]) <= Offset(i)
    }
  }

  /** The planes that the sphere test looks at; the near plane is not one of them. */
  predicate IsTested(i: nat) {
    i <= BOT || i == BCK
  }

  // ---------------------------------------------------------------- spheres

  predicate SphereTest(f: Frustum, cp: Vec, center: Vec, radius: real)
    requires f.Valid()
  {
    forall i :: 0 <= i < 6 && IsTested(i) ==> center.Minus(cp).Dot(f.planes[i]) <= f.Offset(i) + radius
  }

  method IntersectSphere(f: Frustum, cp: Vec, center: Vec, radius: real) returns (r: bool)
    requires f.Valid()
    ensures r <==> SphereTest(f, cp, center, radius)
  {
    var vec := center.Minus(cp);
    var xyPlaneOffsets := [f.xScale, f.yScale];
    for i := LFT to FRN
      invariant forall j :: 0 <= j < i ==> vec.Dot(f.planes[j]) <= f.Offset(j) + radius
    {
      if vec.Dot(f.planes[i]) > xyPlaneOffsets[i / 2] + radius {
        assert IsTested(i);
        return false;
      }
    }
    assert IsTested(BCK);
    return !(vec.Dot(f.planes[BCK]) > f.zFar + radius);
  }

  predicate InBall(p: Vec, center: Vec, radius: real) {
    p.Minus(center).SqLength() <= radius * radius
  }

  ghost predicate UnitNormals(f: Frustum)
    requires f.Valid()
  {
    forall i :: 0 <= i < 6 && IsTested(i) ==> f.planes[i].SqLength() == 1.0
  }

  ghost predicate BallInFront(f: Frustum, i: nat, cp: Vec, center: Vec, radius: real)
    requires f.Valid() && i < 6
  {
    forall p :: InBall(p, center, radius) ==> !f.Behind(i, cp, p)
  }

  lemma ReachInBall(n: Vec, cp: Vec, center: Vec, radius: real, p: Vec)
    requires n.SqLength() == 1.0 && radius >= 0.0 && InBall(p, center, radius)
    ensures p.Minus(cp).Dot(n) >= center.Minus(cp).Dot(n) - radius
  {
    UnitReach(n, p.Minus(center), radius);
    DotSymmetric(n, p.Minus(center));
    assert p.Minus(cp).Dot(n) == center.Minus(cp).Dot(n) + p.Minus(center).Dot(n);
  }

  /** The point of the ball that lies farthest behind the plane. */
  lemma NearestInBall(n: Vec, cp: Vec, center: Vec, radius: real)
    requires n.SqLength() == 1.0
    ensures var p := center.Minus(n.Times(radius));
            InBall(p, center, radius) && p.Minus(cp).Dot(n) == center.Minus(cp).Dot(n) - radius
  {
    var p := center.Minus(n.Times(radius));
    var d := p.Minus(center);
    assert d == n.Times(-radius);
    DotTimes(n, n, -radius);
    DotTimes(d, n, -radius);
    assert d.Dot(d) == (-radius) * d.Dot(n);
    DotTimes(n, n, radius);
    assert p.Minus(cp).Dot(n) == center.Minus(cp).Dot(n) - n.Times(radius).Dot(n);
  }

  /** For a unit normal the comparison is exact: it fails just when the whole ball is in front of the plane. */
  lemma PlaneTestExact(f: Frustum, i: nat, cp: Vec, center: Vec, radius: real)
    requires f.Valid() && i < 6 && f.planes[i].SqLength() == 1.0 && radius >= 0.0
    ensures center.Minus(cp).Dot(f.planes[i]) > f.Offset(i) + radius <==> BallInFront(f, i, cp, center, radius)
  {
    var n := f.planes[i];
    forall p | InBall(p, center, radius)
      ensures p.Minus(cp).Dot(n) >= center.Minus(cp).Dot(n) - radius
    {
      ReachInBall(n, cp, center, radius, p);
    }
    NearestInBall(n, cp, center, radius);
  }

  /** A sphere is culled exactly when a side plane or the far plane has all of it in front. */
  lemma SphereCulledExactly(f: Frustum, cp: Vec, center: Vec, radius: real)
    requires f.Valid() && UnitNormals(f) && radius >= 0.0
    ensures !SphereTest(f, cp, center, radius)
      <==> exists i :: i in {LFT, RGT, TOP, BOT, BCK} && BallInFront(f, i, cp, center, radius)
  {
    forall i | 0 <= i < 6 && IsTested(i)
      ensures center.Minus(cp).Dot(f.planes[i]) > f.Offset(i) + radius <==> BallInFront(f, i, cp, center, radius)
    {
      PlaneTestExact(f, i, cp, center, radius);
    }
  }

  // ---------------------------------------------------------------- boxes

  /** The projection of the points seen so far onto an axis. */
  datatype Range = Nothing | Range(lo: real, hi: real) {
    function With(d: real): Range {
      match this
      case Nothing => Range(d, d)
      case Range(lo, hi) => Range(if d < lo then d else lo, if d > hi then d else hi)
    }
  }

  /** The least range that holds the projections of all points. */
  function Projection(axis: Vec, points: seq<Vec>): Range {
    if points == [] then Nothing else Projection(axis, points[..|points| - 1]).With(axis.Dot(points[|points| - 1]))
  }

  lemma {:induction false} ProjectionBounds(axis: Vec, points: seq<Vec>)
    ensures points != [] ==> Projection(axis, points).Range?
    ensures forall i :: 0 <= i < |points| ==> Projection(axis, points).lo <= axis.Dot(points[i]) <= Projection(axis, points).hi
    ensures points != [] ==>
              exists i, k :: 0 <= i < |points| && 0 <= k < |points| &&
                Projection(axis, points) == Range(axis.Dot(points[i]), axis.Dot(points[k]))
  {
    if points != [] {
      ProjectionBounds(axis, points[..|points| - 1]);
    }
  }

  /** AABB::RangeOverlap */
  predicate RangeOverlap(a: Range, b: Range)
    requires a.Range? && b.Range?
  {
    a.lo <= b.lo <= a.hi || a.lo <= b.hi <= a.hi || b.lo <= a.lo <= b.hi || b.lo <= a.hi <= b.hi
  }

  ghost predicate Separates(axis: Vec, frustVerts: seq<Vec>, boxVerts: seq<Vec>)
    requires |frustVerts| == |boxVerts| == 8
  {
    (forall i, k :: 0 <= i < 8 && 0 <= k < 8 ==> axis.Dot(frustVerts[i]) < axis.Dot(boxVerts[k]))
    || (forall i, k :: 0 <= i < 8 && 0 <= k < 8 ==> axis.Dot(frustVerts[i]) > axis.Dot(boxVerts[k]))
  }

  method IsSepAxis(axis: Vec, frustVerts: seq<Vec>, boxVerts: seq<Vec>) returns (r: bool)
    requires |frustVerts| == |boxVerts| == 8
    ensures r <==> Separates(axis, frustVerts, boxVerts)
  {
    var frustRange, boxRange := Range.Nothing, Range.Nothing;
    for i := 0 to 8
      invariant frustRange == Projection(axis, frustVerts[..i]) && boxRange == Projection(axis, boxVerts[..i])
    {
      assert frustVerts[..i + 1][..i] == frustVerts[..i] && boxVerts[..i + 1][..i] == boxVerts[..i];
      frustRange := frustRange.With(axis.Dot(frustVerts[i]));
      boxRange := boxRange.With(axis.Dot(boxVerts[i]));
    }
    assert frustVerts[..8] == frustVerts && boxVerts[..8] == boxVerts;
    DisjointSeparates(axis, frustVerts, boxVerts);
    return !RangeOverlap(frustRange, boxRange);
  }

  /** Projections do not overlap exactly when one lies wholly before the other. */
  lemma DisjointSeparates(axis: Vec, frustVerts: seq<Vec>, boxVerts: seq<Vec>)
    requires |frustVerts| == |boxVerts| == 8
    ensures Projection(axis, frustVerts).Range? && Projection(axis, boxVerts).Range?
    ensures !RangeOverlap(Projection(axis, frustVerts), Projection(axis, boxVerts)) <==> Separates(axis, frustVerts, boxVerts)
  {
    ProjectionBounds(axis, frustVerts);
    ProjectionBounds(axis, boxVerts);
    var a, b := Projection(axis, frustVerts), Projection(axis, boxVerts);
    var i, i' :| 0 <= i < 8 && 0 <= i' < 8 && a == Range(axis.Dot(frustVerts[i]), axis.Dot(frustVerts[i']));
    var k, k' :| 0 <= k < 8 && 0 <= k' < 8 && b == Range(axis.Dot(boxVerts[k]), axis.Dot(boxVerts[k']));
    assert !RangeOverlap(a, b) <==> a.hi < b.lo || b.hi < a.lo;
  }

  /** A point of the hull lies between two of the corners, along any axis. */
  lemma HullReaches(axis: Vec, verts: seq<Vec>, p: Vec) returns (i: nat, k: nat)
    requires verts != [] && InHull(p, verts)
    ensures i < |verts| && k < |verts| && axis.Dot(verts[i]) <= axis.Dot(p) <= axis.Dot(verts[k])
  {
    ProjectionBounds(axis, verts);
    var range := Projection(axis, verts);
    HullBetween(axis, p, verts, range.lo, range.hi);
    i, k :| 0 <= i < |verts| && 0 <= k < |verts| && range == Range(axis.Dot(verts[i]), axis.Dot(verts[k]));
  }

  lemma BoxReaches(axis: Vec, b: Box, p: Vec) returns (i: nat, k: nat)
    requires b.Contains(p)
    ensures i < 8 && k < 8 && axis.Dot(b.Corners()[i]) <= axis.Dot(p) <= axis.Dot(b.Corners()[k])
  {
    i := CornerBelow(axis, b, p);
    k := CornerBelow(axis.Times(-1.0), b, p);
    DotTimes(b.Corners()[k], axis, -1.0);
    DotTimes(p, axis, -1.0);
    DotSymmetric(axis, p);
    DotSymmetric(axis, b.Corners()[k]);
  }

  /** A point of both bodies is on both sides of no axis. */
  lemma CommonPointNotSeparated(axis: Vec, f: Frustum, b: Box, p: Vec)
    requires f.Valid() && InHull(p, f.verts) && b.Contains(p)
    ensures !Separates(axis, f.verts, b.Corners())
  {
    var i, i' := HullReaches(axis, f.verts, p);
    var k, k' := BoxReaches(axis, b, p);
  }

  /** The corner of the box that lies lowest along an axis. */
  lemma CornerBelow(axis: Vec, b: Box, p: Vec) returns (k: nat)
    requires b.Contains(p)
    ensures k < 8 && axis.Dot(b.Corners()[k]) <= axis.Dot(p)
  {
    k := CornerAt(b, axis.x < 0.0, axis.y < 0.0, axis.z < 0.0);
    DotBelow(axis, b.Corners()[k], p);
  }

  lemma CornerAt(b: Box, farX: bool, farY: bool, farZ: bool) returns (k: nat)
    ensures k < 8
    ensures b.Corners()[k].x == if farX then b.maxs.x else b.mins.x
    ensures b.Corners()[k].y == if farY then b.maxs.y else b.mins.y
    ensures b.Corners()[k].z == if farZ then b.maxs.z else b.mins.z
  {
    k := (if farY then 4 else 0) + (if farX then 2 else 0) + (if farZ then 1 else 0);
  }

  lemma DotBelow(axis: Vec, c: Vec, p: Vec)
    requires if axis.x >= 0.0 then c.x <= p.x else c.x >= p.x
    requires if axis.y >= 0.0 then c.y <= p.y else c.y >= p.y
    requires if axis.z >= 0.0 then c.z <= p.z else c.z >= p.z
    ensures axis.Dot(c) <= axis.Dot(p)
  {
    ProductBelow(axis.x, c.x, p.x);
    ProductBelow(axis.y, c.y, p.y);
    ProductBelow(axis.z, c.z, p.z);
  }

  lemma ProductBelow(a: real, c: real, p: real)
    requires if a >= 0.0 then c <= p else c >= p
    ensures a * c <= a * p
  {
    assert a >= 0.0 ==> a * (p - c) >= 0.0;
    assert a < 0.0 ==> (-a) * (c - p) >= 0.0;
  }

  const BOX_AXES := [Vec(1.0, 0.0, 0.0), Vec(0.0, 1.0, 0.0), Vec(0.0, 0.0, 1.0)]

  /** SafeNormalize with some approximation of the inverse square root. */
  function Normalized(isqrt: real -> real, v: Vec): Vec {
    if v.SqLength() > 0.000000000001 then v.Times(isqrt(v.SqLength())) else v
  }

  function CrossAxes(isqrt: real -> real, f: Frustum): seq<Vec>
    requires f.Valid()
  {
    seq(18, i requires 0 <= i < 18 => Normalized(isqrt, BOX_AXES[i / 6].Cross(f.edges[i % 6])))
  }

  ghost predicate NoneSeparates(axes: seq<Vec>, f: Frustum, b: Box)
    requires f.Valid()
  {
    forall i :: 0 <= i < |axes| ==> !Separates(axes[i], f.verts, b.Corners())
  }

  method AnySeparates(axes: seq<Vec>, f: Frustum, b: Box) returns (found: bool)
    requires f.Valid()
    ensures found <==> !NoneSeparates(axes, f, b)
  {
    for i := 0 to |axes|
      invariant NoneSeparates(axes[..i], f, b)
    {
      var sep := IsSepAxis(axes[i], f.verts, b.Corners());
      if sep {
        return true;
      }
      assert axes[..i + 1] == axes[..i] + [axes[i]];
    }
    assert axes[..|axes|] == axes;
    return false;
  }

  ghost predicate BoxTest(isqrt: real -> real, f: Frustum, b: Box)
    requires f.Valid()
  {
    NoneSeparates(BOX_AXES, f, b) && NoneSeparates(f.planes, f, b) && NoneSeparates(CrossAxes(isqrt, f), f, b)
  }

  method IntersectAABB(isqrt: real -> real, f: Frustum, b: Box) returns (r: bool)
    requires f.Valid()
    ensures r <==> BoxTest(isqrt, f, b)
  {
    var sep := AnySeparates(BOX_AXES, f, b);
    if sep {
      return false;
    }
    sep := AnySeparates(f.planes, f, b);
    if sep {
      return false;
    }
    var crossAxes: seq<Vec> := [];
    for i := 0 to 3
      invariant crossAxes == CrossAxes(isqrt, f)[..i * 6]
    {
      for j := 0 to 6
        invariant crossAxes == CrossAxes(isqrt, f)[..i * 6 + j]
      {
        crossAxes := crossAxes + [Normalized(isqrt, BOX_AXES[i].Cross(f.edges[j]))];
      }
    }
    sep := AnySeparates(crossAxes, f, b);
    return !sep;
  }

  /** No box with a point in the frustum's hull is culled, whichever axes are tried and however they are normalised. */
  lemma BoxCullingSound(isqrt: real -> real, f: Frustum, b: Box, p: Vec)
    requires f.Valid() && InHull(p, f.verts) && b.Contains(p)
    ensures BoxTest(isqrt, f, b)
  {
    forall axis: Vec
      ensures !Separates(axis, f.verts, b.Corners())
    {
      CommonPointNotSeparated(axis, f, b, p);
    }
  }

  // ---------------------------------------------------------------- what a culled box means

  /** All of the frustum's hull lies before all of the box along the axis, or the other way round. */
  ghost predicate BodiesApart(axis: Vec, f: Frustum, b: Box) {
    BodyBefore(axis, f, b) || BodyBehind(axis, f, b)
  }

  ghost predicate BodyBefore(axis: Vec, f: Frustum, b: Box) {
    forall p, q :: InHull(p, f.verts) && b.Contains(q) ==> axis.Dot(p) < axis.Dot(q)
  }

  ghost predicate BodyBehind(axis: Vec, f: Frustum, b: Box) {
    forall p, q :: InHull(p, f.verts) && b.Contains(q) ==> axis.Dot(p) > axis.Dot(q)
  }

  lemma CornersApart(axis: Vec, f: Frustum, b: Box, p: Vec, q: Vec)
    requires f.Valid() && InHull(p, f.verts) && b.Contains(q) && Separates(axis, f.verts, b.Corners())
    ensures axis.Dot(p) < axis.Dot(q) <==> axis.Dot(f.verts[0]) < axis.Dot(b.Corners()[0])
    ensures axis.Dot(p) != axis.Dot(q)
  {
    var i, i' := HullReaches(axis, f.verts, p);
    var k, k' := BoxReaches(axis, b, q);
  }

  lemma CornersBelong(f: Frustum, b: Box, i: nat, k: nat)
    requires f.Valid() && b.Contains(b.mins) && i < 8 && k < 8
    ensures InHull(f.verts[i], f.verts) && b.Contains(b.Corners()[k])
  {
    PointInHull(f.verts, i);
  }

  /** Looking at the corners is looking at the bodies. */
  lemma SeparatesBodies(axis: Vec, f: Frustum, b: Box)
    requires f.Valid() && b.Contains(b.mins)
    ensures Separates(axis, f.verts, b.Corners()) <==> BodiesApart(axis, f, b)
  {
    if Separates(axis, f.verts, b.Corners()) {
      forall p, q | InHull(p, f.verts) && b.Contains(q)
        ensures axis.Dot(p) != axis.Dot(q)
        ensures axis.Dot(p) < axis.Dot(q) <==> axis.Dot(f.verts[0]) < axis.Dot(b.Corners()[0])
      {
        CornersApart(axis, f, b, p, q);
      }
    }
    forall i: nat, k: nat | i < 8 && k < 8
      ensures InHull(f.verts[i], f.verts) && b.Contains(b.Corners()[k])
    {
      CornersBelong(f, b, i, k);
    }
  }

  /** The axes that are tried: three of the box, six of the frustum, and their products. */
  function Axes(isqrt: real -> real, f: Frustum): seq<Vec>
    requires f.Valid()
  {
    BOX_AXES + f.planes + CrossAxes(isqrt, f)
  }

  /** A box is culled exactly when one of these axes has all of it strictly apart from the frustum. */
  lemma BoxCulledExactly(isqrt: real -> real, f: Frustum, b: Box)
    requires f.Valid() && b.Contains(b.mins)
    ensures !BoxTest(isqrt, f, b)
      <==> exists i :: 0 <= i < |Axes(isqrt, f)| && BodiesApart(Axes(isqrt, f)[i], f, b)
  {
    forall axis: Vec
      ensures Separates(axis, f.verts, b.Corners()) <==> BodiesApart(axis, f, b)
    {
      SeparatesBodies(axis, f, b);
    }
    AxesTried(BOX_AXES + f.planes, CrossAxes(isqrt, f), f, b);
    AxesTried(BOX_AXES, f.planes, f, b);
    var axes := Axes(isqrt, f);
    if !NoneSeparates(axes, f, b) {
      var i :| 0 <= i < |axes| && Separates(axes[i], f.verts, b.Corners());
      assert BodiesApart(axes[i], f, b);
    }
  }

  lemma AxesTried(some: seq<Vec>, others: seq<Vec>, f: Frustum, b: Box)
    requires f.Valid()
    ensures NoneSeparates(some + others, f, b) <==> NoneSeparates(some, f, b) && NoneSeparates(others, f, b)
  {
    var all := some + others;
    if NoneSeparates(all, f, b) {
      forall i | 0 <= i < |some|
        ensures !Separates(some[i], f.verts, b.Corners())
      {
        assert all[i] == some[i];
      }
      forall i | 0 <= i < |others|
        ensures !Separates(others[i], f.verts, b.Corners())
      {
        assert all[|some| + i] == others[i];
      }
    }
  }

  // ---------------------------------------------------------------- which axes are tried

  /** A positive inverse root; how exact it is does not matter here. */
  ghost predicate IsPositive(isqrt: real -> real) {
    forall x: real :: x > 0.0 ==> isqrt(x) > 0.0
  }

  /** Normalising stretches a vector. */
  lemma NormalizedStretches(isqrt: real -> real, v: Vec) returns (k: real)
    requires IsPositive(isqrt)
    ensures k > 0.0 && Normalized(isqrt, v) == v.Times(k)
  {
    k := if v.SqLength() > 0.000000000001 then isqrt(v.SqLength()) else 1.0;
  }

  lemma StretchedIsZero(v: Vec, k: real)
    requires k > 0.0
    ensures v.Times(k) == ZERO <==> v == ZERO
  {
    ProductZero(k, v.x);
    ProductZero(k, v.y);
    ProductZero(k, v.z);
  }

  lemma ProductZero(k: real, a: real)
    requires k > 0.0
    ensures a * k == 0.0 <==> a == 0.0
    ensures a * k < 0.0 <==> a < 0.0
  {
    assert a > 0.0 ==> a * k > 0.0;
    assert a < 0.0 ==> (-a) * k > 0.0;
  }

  lemma CrossPerpendicular(a: Vec, b: Vec)
    ensures a.Dot(a.Cross(b)) == 0.0 && b.Dot(a.Cross(b)) == 0.0
  {
    Cancels(a.x, a.y, a.z, b.x, b.y, b.z);
  }

  lemma Cancels(a: real, b: real, c: real, p: real, q: real, r: real)
    ensures a * (b * r - c * q) + b * (c * p - a * r) + c * (a * q - b * p) == 0.0
    ensures p * (b * r - c * q) + q * (c * p - a * r) + r * (a * q - b * p) == 0.0
  {
  }

  lemma NormalizedPerpendicular(isqrt: real -> real, a: Vec, c: Vec)
    requires IsPositive(isqrt) && a.Dot(c) == 0.0
    ensures a.Dot(Normalized(isqrt, c)) == 0.0
  {
    var k := NormalizedStretches(isqrt, c);
    DotTimes(a, c, k);
  }

  lemma NormalizedIsZero(isqrt: real -> real, c: Vec)
    requires IsPositive(isqrt)
    ensures Normalized(isqrt, c) == ZERO <==> c == ZERO
  {
    var k := NormalizedStretches(isqrt, c);
    StretchedIsZero(c, k);
  }

  lemma CrossAxisAt(isqrt: real -> real, f: Frustum, i: nat, j: nat)
    requires f.Valid() && i < 3 && j < 6
    ensures CrossAxes(isqrt, f)[i * 6 + j] == Normalized(isqrt, BOX_AXES[i].Cross(f.edges[j]))
  {
    assert (i * 6 + j) / 6 == i && (i * 6 + j) % 6 == j;
  }

  /** Each of the 18 products is perpendicular to its box axis and its edge, and vanishes only where these are parallel. */
  lemma CrossAxesPerpendicular(isqrt: real -> real, f: Frustum, i: nat, j: nat)
    requires f.Valid() && IsPositive(isqrt) && i < 3 && j < 6
    ensures var axis := CrossAxes(isqrt, f)[i * 6 + j];
            BOX_AXES[i].Dot(axis) == 0.0 && f.edges[j].Dot(axis) == 0.0
            && (axis == ZERO <==> BOX_AXES[i].Cross(f.edges[j]) == ZERO)
  {
    var a, e := BOX_AXES[i], f.edges[j];
    CrossAxisAt(isqrt, f, i, j);
    CrossPerpendicular(a, e);
    NormalizedPerpendicular(isqrt, a, a.Cross(e));
    NormalizedPerpendicular(isqrt, e, a.Cross(e));
    NormalizedIsZero(isqrt, a.Cross(e));
  }

  lemma StretchedApart(v: Vec, k: real, f: Frustum, b: Box)
    requires k > 0.0
    ensures BodiesApart(v.Times(k), f, b) <==> BodiesApart(v, f, b)
  {
    forall p: Vec, q: Vec
      ensures v.Times(k).Dot(p) < v.Times(k).Dot(q) <==> v.Dot(p) < v.Dot(q)
      ensures v.Times(k).Dot(p) > v.Times(k).Dot(q) <==> v.Dot(p) > v.Dot(q)
    {
      StretchedOrder(v, k, p, q);
      StretchedOrder(v, k, q, p);
    }
  }

  lemma StretchedOrder(v: Vec, k: real, p: Vec, q: Vec)
    requires k > 0.0
    ensures v.Times(k).Dot(p) < v.Times(k).Dot(q) <==> v.Dot(p) < v.Dot(q)
  {
    DotSymmetric(v.Times(k), p);
    DotSymmetric(v.Times(k), q);
    DotSymmetric(v, p);
    DotSymmetric(v, q);
    DotTimes(p, v, k);
    DotTimes(q, v, k);
    ProductZero(k, v.Dot(p) - v.Dot(q));
    assert (v.Dot(p) - v.Dot(q)) * k == k * v.Dot(p) - k * v.Dot(q);
  }

  /** The cross products of the coordinate axes and a direction. */
  function CoordinateCross(i: nat, e: Vec): Vec {
    if i == 0 then Vec(0.0, -e.z, e.y) else if i == 1 then Vec(e.z, 0.0, -e.x) else Vec(-e.y, e.x, 0.0)
  }

  lemma CoordinateCrossIsCross(i: nat, e: Vec)
    requires i < 3
    ensures BOX_AXES[i].Cross(e) == CoordinateCross(i, e)
  {
  }

  lemma ProductApart(isqrt: real -> real, f: Frustum, b: Box, n: nat)
    requires f.Valid() && b.Contains(b.mins) && IsPositive(isqrt) && n < 18
    ensures Separates(CrossAxes(isqrt, f)[n], f.verts, b.Corners()) <==> BodiesApart(CoordinateCross(n / 6, f.edges[n % 6]), f, b)
  {
    var c := CoordinateCross(n / 6, f.edges[n % 6]);
    CoordinateCrossIsCross(n / 6, f.edges[n % 6]);
    var k := NormalizedStretches(isqrt, c);
    StretchedApart(c, k, f, b);
    SeparatesBodies(c.Times(k), f, b);
  }

  lemma ProductsApart(isqrt: real -> real, f: Frustum, b: Box)
    requires f.Valid() && b.Contains(b.mins) && IsPositive(isqrt)
    ensures !NoneSeparates(CrossAxes(isqrt, f), f, b)
      <==> exists i, j :: 0 <= i < 3 && 0 <= j < 6 && BodiesApart(CoordinateCross(i, f.edges[j]), f, b)
  {
    var axes := CrossAxes(isqrt, f);
    forall i, j | 0 <= i < 3 && 0 <= j < 6
      ensures BodiesApart(CoordinateCross(i, f.edges[j]), f, b) ==> !NoneSeparates(axes, f, b)
    {
      assert (i * 6 + j) / 6 == i && (i * 6 + j) % 6 == j;
      ProductApart(isqrt, f, b, i * 6 + j);
    }
    if !NoneSeparates(axes, f, b) {
      var n :| 0 <= n < 18 && Separates(axes[n], f.verts, b.Corners());
      ProductApart(isqrt, f, b, n);
    }
  }

  lemma CoordinatesApart(f: Frustum, b: Box)
    requires f.Valid() && b.Contains(b.mins)
    ensures !NoneSeparates(BOX_AXES, f, b) <==>
      BodiesApart(Vec(1.0, 0.0, 0.0), f, b) || BodiesApart(Vec(0.0, 1.0, 0.0), f, b) || BodiesApart(Vec(0.0, 0.0, 1.0), f, b)
  {
    SeparatesBodies(Vec(1.0, 0.0, 0.0), f, b);
    SeparatesBodies(Vec(0.0, 1.0, 0.0), f, b);
    SeparatesBodies(Vec(0.0, 0.0, 1.0), f, b);
    assert Separates(BOX_AXES[0], f.verts, b.Corners()) <==> Separates(Vec(1.0, 0.0, 0.0), f.verts, b.Corners());
    assert Separates(BOX_AXES[1], f.verts, b.Corners()) <==> Separates(Vec(0.0, 1.0, 0.0), f.verts, b.Corners());
    assert Separates(BOX_AXES[2], f.verts, b.Corners()) <==> Separates(Vec(0.0, 0.0, 1.0), f.verts, b.Corners());
  }

  lemma PlanesApart(f: Frustum, b: Box)
    requires f.Valid() && b.Contains(b.mins)
    ensures !NoneSeparates(f.planes, f, b) <==> exists i :: 0 <= i < 6 && BodiesApart(f.planes[i], f, b)
  {
    forall i | 0 <= i < 6
      ensures Separates(f.planes[i], f.verts, b.Corners()) <==> BodiesApart(f.planes[i], f, b)
    {
      SeparatesBodies(f.planes[i], f, b);
    }
  }

  /** A box is culled exactly when a coordinate axis, the normal of a plane, or the cross product of a coordinate axis
      and an edge has it strictly apart from the frustum. */
  lemma BoxCulledByAxes(isqrt: real -> real, f: Frustum, b: Box)
    requires f.Valid() && b.Contains(b.mins) && IsPositive(isqrt)
    ensures !BoxTest(isqrt, f, b) <==>
      || BodiesApart(Vec(1.0, 0.0, 0.0), f, b) || BodiesApart(Vec(0.0, 1.0, 0.0), f, b) || BodiesApart(Vec(0.0, 0.0, 1.0), f, b)
      || (exists i :: 0 <= i < 6 && BodiesApart(f.planes[i], f, b))
      || exists i, j :: 0 <= i < 3 && 0 <= j < 6 && BodiesApart(CoordinateCross(i, f.edges[j]), f, b)
  {
    CoordinatesApart(f, b);
    PlanesApart(f, b);
    ProductsApart(isqrt, f, b);
  }
}
